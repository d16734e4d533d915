/** app/blog/search/page.tsx: the blog search page filters the listing by a
    case-insensitive substring query and heads the results with their count. */
module BlogSearch {
  import opened Wrappers
  import opened Text
  import opened Sequences
  import opened Blog

  /** `searchParams.q?.toLowerCase() || ""`. */
  function Query(q: Option<string>): (query: string)
    ensures q.None? ==> query == ""
    ensures q.Some? ==> |query| == |q.value|
  {
    if q.Some? then ToLower(q.value) else ""
  }

  /** The `filter` callback: the query occurs in the lower-cased title,
      description, category, some tag, or body. */
  predicate Matches(post: BlogPost, query: string) {
    || Contains(ToLower(post.frontMatter.title), query)
    || Contains(ToLower(post.frontMatter.description), query)
    || Contains(ToLower(post.frontMatter.category), query)
    || (exists t :: t in post.frontMatter.tags && Contains(ToLower(t), query))
    || Contains(ToLower(post.content), query)
  }

  /** `allPosts.filter(...)`: the matching posts in listing order. */
  function FilterPosts(posts: seq<BlogPost>, query: string): (r: seq<BlogPost>)
    ensures forall p :: p in r <==> p in posts && Matches(p, query)
    ensures IsSubsequence(r, posts)
  {
    if posts == [] then []
    else
      var rest := FilterPosts(posts[1..], query);
      assert forall p :: p in posts <==> p == posts[0] || p in posts[1..];
      if Matches(posts[0], query) then
        assert ([posts[0]] + rest)[1..] == rest;
        [posts[0]] + rest
      else
        SubsequenceOfTail(rest, posts);
        rest
  }

  /** `filteredPosts`: nothing without a query. */
  function SearchResults(q: Option<string>, allPosts: seq<BlogPost>): (r: seq<BlogPost>)
    ensures Query(q) == "" ==> r == []
    ensures forall p :: p in r <==> Query(q) != "" && p in allPosts && Matches(p, Query(q))
    ensures IsSubsequence(r, allPosts)
  {
    if Query(q) == "" then [] else FilterPosts(allPosts, Query(q))
  }

  /** The text under the page title for `count` results. */
  function Header(query: string, count: nat): (h: string)
    ensures query == "" ==> h == "Enter a search term to find articles"
    ensures query != "" ==> h == NatToString(count) + (if count == 1 then " result" else " results")
                                 + " for \"" + query + "\""
  {
    if query == "" then "Enter a search term to find articles"
    else NatToString(count) + " result" + (if count != 1 then "s" else "") + " for \"" + query + "\""
  }
}
