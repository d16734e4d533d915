/** lib/mdx/blog.tsx: blog posts read from `.mdx` files, their front-matter
    defaults and reading time, the newest-first listing, related posts by
    score, and the category and tag indexes.

    The directory listing and gray-matter's parse are inputs: a post file is
    its name, its parsed front matter and its body. Dates are timestamps. */
module Blog {
  import opened Wrappers
  import opened Text
  import opened Sequences

  // ---------------------------------------------------------------------------
  // Reading time

  const WordsPerMinute: nat := 200

  /** The number of maximal white-space runs in `s`, counted where each run ends. */
  function WhitespaceRuns(s: string): nat {
    if s == [] then 0
    else (if IsWhitespace(s[0]) && (|s| == 1 || !IsWhitespace(s[1])) then 1 else 0) + WhitespaceRuns(s[1..])
  }

  /** `content.trim().split(/\s+/).length`: the pieces between the white-space
      runs of the trimmed text. A blank text splits into one empty piece. */
  function WordCount(content: string): nat {
    1 + WhitespaceRuns(Trim(content))
  }

  /** `calculateReadingTime`: `Math.ceil(words / 200)`. */
  function ReadingTime(content: string): (minutes: nat)
    ensures minutes >= 1
    ensures (minutes - 1) * WordsPerMinute < WordCount(content) <= minutes * WordsPerMinute
  {
    (WordCount(content) + WordsPerMinute - 1) / WordsPerMinute
  }

  /** Runs add up across a join unless a run straddles it. */
  lemma {:induction false} RunsOfJoin(x: string, y: string)
    requires x == [] || y == [] || !IsWhitespace(x[|x| - 1]) || !IsWhitespace(y[0])
    ensures WhitespaceRuns(x + y) == WhitespaceRuns(x) + WhitespaceRuns(y)
  {
    if x == [] {
      assert x + y == y;
    } else if y == [] {
      assert x + y == x;
    } else {
      assert (x + y)[1..] == x[1..] + y;
      RunsOfJoin(x[1..], y);
    }
  }

  /** A non-empty stretch of white space is one run. */
  lemma {:induction false} RunsOfBlank(w: string)
    requires w != [] && forall i :: 0 <= i < |w| ==> IsWhitespace(w[i])
    ensures WhitespaceRuns(w) == 1
  {
    if |w| > 1 {
      RunsOfBlank(w[1..]);
    }
  }

  /** Text that neither starts nor ends with white space is its own trim. */
  lemma TrimOfTrimmed(s: string)
    requires s != [] && !IsWhitespace(s[0]) && !IsWhitespace(s[|s| - 1])
    ensures Trim(s) == s
  {
    assert TrimStart(s) == s;
    assert TrimEnd(s) == s;
  }

  /** Two texts joined by white space count as many words as both together. */
  lemma WordCountOfJoin(a: string, gap: string, b: string)
    requires a != [] && !IsWhitespace(a[0]) && !IsWhitespace(a[|a| - 1])
    requires b != [] && !IsWhitespace(b[0]) && !IsWhitespace(b[|b| - 1])
    requires gap != [] && forall i :: 0 <= i < |gap| ==> IsWhitespace(gap[i])
    ensures WordCount(a + gap + b) == WordCount(a) + WordCount(b)
  {
    var s := a + gap + b;
    assert s[0] == a[0] && s[|s| - 1] == b[|b| - 1];
    TrimOfTrimmed(s);
    TrimOfTrimmed(a);
    TrimOfTrimmed(b);
    RunsOfJoin(a, gap + b);
    RunsOfJoin(gap, b);
    RunsOfBlank(gap);
    assert s == a + (gap + b);
  }

  /** A text with no white space at all is one word. */
  lemma SingleWordCount(w: string)
    requires forall i :: 0 <= i < |w| ==> !IsWhitespace(w[i])
    ensures WordCount(w) == 1
  {
    if w != [] {
      TrimOfTrimmed(w);
      NoRunsWithoutBlank(w);
    } else {
      var t := Trim(w);
      assert |t| == 0;
      assert WhitespaceRuns(t) == 0;
    }
  }

  lemma {:induction false} NoRunsWithoutBlank(w: string)
    requires forall i :: 0 <= i < |w| ==> !IsWhitespace(w[i])
    ensures WhitespaceRuns(w) == 0
  {
    if w != [] {
      NoRunsWithoutBlank(w[1..]);
    }
  }

  // ---------------------------------------------------------------------------
  // Front matter

  /** The front matter as gray-matter parses it; `None` is a missing key. */
  datatype RawMatter = RawMatter(
    title: Option<string>, description: Option<string>, date: Option<int>,
    author: Option<string>, category: Option<string>, tags: Option<seq<string>>,
    image: Option<string>, published: Option<bool>)

  datatype FrontMatter = FrontMatter(
    title: string, description: string, date: int, author: string,
    category: string, tags: seq<string>, image: Option<string>, published: bool)

  datatype BlogPost = BlogPost(slug: string, frontMatter: FrontMatter, content: string, readingTime: nat)

  datatype PostFile = PostFile(name: string, data: RawMatter, content: string)

  /** `value || fallback` for a string: a missing or empty value falls back. */
  function OrElse(value: Option<string>, fallback: string): string {
    if value.Some? && value.value != "" then value.value else fallback
  }

  /** The defaults applied to the parsed front matter; `now` is the timestamp
      `new Date()` gives. */
  function WithDefaults(data: RawMatter, now: int): (fm: FrontMatter)
    ensures fm.title != "" && fm.author != "" && fm.category != ""
    ensures fm.published <==> data.published != Some(false)
    ensures data.title.Some? && data.title.value != "" ==> fm.title == data.title.value
    ensures data.category.Some? && data.category.value != "" ==> fm.category == data.category.value
    ensures fm.image.Some? ==> fm.image.value != ""
  {
    FrontMatter(
      OrElse(data.title, "Untitled"),
      OrElse(data.description, ""),
      data.date.GetOr(now),
      OrElse(data.author, "Flexicure Team"),
      OrElse(data.category, "General"),
      data.tags.GetOr([]),
      if data.image.Some? && data.image.value != "" then data.image else None,
      data.published != Some(false))
  }

  /** A post with no front matter at all gets every default. */
  lemma EmptyFrontMatterDefaults(now: int)
    ensures WithDefaults(RawMatter(None, None, None, None, None, None, None, None), now)
            == FrontMatter("Untitled", "", now, "Flexicure Team", "General", [], None, true)
  {
  }

  const MdxExtension: string := ".mdx"

  /** The `map` callback of `listBlogPosts`: in production an unpublished post
      is dropped; otherwise the slug is the file name without `.mdx`. */
  function ReadPost(f: PostFile, production: bool, now: int): (p: Option<BlogPost>)
    requires EndsWith(f.name, MdxExtension)
    ensures p.None? <==> production && f.data.published == Some(false)
    ensures p.Some? ==> p.value.slug + MdxExtension == f.name && p.value.readingTime == ReadingTime(f.content)
  {
    if production && f.data.published == Some(false) then None
    else
      var slug := f.name[..|f.name| - |MdxExtension|];
      assert slug + MdxExtension == f.name;
      Some(BlogPost(slug, WithDefaults(f.data, now), f.content, ReadingTime(f.content)))
  }

  /** The `.mdx` files read into posts, in directory order, nulls filtered out. */
  function ValidPosts(files: seq<PostFile>, production: bool, now: int): (r: seq<BlogPost>)
    ensures forall p :: p in r <==> exists f :: f in files && EndsWith(f.name, MdxExtension)
                                                && ReadPost(f, production, now) == Some(p)
  {
    if files == [] then []
    else
      var rest := ValidPosts(files[1..], production, now);
      var f := files[0];
      assert forall g :: g in files <==> g == f || g in files[1..];
      if EndsWith(f.name, MdxExtension) && ReadPost(f, production, now).Some? then
        [ReadPost(f, production, now).value] + rest
      else rest
  }

  // ---------------------------------------------------------------------------
  // listBlogPosts

  function DateOf(p: BlogPost): int { p.frontMatter.date }

  /** `listBlogPosts`: the valid posts, newest first. */
  function ListBlogPosts(files: seq<PostFile>, production: bool, now: int): (r: seq<BlogPost>)
    ensures forall i, j :: 0 <= i <= j < |r| ==> r[i].frontMatter.date >= r[j].frontMatter.date
    ensures multiset(r) == multiset(ValidPosts(files, production, now))
  {
    var r := SortByKeyDesc(ValidPosts(files, production, now), DateOf);
    assert forall i, j :: 0 <= i <= j < |r| ==> DateOf(r[i]) >= DateOf(r[j]);
    r
  }

  /** The listing holds every post read from an `.mdx` file that is not
      dropped, and in production only published ones. */
  lemma ListingContents(files: seq<PostFile>, production: bool, now: int)
    ensures var r := ListBlogPosts(files, production, now);
      && (forall f :: f in files && EndsWith(f.name, MdxExtension) && (!production || f.data.published != Some(false))
                      ==> ReadPost(f, production, now).Some? && ReadPost(f, production, now).value in r)
      && (production ==> forall p :: p in r ==> p.frontMatter.published)
  {
    var r := ListBlogPosts(files, production, now);
    var valid := ValidPosts(files, production, now);
    forall p ensures p in r <==> p in valid {
      InSorted(valid, DateOf, p);
    }
  }

  // ---------------------------------------------------------------------------
  // getPostBySlug

  /** `getPostBySlug(slug)`: reads `<slug>.mdx`. A missing file is `null` (the
      failed read lands in the `catch`), and so is an unpublished post in
      production; otherwise the post carries the slug asked for. */
  function GetPostBySlug(files: seq<PostFile>, slug: string, production: bool, now: int): (p: Option<BlogPost>)
    ensures (forall f :: f in files ==> f.name != slug + MdxExtension) ==> p.None?
    ensures p.Some? ==> p.value.slug == slug
    ensures p.Some? ==> exists f :: f in files && f.name == slug + MdxExtension && ReadPost(f, production, now) == p
  {
    if files == [] then None
    else if files[0].name == slug + MdxExtension then
      var f := files[0];
      assert f.name[|f.name| - |MdxExtension|..] == MdxExtension;
      var p := ReadPost(f, production, now);
      assert p.Some? ==> p.value.slug == f.name[..|p.value.slug|] == slug;
      p
    else
      GetPostBySlug(files[1..], slug, production, now)
  }

  /** File names in a directory are distinct. */
  ghost predicate DistinctNames(files: seq<PostFile>) {
    forall i, j :: 0 <= i < j < |files| ==> files[i].name != files[j].name
  }

  /** Looking a listed post up by its slug gives back that very post. */
  lemma {:induction false} SlugLookupMatchesListing(files: seq<PostFile>, production: bool, now: int, p: BlogPost)
    requires DistinctNames(files)
    requires p in ListBlogPosts(files, production, now)
    ensures GetPostBySlug(files, p.slug, production, now) == Some(p)
  {
    InSorted(ValidPosts(files, production, now), DateOf, p);
    var f :| f in files && EndsWith(f.name, MdxExtension) && ReadPost(f, production, now) == Some(p);
    LookupFindsFile(files, f, production, now);
  }

  lemma {:induction false} LookupFindsFile(files: seq<PostFile>, f: PostFile, production: bool, now: int)
    requires DistinctNames(files) && f in files && EndsWith(f.name, MdxExtension)
    requires ReadPost(f, production, now).Some?
    ensures GetPostBySlug(files, ReadPost(f, production, now).value.slug, production, now) == ReadPost(f, production, now)
  {
    var slug := ReadPost(f, production, now).value.slug;
    if files[0] != f {
      assert f in files[1..];
      var k :| 1 <= k < |files| && files[k] == f;
      assert files[0].name != f.name;
      assert DistinctNames(files[1..]) by {
        forall i, j | 0 <= i < j < |files[1..]| ensures files[1..][i].name != files[1..][j].name {
          assert files[1..][i] == files[i + 1] && files[1..][j] == files[j + 1];
        }
      }
      LookupFindsFile(files[1..], f, production, now);
    }
  }

  // ---------------------------------------------------------------------------
  // getRelatedPosts

  /** `tags.filter(tag => postTags.includes(tag)).length`. */
  function SharedTagCount(tags: seq<string>, postTags: seq<string>): (n: nat)
    ensures n <= |tags|
    ensures n == 0 <==> forall t :: t in tags ==> t !in postTags
  {
    if tags == [] then 0
    else
      assert forall t :: t in tags <==> t == tags[0] || t in tags[1..];
      (if tags[0] in postTags then 1 else 0) + SharedTagCount(tags[1..], postTags)
  }

  predicate SameCategory(post: BlogPost, category: Option<string>) {
    category.Some? && category.value != "" && post.frontMatter.category == category.value
  }

  /** The relevance of `post`: 3 for the same (non-empty) category, 2 per shared
      tag. The score is odd exactly for the same category, and at most 3 and 2
      per given tag. */
  function Score(post: BlogPost, category: Option<string>, tags: Option<seq<string>>): (s: nat)
    ensures s % 2 == 1 <==> SameCategory(post, category)
    ensures s <= 3 + (if tags.Some? then 2 * |tags.value| else 0)
  {
    var categoryScore := if category.Some? && category.value != "" && post.frontMatter.category == category.value then 3 else 0;
    var tagScore := if tags.Some? then SharedTagCount(tags.value, post.frontMatter.tags) * 2 else 0;
    categoryScore + tagScore
  }

  /** A post sharing every tag another shares, in the same category standing,
      scores at least as high. */
  lemma ScoreMonotoneInTags(p: BlogPost, q: BlogPost, category: Option<string>, tags: Option<seq<string>>)
    requires SameCategory(p, category) == SameCategory(q, category)
    requires forall t :: t in p.frontMatter.tags ==> t in q.frontMatter.tags
    ensures Score(q, category, tags) >= Score(p, category, tags)
  {
    if tags.Some? {
      SharedTagCountMonotone(tags.value, p.frontMatter.tags, q.frontMatter.tags);
    }
  }

  lemma {:induction false} SharedTagCountMonotone(tags: seq<string>, fewer: seq<string>, more: seq<string>)
    requires forall t :: t in fewer ==> t in more
    ensures SharedTagCount(tags, fewer) <= SharedTagCount(tags, more)
  {
    if tags != [] {
      SharedTagCountMonotone(tags[1..], fewer, more);
    }
  }

  const RelatedLimit: nat := 3

  function OtherPosts(all: seq<BlogPost>, currentSlug: string): (r: seq<BlogPost>)
    ensures forall p :: p in r <==> p in all && p.slug != currentSlug
  {
    if all == [] then []
    else
      assert forall p :: p in all <==> p == all[0] || p in all[1..];
      (if all[0].slug != currentSlug then [all[0]] else []) + OtherPosts(all[1..], currentSlug)
  }

  /** The sort key of `getRelatedPosts`. */
  function ScoreKey(category: Option<string>, tags: Option<seq<string>>): BlogPost -> nat {
    p => Score(p, category, tags)
  }

  /** `getRelatedPosts` over the listing `all`: the other posts by score,
      highest first, at most three. */
  function GetRelatedPosts(all: seq<BlogPost>, currentSlug: string, category: Option<string>,
                           tags: Option<seq<string>>): (r: seq<BlogPost>)
    ensures |r| <= RelatedLimit
    ensures forall p :: p in r ==> p in all && p.slug != currentSlug
    ensures forall i, j :: 0 <= i <= j < |r| ==> Score(r[i], category, tags) >= Score(r[j], category, tags)
  {
    var key := ScoreKey(category, tags);
    var others := OtherPosts(all, currentSlug);
    var ranked := SortByKeyDesc(others, key);
    var r := ranked[..Min(|ranked|, RelatedLimit)];
    assert forall p :: p in r ==> p in all && p.slug != currentSlug by {
      forall p | p in r ensures p in all && p.slug != currentSlug {
        InSorted(others, key, p);
      }
    }
    assert forall i, j :: 0 <= i <= j < |r| ==> key(r[i]) >= key(r[j]);
    r
  }

  /** No post left out scores higher than one that was kept, and one is left
      out only when three were kept. */
  lemma RelatedPostsAreTopScored(all: seq<BlogPost>, currentSlug: string, category: Option<string>,
                                 tags: Option<seq<string>>)
    ensures var r := GetRelatedPosts(all, currentSlug, category, tags);
      forall p :: p in all && p.slug != currentSlug && p !in r ==>
        |r| == RelatedLimit && forall q :: q in r ==> Score(q, category, tags) >= Score(p, category, tags)
  {
    var key := ScoreKey(category, tags);
    var others := OtherPosts(all, currentSlug);
    var r := GetRelatedPosts(all, currentSlug, category, tags);
    forall p | p in all && p.slug != currentSlug && p !in r
      ensures |r| == RelatedLimit && forall q :: q in r ==> Score(q, category, tags) >= Score(p, category, tags)
    {
      TopOfSorted(others, key, RelatedLimit, p);
    }
  }

  // ---------------------------------------------------------------------------
  // getBlogCategories and getBlogTags

  /** `posts.map(p => p.frontMatter.category).filter(Boolean)`. */
  function Categories(posts: seq<BlogPost>): (r: seq<string>)
    ensures forall c :: c in r <==> c != "" && exists p :: p in posts && p.frontMatter.category == c
  {
    if posts == [] then []
    else
      assert forall p :: p in posts <==> p == posts[0] || p in posts[1..];
      var c := posts[0].frontMatter.category;
      (if c != "" then [c] else []) + Categories(posts[1..])
  }

  /** `getBlogCategories`: the distinct non-empty categories in ascending order. */
  function GetBlogCategories(posts: seq<BlogPost>): (r: seq<string>)
    ensures StrictlyAscending(r)
    ensures forall c :: c in r <==> c != "" && exists p :: p in posts && p.frontMatter.category == c
  {
    SortedDistinct(Categories(posts))
  }

  /** `tag` is a tag of some post. */
  ghost predicate TagOfSome(posts: seq<BlogPost>, tag: string) {
    exists p :: p in posts && tag in p.frontMatter.tags
  }

  /** `getBlogTags`: every tag added to a `Set` in a `forEach` over the posts
      and their tags, then sorted. */
  method GetBlogTags(posts: seq<BlogPost>) returns (r: seq<string>)
    ensures StrictlyAscending(r)
    ensures forall t :: t in r <==> TagOfSome(posts, t)
  {
    var tags: seq<string> := [];
    for i := 0 to |posts|
      invariant forall t :: t in tags <==> TagOfSome(posts[..i], t)
    {
      var postTags := posts[i].frontMatter.tags;
      for j := 0 to |postTags|
        invariant forall t :: t in tags <==> TagOfSome(posts[..i], t) || t in postTags[..j]
      {
        if postTags[j] !in tags {
          tags := tags + [postTags[j]];
        }
      }
      assert postTags[..|postTags|] == postTags;
      assert posts[..i + 1] == posts[..i] + [posts[i]];
      forall t ensures TagOfSome(posts[..i + 1], t) <==> TagOfSome(posts[..i], t) || t in postTags {
        if t in postTags {
          assert posts[i] in posts[..i + 1];
        }
      }
    }
    assert posts[..|posts|] == posts;
    r := SortedDistinct(tags);
  }
}
