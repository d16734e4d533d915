/** app/api/newsletter/subscribe/route.ts: `POST /api/newsletter/subscribe`
    checks the address's shape, looks it up in lower case, and inserts it in
    lower case when it is new. The `newsletter_subscribers` table is the sequence
    `subscribers`; whether the lookup, the insert and the welcome email fail are
    parameters. */
module Newsletter {
  import opened Text

  /** The `email` field of the JSON body; `BadJson` when the body does not parse. */
  datatype EmailField = BadJson | Missing | NotString | Str(value: string)

  datatype Response = Response(status: nat, error: bool, text: string)

  /** A character `[^\s@]` accepts. */
  predicate Plain(c: char) {
    !IsWhitespace(c) && c != '@'
  }

  /** `[^\s@]+`. */
  predicate PlainRun(s: string) {
    s != [] && forall i :: 0 <= i < |s| ==> Plain(s[i])
  }

  /** The match `^[^\s@]+@[^\s@]+\.[^\s@]+$` looks for, split at the '@' and at
      the '.'. */
  predicate MatchesAt(email: string, at: int, dot: int) {
    0 <= at < dot < |email| && email[at] == '@' && email[dot] == '.'
    && PlainRun(email[..at]) && PlainRun(email[at + 1..dot]) && PlainRun(email[dot + 1..])
  }

  /** `emailRegex.test(email)`. */
  predicate MatchesEmailRegex(email: string) {
    exists at, dot | 0 <= at < dot < |email| :: MatchesAt(email, at, dot)
  }

  function CountAt(s: string): (n: nat)
    ensures n <= |s|
  {
    if s == [] then 0 else CountAt(s[..|s| - 1]) + (if s[|s| - 1] == '@' then 1 else 0)
  }

  /** The rules the pattern stands for, stated on the whole address: exactly
      one '@', no whitespace, something before the '@', and a '.' in the domain
      with characters on both sides of it. */
  predicate EmailRules(email: string) {
    && CountAt(email) == 1
    && (forall i :: 0 <= i < |email| ==> !IsWhitespace(email[i]))
    && exists at, dot :: 0 < at && at + 1 < dot < |email| - 1 && email[at] == '@' && email[dot] == '.'
  }

  lemma {:induction false} NoAtCount(s: string)
    requires forall i :: 0 <= i < |s| ==> s[i] != '@'
    ensures CountAt(s) == 0
  {
    if s != [] {
      NoAtCount(s[..|s| - 1]);
    }
  }

  lemma {:induction false} CountAtAppend(a: string, b: string)
    ensures CountAt(a + b) == CountAt(a) + CountAt(b)
    decreases |b|
  {
    if b == [] {
      assert a + b == a;
    } else {
      assert (a + b)[..|a + b| - 1] == a + b[..|b| - 1];
      assert (a + b)[|a + b| - 1] == b[|b| - 1];
      CountAtAppend(a, b[..|b| - 1]);
    }
  }

  /** A string with one '@' splits there into two '@'-free parts. */
  lemma {:induction false} OneAtSplits(s: string, at: int)
    requires 0 <= at < |s| && s[at] == '@' && CountAt(s) == 1
    ensures forall i :: 0 <= i < |s| && i != at ==> s[i] != '@'
  {
    assert s == s[..at] + [s[at]] + s[at + 1..];
    CountAtAppend(s[..at] + [s[at]], s[at + 1..]);
    CountAtAppend(s[..at], [s[at]]);
    assert CountAt([s[at]]) == 1 by {
      assert [s[at]][..0] == [];
    }
    forall i | 0 <= i < |s| && i != at ensures s[i] != '@' {
      if i < at {
        assert s[..at][i] == s[i];
        if s[i] == '@' {
          AtCounted(s[..at], i);
        }
      } else {
        assert s[at + 1..][i - at - 1] == s[i];
        if s[i] == '@' {
          AtCounted(s[at + 1..], i - at - 1);
        }
      }
    }
  }

  lemma {:induction false} AtCounted(s: string, i: int)
    requires 0 <= i < |s| && s[i] == '@'
    ensures CountAt(s) >= 1
  {
    if i < |s| - 1 {
      AtCounted(s[..|s| - 1], i);
    }
  }

  /** The pattern accepts exactly the addresses that follow the rules. */
  lemma EmailRegexIffRules(email: string)
    ensures MatchesEmailRegex(email) <==> EmailRules(email)
  {
    if MatchesEmailRegex(email) {
      var at, dot :| 0 <= at < dot < |email| && MatchesAt(email, at, dot);
      MatchFollowsRules(email, at, dot);
    }
    if EmailRules(email) {
      var at, dot :| 0 < at && at + 1 < dot < |email| - 1 && email[at] == '@' && email[dot] == '.';
      OneAtSplits(email, at);
      assert MatchesAt(email, at, dot);
    }
  }

  /** A match follows the rules: its parts hold no whitespace and no '@'. */
  lemma MatchFollowsRules(email: string, at: int, dot: int)
    requires MatchesAt(email, at, dot)
    ensures EmailRules(email)
  {
    forall i | 0 <= i < |email| ensures !IsWhitespace(email[i]) && (i != at ==> email[i] != '@') {
      if i < at {
        assert email[..at][i] == email[i];
      } else if at < i < dot {
        assert email[at + 1..dot][i - at - 1] == email[i];
      } else if dot < i {
        assert email[dot + 1..][i - dot - 1] == email[i];
      }
    }
    assert email == email[..at] + [email[at]] + email[at + 1..];
    NoAtCount(email[..at]);
    NoAtCount(email[at + 1..]);
    CountAtAppend(email[..at] + [email[at]], email[at + 1..]);
    CountAtAppend(email[..at], [email[at]]);
    assert [email[at]][..0] == [];
    assert 0 < at && at + 1 < dot < |email| - 1;
  }

  lemma ToLowerIdempotent(s: string)
    ensures ToLower(ToLower(s)) == ToLower(s)
  {
  }

  /** No address is stored twice. */
  ghost predicate Distinct(rows: seq<string>) {
    forall i, j :: 0 <= i < j < |rows| ==> rows[i] != rows[j]
  }

  /** The lookup `select("id").eq("email", key).maybeSingle()` gives a row
      only when exactly one row matches: with an error, no match or two or more
      matches its `data` is null. */
  predicate LookupFinds(rows: seq<string>, key: string, lookupFailed: bool) {
    !lookupFailed && multiset(rows)[key] == 1
  }

  /** In a table without duplicates a stored address occurs once. */
  lemma {:induction false} DistinctOccursOnce(rows: seq<string>, key: string)
    requires Distinct(rows) && key in rows
    ensures multiset(rows)[key] == 1
  {
    var last := rows[|rows| - 1];
    var init := rows[..|rows| - 1];
    assert rows == init + [last];
    assert Distinct(init);
    if last == key {
      assert key !in init;
    } else {
      DistinctOccursOnce(init, key);
    }
  }

  /** The subscriber table, one address per row in insertion order. Every
      stored address is in lower case. */
  class NewsletterStore {
    var subscribers: seq<string>

    ghost predicate Valid()
      reads this
    {
      forall i :: 0 <= i < |subscribers| ==> ToLower(subscribers[i]) == subscribers[i]
    }

    constructor ()
      ensures subscribers == [] && Valid() && Distinct(subscribers)
    {
      subscribers := [];
    }

    /** `POST(req)`: 500 for a body that is not JSON; 400 for a missing,
        non-string, empty or malformed address; "Already subscribed" when the
        lookup finds its lower-case form; otherwise the lower-case form is
        inserted. A lookup that fails, or that matches several rows, finds
        nothing. A failed insert (a unique
        constraint on the column, if the table has one, is such a failure) is a
        500 with nothing stored; a failing welcome email is a 500 after the insert. */
    method Subscribe(email: EmailField, lookupFailed: bool, insertFails: bool, welcomeFails: bool) returns (r: Response)
      requires Valid()
      modifies this
      ensures Valid()
      ensures email.BadJson? ==> r.status == 500 && r.error && subscribers == old(subscribers)
      ensures (email.Missing? || email.NotString? || (email.Str? && email.value == "")) ==>
                r == Response(400, true, "Valid email is required") && subscribers == old(subscribers)
      ensures email.Str? && email.value != "" && !MatchesEmailRegex(email.value) ==>
                r == Response(400, true, "Invalid email format") && subscribers == old(subscribers)
      ensures email.Str? && MatchesEmailRegex(email.value) ==>
        var key := ToLower(email.value);
        if LookupFinds(old(subscribers), key, lookupFailed) then
          r == Response(200, false, "Already subscribed") && subscribers == old(subscribers)
        else if insertFails then
          r == Response(500, true, "Failed to subscribe") && subscribers == old(subscribers)
        else
          subscribers == old(subscribers) + [key]
          && r.status == (if welcomeFails then 500 else 200)
          && (!welcomeFails ==> r == Response(200, false, "Successfully subscribed"))
      ensures old(Distinct(subscribers)) && !lookupFailed ==> Distinct(subscribers)
    {
      if email.BadJson? {
        return Response(500, true, "Server error");
      }
      if email.Missing? || email.NotString? || email.value == "" {
        return Response(400, true, "Valid email is required");
      }
      if !MatchesEmailRegex(email.value) {
        return Response(400, true, "Invalid email format");
      }
      var key := ToLower(email.value);
      if !lookupFailed && multiset(subscribers)[key] == 1 {
        return Response(200, false, "Already subscribed");
      }
      if insertFails {
        return Response(500, true, "Failed to subscribe");
      }
      ToLowerIdempotent(email.value);
      if Distinct(subscribers) && !lookupFailed && key in subscribers {
        DistinctOccursOnce(subscribers, key);
      }
      subscribers := subscribers + [key];
      if welcomeFails {
        return Response(500, true, "Server error");
      }
      r := Response(200, false, "Successfully subscribed");
    }
  }

  /** When the lookup fails and the insert goes through, a stored address is
      stored a second time, and from then on the lookup does not find it even
      when it answers. */
  lemma FailedLookupStoresTwice(rows: seq<string>, key: string)
    requires key in rows
    ensures !Distinct(rows + [key])
    ensures !LookupFinds(rows + [key], key, false)
  {
    var i :| 0 <= i < |rows| && rows[i] == key;
    assert (rows + [key])[i] == (rows + [key])[|rows|];
  }

  /** Once an address is stored twice the lookup never finds it again: every
      later subscription with it inserts one more row. */
  lemma DuplicateIsInsertedAgain(rows: seq<string>, key: string)
    requires multiset(rows)[key] >= 2
    ensures !LookupFinds(rows, key, false)
    ensures multiset(rows + [key])[key] == multiset(rows)[key] + 1
  {
  }
}
