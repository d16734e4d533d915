/** String helpers shared by the model: JavaScript's white-space class and `trim`,
    `startsWith`, `includes`, ASCII `toLowerCase`, the `<` order on strings,
    `Array.from(new Set(xs)).sort()`, and zero-padded decimal rendering. */
module Text {

  /** The characters that JavaScript's `\s` and `String.prototype.trim` treat as white space. */
  predicate IsWhitespace(c: char) {
    || c == ' ' || c == '\t' || c == '\n' || c == '\r' || c == '\U{000B}' || c == '\U{000C}'
    || c == '\U{00A0}' || c == '\U{1680}' || ('\U{2000}' <= c <= '\U{200A}')
    || c == '\U{2028}' || c == '\U{2029}' || c == '\U{202F}' || c == '\U{205F}'
    || c == '\U{3000}' || c == '\U{FEFF}'
  }

  /** `s.trimStart()`: drops the leading white space and nothing else. */
  function TrimStart(s: string): (r: string)
    ensures |r| <= |s| && r == s[|s| - |r|..]
    ensures r == [] || !IsWhitespace(r[0])
    ensures forall i :: 0 <= i < |s| - |r| ==> IsWhitespace(s[i])
  {
    if s != [] && IsWhitespace(s[0]) then TrimStart(s[1..]) else s
  }

  /** `s.trimEnd()`: drops the trailing white space and nothing else. */
  function TrimEnd(s: string): (r: string)
    ensures |r| <= |s| && r == s[..|r|]
    ensures r == [] || !IsWhitespace(r[|r| - 1])
    ensures forall i :: |r| <= i < |s| ==> IsWhitespace(s[i])
  {
    if s != [] && IsWhitespace(s[|s| - 1]) then TrimEnd(s[..|s| - 1]) else s
  }

  /** `s.trim()`: a contiguous piece of `s` with no white space at either end,
      obtained by removing only white space. */
  function Trim(s: string): (r: string)
    ensures r == [] || (!IsWhitespace(r[0]) && !IsWhitespace(r[|r| - 1]))
    ensures exists k {:trigger s[k..]} :: 0 <= k <= |s| - |r| && r == s[k..k + |r|]
    ensures forall c :: c in r ==> c in s
  {
    var a := TrimStart(s);
    var r := TrimEnd(a);
    assert r == s[|s| - |a|..][..|r|] == s[|s| - |a|..|s| - |a| + |r|];
    assert r != [] ==> r[0] == a[0];
    r
  }

  predicate StartsWith(s: string, prefix: string) {
    |prefix| <= |s| && s[..|prefix|] == prefix
  }

  /** `s.endsWith(suffix)`. */
  predicate EndsWith(s: string, suffix: string) {
    |suffix| <= |s| && s[|s| - |suffix|..] == suffix
  }

  /** A prefix test fails at the first differing character. */
  lemma NotStartsWithAt(s: string, prefix: string, i: int)
    requires 0 <= i < |prefix| && i < |s| && s[i] != prefix[i]
    ensures !StartsWith(s, prefix)
  {
    if |prefix| <= |s| {
      assert s[..|prefix|][i] == s[i];
    }
  }

  /** `s.includes(sub)`. */
  predicate Contains(s: string, sub: string) {
    exists i :: 0 <= i <= |s| && StartsWith(s[i..], sub)
  }

  /** A character absent from `s` is not a substring of it. */
  lemma AbsentCharNotContained(s: string, c: char)
    requires c !in s
    ensures !Contains(s, [c])
  {
    forall i | 0 <= i <= |s|
      ensures !StartsWith(s[i..], [c])
    {
      if i < |s| {
        assert s[i..][0] == s[i];
      }
    }
  }

  /** `toLowerCase` restricted to the ASCII letters. */
  function LowerChar(c: char): char {
    if 'A' <= c <= 'Z' then (c as int + 32) as char else c
  }

  function ToLower(s: string): (r: string)
    ensures |r| == |s|
    ensures forall i :: 0 <= i < |s| ==> r[i] == LowerChar(s[i])
  {
    seq(|s|, i requires 0 <= i < |s| => LowerChar(s[i]))
  }

  /** JavaScript's `a < b` on strings: lexicographic by character, a proper prefix first. */
  predicate LexLess(a: string, b: string)
    decreases |a|
  {
    if a == [] then b != []
    else if b == [] then false
    else if a[0] != b[0] then a[0] < b[0]
    else LexLess(a[1..], b[1..])
  }

  /** JavaScript's `a <= b` on strings. */
  predicate LexLe(a: string, b: string) {
    a == b || LexLess(a, b)
  }

  lemma {:induction false} LexLessIrreflexive(a: string)
    ensures !LexLess(a, a)
  {
    if a != [] { LexLessIrreflexive(a[1..]); }
  }

  lemma {:induction false} LexLessTransitive(a: string, b: string, c: string)
    requires LexLess(a, b) && LexLess(b, c)
    ensures LexLess(a, c)
    decreases |a|
  {
    if a != [] && a[0] == b[0] && b[0] == c[0] {
      LexLessTransitive(a[1..], b[1..], c[1..]);
    }
  }

  lemma {:induction false} LexLessTotal(a: string, b: string)
    ensures a == b || LexLess(a, b) || LexLess(b, a)
    decreases |a|
  {
    if a != [] && b != [] && a[0] == b[0] {
      LexLessTotal(a[1..], b[1..]);
      if a[1..] == b[1..] {
        assert a == [a[0]] + a[1..] && b == [b[0]] + b[1..];
      }
    }
  }

  /** The strings of `r` are in strictly ascending `<` order, hence pairwise distinct. */
  ghost predicate StrictlyAscending(r: seq<string>) {
    forall i, j :: 0 <= i < j < |r| ==> LexLess(r[i], r[j])
  }

  /** Adds `x` to an ascending, duplicate-free list, keeping it so. */
  function InsertDistinct(x: string, r: seq<string>): (r': seq<string>)
    requires StrictlyAscending(r)
    ensures StrictlyAscending(r')
    ensures forall y :: y in r' <==> y == x || y in r
  {
    if r == [] then [x]
    else if x == r[0] then r
    else if LexLess(x, r[0]) then
      assert forall j :: 0 <= j < |r| ==> LexLess(x, r[j]) by {
        forall j | 0 <= j < |r| ensures LexLess(x, r[j]) {
          if j > 0 { LexLessTransitive(x, r[0], r[j]); }
        }
      }
      [x] + r
    else
      LexLessTotal(x, r[0]);
      var rest := InsertDistinct(x, r[1..]);
      assert forall y :: y in rest ==> LexLess(r[0], y);
      [r[0]] + rest
  }

  /** `Array.from(new Set(xs)).sort()`: the distinct strings of `xs` in ascending order. */
  function SortedDistinct(xs: seq<string>): (r: seq<string>)
    ensures StrictlyAscending(r)
    ensures forall y :: y in r <==> y in xs
  {
    if xs == [] then [] else InsertDistinct(xs[0], SortedDistinct(xs[1..]))
  }

  /** The property names a plain object inherits from `Object.prototype`: a
      lookup of one of them in an object used as a record finds a function (or,
      for `__proto__`, the prototype) instead of nothing. */
  predicate Inherits(name: string) {
    name in ["constructor", "hasOwnProperty", "isPrototypeOf", "propertyIsEnumerable",
             "toLocaleString", "toString", "valueOf", "__proto__", "__defineGetter__",
             "__defineSetter__", "__lookupGetter__", "__lookupSetter__"]
  }

  predicate IsDigit(c: char) { '0' <= c <= '9' }

  /** The number a string of decimal digits denotes. */
  function DigitsValue(s: string): nat
    requires forall i :: 0 <= i < |s| ==> IsDigit(s[i])
  {
    if s == [] then 0
    else
      assert IsDigit(s[|s| - 1]);
      DigitsValue(s[..|s| - 1]) * 10 + (s[|s| - 1] as int - '0' as int)
  }

  /** A property name JavaScript treats as an array index: the canonical
      decimal form of an integer below 2^32 - 1. An object enumerates such
      names first, in increasing order, and then the others in the order they
      were added. */
  predicate IsArrayIndex(s: string) {
    && s != []
    && (forall i :: 0 <= i < |s| ==> IsDigit(s[i]))
    && (s[0] == '0' ==> s == "0")
    && DigitsValue(s) < 0xFFFF_FFFF
  }

  /** The decimal digit character of `d`. */
  function Digit(d: int): (c: char)
    requires 0 <= d < 10
    ensures IsDigit(c) && c as int - '0' as int == d
  {
    (48 + d) as char
  }

  /** `n.toString()` for a natural number, most significant digit first. */
  function NatToString(n: nat): (r: string)
    ensures r != []
    ensures forall c :: c in r ==> '0' <= c <= '9'
    ensures forall i :: 0 <= i < |r| ==> IsDigit(r[i])
    decreases n
  {
    if n < 10 then [Digit(n)] else NatToString(n / 10) + [Digit(n % 10)]
  }

  /** Reading the decimal form of `n` back gives `n`. */
  lemma {:induction false} DigitsOfNat(n: nat)
    ensures DigitsValue(NatToString(n)) == n
    decreases n
  {
    var s := NatToString(n);
    if n < 10 {
      assert s[..|s| - 1] == [];
    } else {
      assert s[..|s| - 1] == NatToString(n / 10);
      DigitsOfNat(n / 10);
    }
  }

  /** `n.toString().padStart(2, "0")` for `n` below 100. */
  function Pad2(n: int): (r: string)
    requires 0 <= n < 100
  {
    [Digit(n / 10), Digit(n % 10)]
  }

  /** The two padded digits read back as `n`. */
  lemma Pad2Reads(n: int)
    requires 0 <= n < 100
    ensures var r := Pad2(n); |r| == 2 && IsDigit(r[0]) && IsDigit(r[1]) && DigitsValue(r) == n
  {
    var r := Pad2(n);
    assert r[..1] == [Digit(n / 10)] && r[..1][..0] == [];
    assert DigitsValue(r[..1]) == n / 10;
  }

  /** The zero-padded 24-hour `HH:mm` label of minute `m` of a day. */
  function HHmm(m: int): (r: string)
    requires 0 <= m < 1440
  {
    Pad2(m / 60) + ":" + Pad2(m % 60)
  }

  lemma LexLessCons(c: char, a: string, d: char, b: string)
    ensures LexLess([c] + a, [d] + b) <==> c < d || (c == d && LexLess(a, b))
  {
    assert ([c] + a)[1..] == a && ([d] + b)[1..] == b;
  }

  /** Two zero-padded two-digit numbers compare as strings as the numbers do. */
  lemma Pad2Order(x: int, y: int, ra: string, rb: string)
    requires 0 <= x < 100 && 0 <= y < 100
    ensures LexLess(Pad2(x) + ra, Pad2(y) + rb) <==> x < y || (x == y && LexLess(ra, rb))
  {
    var sa, sb := Pad2(x) + ra, Pad2(y) + rb;
    assert sa == [Digit(x / 10)] + ([Digit(x % 10)] + ra);
    assert sb == [Digit(y / 10)] + ([Digit(y % 10)] + rb);
    LexLessCons(Digit(x / 10), [Digit(x % 10)] + ra, Digit(y / 10), [Digit(y % 10)] + rb);
    LexLessCons(Digit(x % 10), ra, Digit(y % 10), rb);
  }

  /** Comparing two `HH:mm` labels as strings is comparing the minutes they stand for. */
  lemma {:induction false} HHmmOrder(a: int, b: int)
    requires 0 <= a < 1440 && 0 <= b < 1440
    ensures LexLess(HHmm(a), HHmm(b)) <==> a < b
  {
    var h1, m1, h2, m2 := a / 60, a % 60, b / 60, b % 60;
    Pad2Order(h1, h2, ":" + Pad2(m1), ":" + Pad2(m2));
    LexLessCons(':', Pad2(m1), ':', Pad2(m2));
    assert ":" + Pad2(m1) == [':'] + Pad2(m1) && ":" + Pad2(m2) == [':'] + Pad2(m2);
    Pad2Order(m1, m2, [], []);
    assert Pad2(m1) + [] == Pad2(m1) && Pad2(m2) + [] == Pad2(m2);
    assert !LexLess([], []);
    assert HHmm(a) == Pad2(h1) + (":" + Pad2(m1));
    assert HHmm(b) == Pad2(h2) + (":" + Pad2(m2));
  }

  /** Distinct minutes have distinct labels. */
  lemma HHmmInjective(a: int, b: int)
    requires 0 <= a < 1440 && 0 <= b < 1440
    ensures HHmm(a) == HHmm(b) <==> a == b
  {
    if HHmm(a) == HHmm(b) {
      LexLessIrreflexive(HHmm(a));
      HHmmOrder(a, b);
      HHmmOrder(b, a);
    }
  }
}
