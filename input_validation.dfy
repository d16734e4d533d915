/** lib/security/input-validation.ts: the text sanitiser and escapers, the
    recursive object sanitiser applied before schema validation, and the
    closure-based rate limiter.

    JavaScript's `replace(/.../gi, "")` scans left to right, removes each match
    and resumes after it; it does not rescan the result, and the model does the same. */
module InputValidation {
  import opened Wrappers
  import opened Text
  import opened RateLimit
  import opened Sequences

  // ---------------------------------------------------------------------------
  // sanitizeText

  /** `replace(/[<>]/g, "")`. */
  function StripAngles(s: string): (r: string)
    ensures forall c :: c in r <==> c in s && c != '<' && c != '>'
  {
    if s == [] then []
    else (if s[0] == '<' || s[0] == '>' then [] else [s[0]]) + StripAngles(s[1..])
  }

  const JavascriptProtocol: string := "javascript:"

  /** `replace(/javascript:/gi, "")`: removes every non-overlapping occurrence,
      ignoring ASCII case, in one pass. */
  function RemoveJavascriptProtocol(s: string): (r: string)
    ensures |r| <= |s|
    ensures forall c :: c in r ==> c in s
    decreases |s|
  {
    if s == [] then []
    else if |s| >= |JavascriptProtocol| && ToLower(s[..|JavascriptProtocol|]) == JavascriptProtocol then
      RemoveJavascriptProtocol(s[|JavascriptProtocol|..])
    else [s[0]] + RemoveJavascriptProtocol(s[1..])
  }

  /** `\w`: an ASCII letter, digit or underscore. */
  predicate IsWordChar(c: char) {
    ('a' <= c <= 'z') || ('A' <= c <= 'Z') || ('0' <= c <= '9') || c == '_'
  }

  /** The length of the longest run of word characters at the start of `s`. */
  function WordRun(s: string): (n: nat)
    ensures n <= |s|
    ensures forall i :: 0 <= i < n ==> IsWordChar(s[i])
    ensures n < |s| ==> !IsWordChar(s[n])
  {
    if s != [] && IsWordChar(s[0]) then 1 + WordRun(s[1..]) else 0
  }

  /** The length of a match of `/on\w+=/i` at the start of `s`, if any. `\w+` is
      greedy and cannot swallow `=`, so the match, when there is one, ends at the
      `=` right after the longest word run. */
  function HandlerMatch(s: string): (m: Option<nat>)
    ensures m.Some? ==> 4 <= m.value <= |s| && s[m.value - 1] == '='
  {
    if |s| >= 2 && ToLower(s[..2]) == "on" then
      var n := WordRun(s[2..]);
      if n >= 1 && 2 + n < |s| && s[2 + n] == '=' then Some(3 + n) else None
    else None
  }

  /** `replace(/on\w+=/gi, "")`. */
  function RemoveEventHandlers(s: string): (r: string)
    ensures |r| <= |s|
    ensures forall c :: c in r ==> c in s
    decreases |s|
  {
    if s == [] then []
    else match HandlerMatch(s)
      case Some(n) => RemoveEventHandlers(s[n..])
      case None => [s[0]] + RemoveEventHandlers(s[1..])
  }

  /** `sanitizeText`: no angle bracket survives and no white space is left at either end. */
  function SanitizeText(s: string): (r: string)
    ensures '<' !in r && '>' !in r
    ensures r == [] || (!IsWhitespace(r[0]) && !IsWhitespace(r[|r| - 1]))
    ensures forall c :: c in r ==> c in s
  {
    Trim(RemoveEventHandlers(RemoveJavascriptProtocol(StripAngles(s))))
  }

  /** Characters neither pattern can start or end on. */
  predicate Plain(s: string) {
    forall i :: 0 <= i < |s| ==> s[i] != '<' && s[i] != '>' && s[i] != ':' && s[i] != '='
  }

  lemma {:induction false} StripAnglesKeepsPlain(s: string)
    requires Plain(s)
    ensures StripAngles(s) == s
  {
    if s != [] {
      StripAnglesKeepsPlain(s[1..]);
      assert s == [s[0]] + s[1..];
    }
  }

  lemma {:induction false} RemoveJavascriptProtocolKeepsPlain(s: string)
    requires Plain(s)
    ensures RemoveJavascriptProtocol(s) == s
    decreases |s|
  {
    if s != [] {
      if |s| >= |JavascriptProtocol| {
        assert ToLower(s[..|JavascriptProtocol|])[10] == LowerChar(s[10]);
      }
      RemoveJavascriptProtocolKeepsPlain(s[1..]);
      assert s == [s[0]] + s[1..];
    }
  }

  lemma {:induction false} RemoveEventHandlersKeepsPlain(s: string)
    requires Plain(s)
    ensures RemoveEventHandlers(s) == s
    decreases |s|
  {
    if s != [] {
      var m := HandlerMatch(s);
      RemoveEventHandlersKeepsPlain(s[1..]);
      assert s == [s[0]] + s[1..];
    }
  }

  /** Text with no `<`, `>`, `:` or `=` and nothing to trim comes back unchanged. */
  lemma SanitizeTextKeepsPlainText(s: string)
    requires Plain(s)
    requires s == [] || (!IsWhitespace(s[0]) && !IsWhitespace(s[|s| - 1]))
    ensures SanitizeText(s) == s
  {
    StripAnglesKeepsPlain(s);
    RemoveJavascriptProtocolKeepsPlain(s);
    RemoveEventHandlersKeepsPlain(s);
    assert TrimStart(s) == s;
    assert TrimEnd(s) == s;
  }

  /** A first character that does not begin the protocol is kept. */
  lemma KeepsFirst(s: string, i: nat)
    requires i < 11 && i < |s| && LowerChar(s[i]) != JavascriptProtocol[i]
    ensures RemoveJavascriptProtocol(s) == [s[0]] + RemoveJavascriptProtocol(s[1..])
  {
    NotProtocolAt(s, i);
  }

  /** The single pass lets a split-up protocol through: removing the inner
      occurrence joins the outer pieces into a new one, whatever follows. */
  lemma NestedProtocolSurvives(x: string)
    ensures RemoveJavascriptProtocol("java" + JavascriptProtocol + "script:" + x)
            == JavascriptProtocol + RemoveJavascriptProtocol(x)
  {
    var tail := "script:" + x;
    var inner := JavascriptProtocol + tail;
    NestedShape(x);
    JavaKept(inner);
    ProtocolRemoved(tail);
    KeepsNoJ("script:", x);
    JavaScriptJoin(RemoveJavascriptProtocol(x));
  }

  lemma NestedShape(x: string)
    ensures "java" + JavascriptProtocol + "script:" + x == "java" + (JavascriptProtocol + ("script:" + x))
    ensures (JavascriptProtocol + ("script:" + x))[0] == 'j'
  {
  }

  lemma JavaScriptJoin(r: string)
    ensures "java" + ("script:" + r) == JavascriptProtocol + r
  {
  }

  /** "java" followed by another 'j' is no match, so it is copied. */
  lemma JavaKept(y: string)
    requires y != [] && y[0] == 'j'
    ensures RemoveJavascriptProtocol("java" + y) == "java" + RemoveJavascriptProtocol(y)
  {
    var s := "java" + y;
    SplitJava(y);
    KeepsFirst(s, 4);
    KeepsNoJ("ava", y);
    SplitJava(RemoveJavascriptProtocol(y));
  }

  lemma SplitJava(y: string)
    ensures "java" + y == ['j'] + ("ava" + y)
    ensures ("java" + y)[1..] == "ava" + y
    ensures y != [] ==> ("java" + y)[4] == y[0]
  {
  }

  /** Characters that cannot start the protocol are copied. */
  lemma {:induction false} KeepsNoJ(p: string, x: string)
    requires forall c :: c in p ==> LowerChar(c) != 'j'
    ensures RemoveJavascriptProtocol(p + x) == p + RemoveJavascriptProtocol(x)
  {
    if p != [] {
      var c, rest := p[0], p[1..];
      assert p == [c] + rest && p + x == [c] + (rest + x);
      KeepsOneNoJ(c, rest + x);
      KeepsNoJ(rest, x);
    } else {
      assert p + x == x;
    }
  }

  lemma KeepsOneNoJ(c: char, y: string)
    requires LowerChar(c) != 'j'
    ensures RemoveJavascriptProtocol([c] + y) == [c] + RemoveJavascriptProtocol(y)
  {
    var s := [c] + y;
    assert s[0] == c && s[1..] == y;
    KeepsFirst(s, 0);
  }

  /** An occurrence at the start is dropped and the scan resumes after it. */
  lemma ProtocolRemoved(x: string)
    ensures RemoveJavascriptProtocol(JavascriptProtocol + x) == RemoveJavascriptProtocol(x)
  {
    var s := JavascriptProtocol + x;
    assert s[..|JavascriptProtocol|] == JavascriptProtocol;
    assert ToLower(JavascriptProtocol) == JavascriptProtocol;
    assert s[|JavascriptProtocol|..] == x;
  }

  /** `s` does not start with the protocol when its character `i` is not the
      protocol's character `i` (letters compared ignoring case). */
  lemma NotProtocolAt(s: string, i: nat)
    requires i < 11 && i < |s|
    requires LowerChar(s[i]) != JavascriptProtocol[i]
    ensures !(|s| >= |JavascriptProtocol| && ToLower(s[..|JavascriptProtocol|]) == JavascriptProtocol)
  {
    if |s| >= |JavascriptProtocol| {
      assert ToLower(s[..|JavascriptProtocol|])[i] == LowerChar(s[i]);
    }
  }

  // ---------------------------------------------------------------------------
  // escapeHtml

  /** The entity `escapeHtml` writes for each of `& < > " '`. */
  function EscapeChar(c: char): string {
    if c == '&' then "&amp;"
    else if c == '<' then "&lt;"
    else if c == '>' then "&gt;"
    else if c == '"' then "&quot;"
    else if c == '\'' then "&#039;"
    else [c]
  }

  predicate IsHtmlSpecial(c: char) {
    c == '&' || c == '<' || c == '>' || c == '"' || c == '\''
  }

  /** `escapeHtml`: no markup character survives; other text is copied. */
  function EscapeHtml(s: string): (r: string)
    ensures forall c :: c in r ==> c != '<' && c != '>' && c != '"' && c != '\''
    ensures (forall c :: c in s ==> !IsHtmlSpecial(c)) ==> r == s
    ensures |r| >= |s|
  {
    if s == [] then []
    else
      var e, rest := EscapeChar(s[0]), EscapeHtml(s[1..]);
      assert forall c :: c in e ==> c != '<' && c != '>' && c != '"' && c != '\'';
      assert (forall c :: c in s ==> !IsHtmlSpecial(c)) ==> e == [s[0]] && rest == s[1..] by {
        if forall c :: c in s ==> !IsHtmlSpecial(c) {
          assert s[0] in s;
          assert forall c :: c in s[1..] ==> c in s;
        }
      }
      e + rest
  }

  /** Decodes the five entities `escapeHtml` writes, leaving anything else. */
  function UnescapeHtml(s: string): string
    decreases |s|
  {
    if s == [] then []
    else if StartsWith(s, "&amp;") then "&" + UnescapeHtml(s[5..])
    else if StartsWith(s, "&lt;") then "<" + UnescapeHtml(s[4..])
    else if StartsWith(s, "&gt;") then ">" + UnescapeHtml(s[4..])
    else if StartsWith(s, "&quot;") then "\"" + UnescapeHtml(s[6..])
    else if StartsWith(s, "&#039;") then "'" + UnescapeHtml(s[6..])
    else [s[0]] + UnescapeHtml(s[1..])
  }

  lemma UnescapeAfterEntity(c: char, rest: string)
    ensures UnescapeHtml(EscapeChar(c) + rest) == [c] + UnescapeHtml(rest)
  {
    var e := EscapeChar(c);
    var s := e + rest;
    assert s[..|e|] == e;
    assert s[|e|..] == rest;
    if c == '&' {
      assert StartsWith(s, "&amp;");
    } else if c == '<' {
      NotStartsWithAt(s, "&amp;", 1);
      assert StartsWith(s, "&lt;");
    } else if c == '>' {
      NotStartsWithAt(s, "&amp;", 1);
      NotStartsWithAt(s, "&lt;", 1);
      assert StartsWith(s, "&gt;");
    } else if c == '"' {
      NotStartsWithAt(s, "&amp;", 1);
      NotStartsWithAt(s, "&lt;", 1);
      NotStartsWithAt(s, "&gt;", 1);
      assert StartsWith(s, "&quot;");
    } else if c == '\'' {
      NotStartsWithAt(s, "&amp;", 1);
      NotStartsWithAt(s, "&lt;", 1);
      NotStartsWithAt(s, "&gt;", 1);
      NotStartsWithAt(s, "&quot;", 1);
      assert StartsWith(s, "&#039;");
    } else {
      NotStartsWithAt(s, "&amp;", 0);
      NotStartsWithAt(s, "&lt;", 0);
      NotStartsWithAt(s, "&gt;", 0);
      NotStartsWithAt(s, "&quot;", 0);
      NotStartsWithAt(s, "&#039;", 0);
    }
  }

  /** Escaping loses nothing: decoding the five entities gives the text back. */
  lemma {:induction false} EscapeHtmlRoundTrip(s: string)
    ensures UnescapeHtml(EscapeHtml(s)) == s
  {
    if s != [] {
      UnescapeAfterEntity(s[0], EscapeHtml(s[1..]));
      EscapeHtmlRoundTrip(s[1..]);
      assert s == [s[0]] + s[1..];
    }
  }

  // ---------------------------------------------------------------------------
  // escapeSqlIdentifier

  /** `escapeSqlIdentifier`: `replace(/[^a-zA-Z0-9_]/g, "")`, the word
      characters of the input, every one of them, in order. */
  function EscapeSqlIdentifier(s: string): (r: string)
    ensures forall c :: c in r ==> IsWordChar(c)
    ensures forall c :: IsWordChar(c) ==> multiset(r)[c] == multiset(s)[c]
    ensures |r| <= |s|
  {
    if s == [] then []
    else
      assert s == [s[0]] + s[1..];
      (if IsWordChar(s[0]) then [s[0]] else []) + EscapeSqlIdentifier(s[1..])
  }

  lemma {:induction false} EscapeSqlIdentifierIsSubsequence(s: string)
    ensures IsSubsequence(EscapeSqlIdentifier(s), s)
  {
    if s != [] {
      EscapeSqlIdentifierIsSubsequence(s[1..]);
      var rest := EscapeSqlIdentifier(s[1..]);
      if IsWordChar(s[0]) {
        assert EscapeSqlIdentifier(s) == [s[0]] + rest;
        assert ([s[0]] + rest)[1..] == rest;
      } else {
        assert EscapeSqlIdentifier(s) == rest;
        SubsequenceOfTail(rest, s);
      }
    }
  }

  /** An identifier that is already clean is kept as is, so escaping twice is escaping once. */
  lemma {:induction false} EscapeSqlIdentifierIdempotent(s: string)
    ensures EscapeSqlIdentifier(EscapeSqlIdentifier(s)) == EscapeSqlIdentifier(s)
  {
    var r := EscapeSqlIdentifier(s);
    CleanIdentifierUnchanged(r);
  }

  lemma {:induction false} CleanIdentifierUnchanged(s: string)
    requires forall c :: c in s ==> IsWordChar(c)
    ensures EscapeSqlIdentifier(s) == s
  {
    if s != [] {
      assert s[0] in s;
      CleanIdentifierUnchanged(s[1..]);
      assert s == [s[0]] + s[1..];
    }
  }

  // ---------------------------------------------------------------------------
  // sanitizeObject and validateAndSanitizeInput

  /** A parsed JSON value; an object keeps its entries in `Object.entries` order. */
  datatype Json =
    | JNull
    | JBool(b: bool)
    | JNum(n: int)
    | JStr(s: string)
    | JArr(items: seq<Json>)
    | JObj(entries: seq<(string, Json)>)

  /** Array items: strings are sanitized, everything else is kept as is. */
  function SanitizeItem(v: Json): Json {
    if v.JStr? then JStr(SanitizeText(v.s)) else v
  }

  /** The value `sanitizeObject` assigns for an entry. */
  function SanitizeValue(v: Json): Json
    decreases v, 2
  {
    match v
    case JStr(s) => JStr(SanitizeText(s))
    case JArr(items) => JArr(seq(|items|, i requires 0 <= i < |items| => SanitizeItem(items[i])))
    case JObj(entries) => JObj(SanitizeEntries(entries))
    case _ => v
  }

  /** The assignments `sanitized[key] = ...` of the loop, in order. */
  function Assignments(entries: seq<(string, Json)>): (r: seq<(string, Json)>)
    ensures |r| == |entries|
    ensures forall i :: 0 <= i < |entries| ==> r[i] == (entries[i].0, SanitizeValue(entries[i].1))
    decreases JObj(entries), 0
  {
    seq(|entries|, i requires 0 <= i < |entries| =>
      assert entries[i] in entries;
      (entries[i].0, SanitizeValue(entries[i].1)))
  }

  /** The key whose assignment goes to the `__proto__` setter every object
      inherits, instead of creating an own property. */
  const ProtoKey: string := "__proto__"

  /** The own properties the assignments `mapped` leave, in order. */
  function OwnEntries(mapped: seq<(string, Json)>): (r: seq<(string, Json)>)
    ensures forall p :: p in r <==> p in mapped && p.0 != ProtoKey
    ensures (forall i :: 0 <= i < |mapped| ==> mapped[i].0 != ProtoKey) ==> r == mapped
  {
    if mapped == [] then []
    else
      assert forall p :: p in mapped <==> p == mapped[0] || p in mapped[1..];
      (if mapped[0].0 == ProtoKey then [] else [mapped[0]]) + OwnEntries(mapped[1..])
  }

  /** The own entries are the assignments to other keys than `__proto__`, by position. */
  lemma OwnEntriesIndexed(mapped: seq<(string, Json)>)
    ensures forall p :: p in OwnEntries(mapped) ==> p.0 != ProtoKey && exists i :: 0 <= i < |mapped| && p == mapped[i]
    ensures forall i :: 0 <= i < |mapped| && mapped[i].0 != ProtoKey ==> mapped[i] in OwnEntries(mapped)
  {
    forall p | p in OwnEntries(mapped) ensures p.0 != ProtoKey && exists i :: 0 <= i < |mapped| && p == mapped[i] {
      assert p in mapped;
    }
    forall i | 0 <= i < |mapped| && mapped[i].0 != ProtoKey ensures mapped[i] in OwnEntries(mapped) {
      assert mapped[i] in mapped;
    }
  }

  lemma {:induction false} OwnEntriesSnoc(mapped: seq<(string, Json)>, p: (string, Json))
    ensures OwnEntries(mapped + [p]) == OwnEntries(mapped) + (if p.0 == ProtoKey then [] else [p])
  {
    if mapped == [] {
      assert [p][1..] == [];
    } else {
      assert (mapped + [p])[1..] == mapped[1..] + [p];
      OwnEntriesSnoc(mapped[1..], p);
    }
  }

  /** The own entries of `sanitizeObject(obj)`: every key but `__proto__`, in
      the same order, each with its sanitized value. */
  function SanitizeEntries(entries: seq<(string, Json)>): (r: seq<(string, Json)>)
    ensures forall p :: p in r ==>
              p.0 != ProtoKey && exists i :: 0 <= i < |entries| && p == (entries[i].0, SanitizeValue(entries[i].1))
    ensures forall i :: 0 <= i < |entries| && entries[i].0 != ProtoKey ==>
              (entries[i].0, SanitizeValue(entries[i].1)) in r
    ensures (forall i :: 0 <= i < |entries| ==> entries[i].0 != ProtoKey) ==>
              |r| == |entries| && forall i :: 0 <= i < |r| ==> r[i] == (entries[i].0, SanitizeValue(entries[i].1))
    decreases JObj(entries), 1
  {
    var mapped := Assignments(entries);
    OwnEntriesIndexed(mapped);
    OwnEntries(mapped)
  }

  /** The prototype the assignments `mapped` leave: the last `__proto__`
      assignment of an object, an array or null sets it; other values are
      ignored by the setter. `None` keeps `Object.prototype`; `Some(JNull)` is
      a null prototype. */
  function ProtoOf(mapped: seq<(string, Json)>): Option<Json> {
    if mapped == [] then None
    else
      var p := mapped[|mapped| - 1];
      if p.0 == ProtoKey && (p.1.JObj? || p.1.JArr? || p.1.JNull?) then Some(p.1)
      else ProtoOf(mapped[..|mapped| - 1])
  }

  /** No string `sanitizeObject` reaches holds an angle bracket: the string
      values, the string items of arrays, and the same inside nested objects. */
  ghost predicate ReachedClean(v: Json)
    decreases v
  {
    match v
    case JStr(s) => '<' !in s && '>' !in s
    case JArr(items) => forall k :: 0 <= k < |items| && items[k].JStr? ==> '<' !in items[k].s && '>' !in items[k].s
    case JObj(entries) => forall p :: p in entries ==> ReachedClean(p.1)
    case _ => true
  }

  /** After sanitizing, no reached string holds an angle bracket. */
  lemma {:induction false} SanitizedIsClean(v: Json)
    ensures ReachedClean(SanitizeValue(v))
    decreases v
  {
    match v
    case JObj(entries) =>
      forall p | p in SanitizeValue(v).entries ensures ReachedClean(p.1) {
        var i :| 0 <= i < |entries| && p == (entries[i].0, SanitizeValue(entries[i].1));
        assert entries[i] in entries;
        SanitizedIsClean(entries[i].1);
      }
    case JArr(items) =>
      var w := SanitizeValue(v);
      assert forall k :: 0 <= k < |items| ==> w.items[k] == SanitizeItem(items[k]);
    case _ =>
  }

  /** An object inside an array is kept as it is: its strings are not sanitized. */
  lemma ObjectInsideArrayIsKept()
    ensures var v := JArr([JObj([("bio", JStr("<b>hi</b>"))])]);
            SanitizeValue(v) == v && !ReachedClean(JObj([("bio", JStr("<b>hi</b>"))]))
  {
    var o := JObj([("bio", JStr("<b>hi</b>"))]);
    assert ("bio", JStr("<b>hi</b>")) in o.entries;
    assert '<' in "<b>hi</b>";
    assert SanitizeItem(o) == o;
  }

  /** A `__proto__` key leaves no own property; an object under it becomes
      the result's prototype. */
  lemma ProtoKeyBecomesPrototype(inner: seq<(string, Json)>)
    ensures var entries := [(ProtoKey, JObj(inner))];
            SanitizeEntries(entries) == [] && ProtoOf(Assignments(entries)) == Some(JObj(SanitizeEntries(inner)))
  {
    var entries := [(ProtoKey, JObj(inner))];
    assert Assignments(entries)[0] == (ProtoKey, JObj(SanitizeEntries(inner)));
    assert Assignments(entries)[..0] == [];
  }

  /** One more assignment of the loop: an own property, or the prototype. */
  lemma AssignmentStep(mapped: seq<(string, Json)>, i: int)
    requires 0 <= i < |mapped|
    ensures var done, p := mapped[..i], mapped[i];
      && OwnEntries(mapped[..i + 1]) == OwnEntries(done) + (if p.0 == ProtoKey then [] else [p])
      && ProtoOf(mapped[..i + 1])
         == if p.0 == ProtoKey && (p.1.JObj? || p.1.JArr? || p.1.JNull?) then Some(p.1) else ProtoOf(done)
  {
    var done, p := mapped[..i], mapped[i];
    assert mapped[..i + 1] == done + [p];
    OwnEntriesSnoc(done, p);
  }

  /** `sanitizeObject`: fills a fresh object entry by entry, recursing into
      nested objects; returns its own entries and its prototype. */
  method SanitizeObject(entries: seq<(string, Json)>) returns (out: seq<(string, Json)>, proto: Option<Json>)
    ensures out == SanitizeEntries(entries)
    ensures proto == ProtoOf(Assignments(entries))
    decreases JObj(entries), 0
  {
    out := [];
    proto := None;
    var i := 0;
    while i < |entries|
      invariant 0 <= i <= |entries|
      invariant out == OwnEntries(Assignments(entries)[..i])
      invariant proto == ProtoOf(Assignments(entries)[..i])
    {
      var (key, value) := entries[i];
      assert entries[i] in entries;
      var v := SanitizeField(value);
      AssignmentStep(Assignments(entries), i);
      if key == ProtoKey {
        if v.JObj? || v.JArr? || v.JNull? {
          proto := Some(v);
        }
      } else {
        out := out + [(key, v)];
      }
      i := i + 1;
    }
    assert Assignments(entries)[..i] == Assignments(entries);
  }

  /** The value one key of `sanitizeObject` receives: strings sanitized,
      array items sanitized, objects recursed into, the rest as they are. */
  method SanitizeField(value: Json) returns (v: Json)
    ensures v == SanitizeValue(value)
    decreases value, 1
  {
    match value {
      case JStr(s) =>
        v := JStr(SanitizeText(s));
      case JArr(items) =>
        v := JArr(seq(|items|, k requires 0 <= k < |items| => SanitizeItem(items[k])));
      case JObj(inner) =>
        var sanitized, _ := SanitizeObject(inner);
        v := JObj(sanitized);
      case _ =>
        v := value;
    }
  }

  /** The entries `Object.entries` gives for an array: index strings to items. */
  function ArrayEntries(items: seq<Json>): (r: seq<(string, Json)>)
    ensures |r| == |items|
    ensures forall i :: 0 <= i < |items| ==> r[i] == (NatToString(i), items[i])
  {
    seq(|items|, i requires 0 <= i < |items| => (NatToString(i), items[i]))
  }

  /** An index key is never `__proto__`. */
  lemma IndexKeysAreOwn(items: seq<Json>)
    ensures forall i :: 0 <= i < |items| ==> ArrayEntries(items)[i].0 != ProtoKey
  {
    forall i | 0 <= i < |items| ensures ArrayEntries(items)[i].0 != ProtoKey {
      assert ProtoKey[0] == '_' && '_' !in NatToString(i);
    }
  }

  /** The sanitising part of `validateAndSanitizeInput`: a string is
      sanitized, any object (an array included, which comes back as an object
      keyed by index) goes through `sanitizeObject`, and nothing happens when
      `sanitize` is false. */
  function Preprocess(input: Json, sanitize: bool): (r: Json)
    ensures !sanitize ==> r == input
    ensures input.JNull? || input.JBool? || input.JNum? ==> r == input
    ensures sanitize && input.JStr? ==> r == JStr(SanitizeText(input.s))
    ensures sanitize && input.JObj? ==> r == JObj(SanitizeEntries(input.entries))
    ensures sanitize && input.JArr? ==> r == JObj(SanitizeEntries(ArrayEntries(input.items)))
    ensures sanitize && input.JArr? ==>
              && |r.entries| == |input.items|
              && forall i :: 0 <= i < |input.items| ==> r.entries[i] == (NatToString(i), SanitizeValue(input.items[i]))
  {
    if !sanitize then input
    else match input
      case JStr(s) => JStr(SanitizeText(s))
      case JObj(entries) => JObj(SanitizeEntries(entries))
      case JArr(items) =>
        IndexKeysAreOwn(items);
        JObj(SanitizeEntries(ArrayEntries(items)))
      case _ => input
  }

  /** Whatever the input, no string the sanitising step reaches keeps an
      angle bracket: the top-level string, the values of an object and the
      items of an array, and the same inside the objects among them. */
  lemma PreprocessedIsClean(input: Json)
    ensures ReachedClean(Preprocess(input, true))
  {
    match input
    case JObj(entries) =>
      SanitizedIsClean(input);
    case JArr(items) =>
      var r := Preprocess(input, true);
      forall p | p in r.entries ensures ReachedClean(p.1) {
        var i :| 0 <= i < |r.entries| && r.entries[i] == p;
        SanitizedIsClean(items[i]);
      }
    case _ =>
  }

  // ---------------------------------------------------------------------------
  // createRateLimiter

  /** The closure `createRateLimiter(maxRequests, windowMs)` returns, with its own map. */
  class RateLimiter {
    const maxRequests: int
    const windowMs: int
    var requests: map<string, RateRecord>

    constructor (maxRequests: int, windowMs: int)
      ensures this.maxRequests == maxRequests && this.windowMs == windowMs
      ensures requests == map[]
    {
      this.maxRequests := maxRequests;
      this.windowMs := windowMs;
      requests := map[];
    }

    /** `checkLimit(identifier)` at time `now`; only this limiter's map changes. */
    method CheckLimit(identifier: string, now: int) returns (allowed: bool)
      modifies this
      ensures var v := Step(old(requests), identifier, now, Limit(maxRequests, windowMs));
              allowed == v.allowed && requests == v.store
    {
      if identifier !in requests || now > requests[identifier].resetTime {
        requests := requests[identifier := RateRecord(1, now + windowMs)];
        return true;
      }
      if requests[identifier].count >= maxRequests {
        return false;
      }
      requests := requests[identifier := requests[identifier].(count := requests[identifier].count + 1)];
      return true;
    }
  }
}
