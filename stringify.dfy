/**
 * The two text renderers of `src/stringify.ts`.
 *
 * `Canonical` is the fingerprint input: a JSON-like rendering whose object keys are
 * sorted, so that the same members in a different insertion order render alike.
 * `Lua` renders the same values as a Lua table constructor (section 2.5.7 of the
 * Lua 5.1 Reference Manual): `nil` for null, `{...}` for arrays and objects,
 * `["key"] = value` for members, in the object's own order.
 *
 * Both escape string contents with `EscapeString`; `Unescape` reads an escaped
 * string back and is the partner of `EscapeString`.
 */
module Stringify {
  import opened Wrappers
  import opened Json
  import opened SeqFacts

  // ---------------------------------------------------------------- escaping

  predicate IsLineBreak(c: char) {
    c == '\n' || c == '\r' || c == '\U{2028}' || c == '\U{2029}'
  }

  /** The string has no raw line terminator (LF, CR, U+2028, U+2029). */
  predicate SingleLine(s: string) {
    forall c :: c in s ==> !IsLineBreak(c)
  }

  /** The `replacement` callback, applied to every character (the identity when the regex does not match). */
  function EscapeChar(c: char): string {
    if c == '"' || c == '\'' || c == '\\' then ['\\', c]
    else if c == '\n' then "\\n"
    else if c == '\r' then "\\r"
    else if c == '\U{2028}' then "\\u2028"
    else if c == '\U{2029}' then "\\u2029"
    else [c]
  }

  /** `escapeString`: escapes quotes, backslash and the four line terminators. */
  function EscapeString(s: string): (r: string)
    ensures SingleLine(r)
    ensures |r| >= |s|
  {
    if s == [] then [] else EscapeChar(s[0]) + EscapeString(s[1..])
  }

  function Prepend(c: char, r: Option<string>): Option<string> {
    if r.Some? then Some([c] + r.value) else None
  }

  /** Reads the escape sequences `EscapeString` writes; `None` on a dangling or unknown escape. */
  function Unescape(s: string): Option<string>
    decreases |s|
  {
    if s == [] then Some([])
    else if s[0] != '\\' then Prepend(s[0], Unescape(s[1..]))
    else if |s| < 2 then None
    else if s[1] == '"' || s[1] == '\'' || s[1] == '\\' then Prepend(s[1], Unescape(s[2..]))
    else if s[1] == 'n' then Prepend('\n', Unescape(s[2..]))
    else if s[1] == 'r' then Prepend('\r', Unescape(s[2..]))
    else if |s| >= 6 && s[1..6] == "u2028" then Prepend('\U{2028}', Unescape(s[6..]))
    else if |s| >= 6 && s[1..6] == "u2029" then Prepend('\U{2029}', Unescape(s[6..]))
    else None
  }

  lemma UnescapeChar(c: char, rest: string)
    ensures Unescape(EscapeChar(c) + rest) == Prepend(c, Unescape(rest))
  {
    var e := EscapeChar(c) + rest;
    if c == '"' || c == '\'' || c == '\\' || c == '\n' || c == '\r' {
      assert e[2..] == rest;
    } else if c == '\U{2028}' || c == '\U{2029}' {
      assert e[1..6] == EscapeChar(c)[1..6];
      assert e[6..] == rest;
    } else {
      assert e[1..] == rest;
    }
  }

  /** Escaping loses nothing: the escaped text reads back as the original string. */
  lemma {:induction false} EscapeRoundTrip(s: string)
    ensures Unescape(EscapeString(s)) == Some(s)
  {
    if s != [] {
      EscapeRoundTrip(s[1..]);
      UnescapeChar(s[0], EscapeString(s[1..]));
      assert [s[0]] + s[1..] == s;
    }
  }

  /** Hence distinct strings never escape to the same text. */
  lemma EscapeInjective(s: string, t: string)
    requires EscapeString(s) == EscapeString(t)
    ensures s == t
  {
    EscapeRoundTrip(s);
    EscapeRoundTrip(t);
  }

  // ---------------------------------------------------------------- scalars

  function Digit(d: nat): char
    requires d < 10
  {
    "0123456789"[d]
  }

  function NatToString(n: nat): (r: string)
    ensures |r| > 0 && forall i :: 0 <= i < |r| ==> '0' <= r[i] <= '9'
  {
    if n < 10 then [Digit(n)] else NatToString(n / 10) + [Digit(n % 10)]
  }

  /** `${n}` for an integral number. */
  function IntToString(n: int): (r: string)
    ensures SingleLine(r)
  {
    if n < 0 then "-" + NatToString(-n) else NatToString(n)
  }

  /** The number a string of decimal digits denotes, most significant first. */
  function DigitsValue(s: string): nat
    requires forall i :: 0 <= i < |s| ==> '0' <= s[i] <= '9'
    decreases |s|
  {
    if s == [] then 0
    else
      DigitsValue(s[..|s| - 1]) * 10 + (s[|s| - 1] as int - '0' as int)
  }

  lemma DigitValue(d: nat)
    requires d < 10
    ensures Digit(d) as int - '0' as int == d
  {
    assert "0123456789"[d] as int == '0' as int + d by {
      assert "0123456789" == ['0', '1', '2', '3', '4', '5', '6', '7', '8', '9'];
    }
  }

  /** The digits of `n` read back as `n`, with no leading zero. */
  lemma {:induction false} NatToStringValue(n: nat)
    ensures DigitsValue(NatToString(n)) == n
    ensures NatToString(n)[0] == '0' ==> n == 0
    decreases n
  {
    if n < 10 {
      DigitValue(n);
    } else {
      NatToStringValue(n / 10);
      DigitValue(n % 10);
      var r := NatToString(n);
      assert r[..|r| - 1] == NatToString(n / 10);
    }
  }

  /** A negative number is written with a `-` in front of the digits of its magnitude; a non-negative one as its digits alone. */
  lemma IntToStringValue(n: int)
    ensures var r := IntToString(n);
      && (n < 0 <==> r[0] == '-')
      && (n < 0 ==> DigitsValue(r[1..]) == -n)
      && (n >= 0 ==> DigitsValue(r) == n)
  {
    var m: nat := if n < 0 then -n else n;
    NatToStringValue(m);
    assert NatToString(m)[0] in NatToString(m);
    if n < 0 {
      assert IntToString(n)[1..] == NatToString(-n);
    }
  }

  /** Hence different numbers are written differently. */
  lemma IntToStringInjective(m: int, n: int)
    requires IntToString(m) == IntToString(n)
    ensures m == n
  {
    IntToStringValue(m);
    IntToStringValue(n);
  }

  // ---------------------------------------------------------------- layout

  /** `" ".repeat(n)`. */
  function Spaces(n: nat): (r: string)
    ensures |r| == n
  {
    if n == 0 then "" else " " + Spaces(n - 1)
  }

  lemma {:induction false} SpacesBlank(n: nat)
    ensures forall i :: 0 <= i < n ==> Spaces(n)[i] == ' '
  {
    if n > 0 {
      SpacesBlank(n - 1);
      assert Spaces(n) == " " + Spaces(n - 1);
    }
  }

  lemma SpacesAdd(m: nat, n: nat)
    ensures Spaces(m) + Spaces(n) == Spaces(m + n)
  {
    SpacesBlank(m);
    SpacesBlank(n);
    SpacesBlank(m + n);
    var a, b := Spaces(m) + Spaces(n), Spaces(m + n);
    assert |a| == |b|;
    forall i | 0 <= i < |a| ensures a[i] == b[i] {
      if i >= m {
        assert a[i] == Spaces(n)[i - m];
      }
    }
  }

  /** `Array.prototype.join(sep)`. */
  function Join(parts: seq<string>, sep: string): string {
    if |parts| == 0 then ""
    else if |parts| == 1 then parts[0]
    else parts[0] + sep + Join(parts[1..], sep)
  }

  lemma JoinTwo(a: string, b: string, sep: string)
    ensures Join([a, b], sep) == a + sep + b
  {
    assert [a, b][1..] == [b];
  }

  /** Single-line parts joined by a single-line separator make one line. */
  lemma {:induction false} JoinSingleLine(parts: seq<string>, sep: string)
    requires SingleLine(sep) && forall i :: 0 <= i < |parts| ==> SingleLine(parts[i])
    ensures SingleLine(Join(parts, sep))
    decreases |parts|
  {
    if |parts| > 1 {
      JoinSingleLine(parts[1..], sep);
    }
  }

  /** A join begins with its first part; what follows is `sep` before each later part. */
  lemma JoinStart(parts: seq<string>, sep: string)
    requires |parts| > 0
    ensures Join(parts, sep) == parts[0] + (if |parts| == 1 then "" else sep + Join(parts[1..], sep))
  {
    if |parts| == 1 {
      assert parts[0] + "" == parts[0];
    }
  }

  // ---------------------------------------------------------------- key order

  /**
   * The order `Array.prototype.sort()` puts the keys in: lexicographic, character by
   * character. A `char` here is a Unicode scalar value; the order agrees with the JavaScript
   * one, which compares UTF-16 code units, on keys below U+D800, such as the ASCII keys used.
   */
  predicate Less(a: string, b: string) {
    |b| > 0 && (|a| == 0 || a[0] < b[0] || (a[0] == b[0] && Less(a[1..], b[1..])))
  }

  lemma {:induction false} LessIrreflexive(a: string)
    ensures !Less(a, a)
  {
    if |a| > 0 { LessIrreflexive(a[1..]); }
  }

  lemma {:induction false} LessTransitive(a: string, b: string, c: string)
    requires Less(a, b) && Less(b, c)
    ensures Less(a, c)
  {
    if |a| > 0 && a[0] == b[0] && b[0] == c[0] {
      LessTransitive(a[1..], b[1..], c[1..]);
    }
  }

  lemma {:induction false} LessTotal(a: string, b: string)
    requires a != b
    ensures Less(a, b) || Less(b, a)
  {
    if |a| > 0 && |b| > 0 && a[0] == b[0] {
      assert a == [a[0]] + a[1..] && b == [b[0]] + b[1..];
      LessTotal(a[1..], b[1..]);
    }
  }

  lemma LessAsymmetric(a: string, b: string)
    requires Less(a, b)
    ensures !Less(b, a)
  {
    if Less(b, a) {
      LessTransitive(a, b, a);
      LessIrreflexive(a);
    }
  }

  /** "Not less" is transitive: a <= b <= c gives a <= c. */
  lemma AtMostTransitive(a: string, b: string, c: string)
    requires !Less(b, a) && !Less(c, b)
    ensures !Less(c, a)
  {
    if Less(c, a) && c != b {
      LessTotal(b, c);
      LessTransitive(b, c, a);
    }
  }

  /** Members in ascending key order (no key after a smaller one). */
  predicate SortedByKey(ms: Members) {
    forall i, j :: 0 <= i < j < |ms| ==> !Less(ms[j].0, ms[i].0)
  }

  /** One step of the sort: `m` goes before the first member whose key is not smaller. */
  function InsertByKey(m: (string, Json), ms: Members): Members {
    if ms == [] then [m]
    else if Less(ms[0].0, m.0) then [ms[0]] + InsertByKey(m, ms[1..])
    else [m] + ms
  }

  lemma {:induction false} InsertByKeyMultiset(m: (string, Json), ms: Members)
    ensures multiset(InsertByKey(m, ms)) == multiset(ms) + multiset{m}
  {
    if ms != [] {
      assert ms == [ms[0]] + ms[1..];
      if Less(ms[0].0, m.0) {
        InsertByKeyMultiset(m, ms[1..]);
      }
    }
  }

  lemma {:induction false} InsertByKeySorted(m: (string, Json), ms: Members)
    requires SortedByKey(ms)
    ensures SortedByKey(InsertByKey(m, ms))
  {
    if ms == [] {
    } else if Less(ms[0].0, m.0) {
      var t := InsertByKey(m, ms[1..]);
      assert SortedByKey(ms[1..]) by {
        forall i, j | 0 <= i < j < |ms| - 1 ensures !Less(ms[1..][j].0, ms[1..][i].0) {
          assert ms[1..][j] == ms[j + 1] && ms[1..][i] == ms[i + 1];
        }
      }
      InsertByKeySorted(m, ms[1..]);
      InsertBehindHead(m, ms);
      ConsSorted(ms[0], t);
    } else {
      forall k | 0 <= k < |ms| ensures !Less(ms[k].0, m.0) {
        if k > 0 {
          AtMostTransitive(m.0, ms[0].0, ms[k].0);
        }
      }
      ConsSorted(m, ms);
    }
  }

  /** Inserting behind the head keeps every member at or above the head's key. */
  lemma InsertBehindHead(m: (string, Json), ms: Members)
    requires SortedByKey(ms) && ms != [] && Less(ms[0].0, m.0)
    ensures forall k :: 0 <= k < |InsertByKey(m, ms[1..])| ==> !Less(InsertByKey(m, ms[1..])[k].0, ms[0].0)
  {
    var t := InsertByKey(m, ms[1..]);
    InsertByKeyMultiset(m, ms[1..]);
    forall k | 0 <= k < |t| ensures !Less(t[k].0, ms[0].0) {
      assert t[k] in multiset(t);
      if t[k] == m {
        LessAsymmetric(ms[0].0, m.0);
      } else {
        assert t[k] in ms[1..];
      }
    }
  }

  /** A head at or below every key of a sorted tail gives a sorted list. */
  lemma ConsSorted(h: (string, Json), t: Members)
    requires SortedByKey(t) && forall k :: 0 <= k < |t| ==> !Less(t[k].0, h.0)
    ensures SortedByKey([h] + t)
  {
    var r := [h] + t;
    forall i, j | 0 <= i < j < |r| ensures !Less(r[j].0, r[i].0) {
      assert r[j] == t[j - 1];
      if i > 0 {
        assert r[i] == t[i - 1];
      }
    }
  }

  /** Inserting adds exactly the member's key to the key set. */
  lemma {:induction false} InsertByKeyKeys(m: (string, Json), ms: Members, k: string)
    ensures k in Keys(InsertByKey(m, ms)) <==> k == m.0 || k in Keys(ms)
  {
    if ms != [] {
      KeysCons(ms);
      if Less(ms[0].0, m.0) {
        InsertByKeyKeys(m, ms[1..], k);
        KeysCons(InsertByKey(m, ms));
        assert InsertByKey(m, ms)[1..] == InsertByKey(m, ms[1..]);
      } else {
        KeysCons([m] + ms);
        assert ([m] + ms)[1..] == ms;
      }
    } else {
      assert Keys(InsertByKey(m, ms)) == [m.0];
    }
  }

  lemma {:induction false} InsertByKeyUnique(m: (string, Json), ms: Members)
    requires UniqueKeys(ms) && m.0 !in Keys(ms)
    ensures UniqueKeys(InsertByKey(m, ms))
  {
    var r := InsertByKey(m, ms);
    if ms == [] {
    } else if Less(ms[0].0, m.0) {
      UniqueKeysCons(ms);
      KeysCons(ms);
      InsertByKeyUnique(m, ms[1..]);
      InsertByKeyKeys(m, ms[1..], ms[0].0);
      assert r[1..] == InsertByKey(m, ms[1..]);
      UniqueKeysCons(r);
    } else {
      assert r[1..] == ms;
      UniqueKeysCons(r);
    }
  }

  /** `Object.keys(o).sort()` followed by `o[key]`, as a sort of the members by key. */
  function SortByKey(ms: Members): Members {
    if ms == [] then [] else InsertByKey(ms[0], SortByKey(ms[1..]))
  }

  /** The sort orders the members by key ... */
  lemma {:induction false} SortByKeySorted(ms: Members)
    ensures SortedByKey(SortByKey(ms))
  {
    if ms != [] {
      SortByKeySorted(ms[1..]);
      InsertByKeySorted(ms[0], SortByKey(ms[1..]));
    }
  }

  /** ... and is a permutation of them. */
  lemma {:induction false} SortByKeyMultiset(ms: Members)
    ensures multiset(SortByKey(ms)) == multiset(ms)
  {
    if ms != [] {
      SortByKeyMultiset(ms[1..]);
      InsertByKeyMultiset(ms[0], SortByKey(ms[1..]));
      assert ms == [ms[0]] + ms[1..];
    }
  }

  lemma {:induction false} SortByKeyKeys(ms: Members, k: string)
    ensures k in Keys(SortByKey(ms)) <==> k in Keys(ms)
  {
    if ms != [] {
      KeysCons(ms);
      SortByKeyKeys(ms[1..], k);
      InsertByKeyKeys(ms[0], SortByKey(ms[1..]), k);
    }
  }

  /** Sorting an object's members keeps its keys unique. */
  lemma {:induction false} SortByKeyUnique(ms: Members)
    requires UniqueKeys(ms)
    ensures UniqueKeys(SortByKey(ms))
  {
    if ms != [] {
      UniqueKeysCons(ms);
      SortByKeyUnique(ms[1..]);
      SortByKeyKeys(ms[1..], ms[0].0);
      InsertByKeyUnique(ms[0], SortByKey(ms[1..]));
    }
  }

  /** Two key-sorted member lists with the same members and unique keys start alike. */
  lemma SortedHeads(s: Members, t: Members)
    requires SortedByKey(s) && SortedByKey(t) && UniqueKeys(s)
    requires multiset(s) == multiset(t) && s != []
    ensures t != [] && s[0] == t[0]
  {
    assert |s| == |multiset(s)| == |t|;
    assert t[0] in multiset(s) && s[0] in multiset(t);
    var j :| 0 <= j < |s| && s[j] == t[0];
    var i :| 0 <= i < |t| && t[i] == s[0];
    if j != 0 {
      assert Keys(s)[0] != Keys(s)[j];
      assert !Less(s[j].0, s[0].0);
      assert i != 0;
      assert !Less(t[i].0, t[0].0);
      LessTotal(s[0].0, s[j].0);
      assert false;
    }
  }

  /** Two key-sorted member lists with the same members and unique keys are the same list. */
  lemma {:induction false} SortedUnique(s: Members, t: Members)
    requires SortedByKey(s) && SortedByKey(t) && UniqueKeys(s)
    requires multiset(s) == multiset(t)
    ensures s == t
    decreases |s|
  {
    if s == [] {
      assert |t| == |multiset(t)| == 0;
    } else {
      SortedHeads(s, t);
      MultisetTails(s, t);
      UniqueKeysCons(s);
      SortedTail(s);
      SortedTail(t);
      SortedUnique(s[1..], t[1..]);
      assert s == [s[0]] + s[1..] && t == [t[0]] + t[1..];
    }
  }

  lemma MultisetTails<T>(s: seq<T>, t: seq<T>)
    requires s != [] && t != [] && s[0] == t[0] && multiset(s) == multiset(t)
    ensures multiset(s[1..]) == multiset(t[1..])
  {
    assert s == [s[0]] + s[1..] && t == [t[0]] + t[1..];
    assert multiset(s) == multiset{s[0]} + multiset(s[1..]);
    assert multiset(t) == multiset{s[0]} + multiset(t[1..]);
    forall x ensures multiset(s[1..])[x] == multiset(t[1..])[x] {
      assert multiset(s)[x] == multiset(t)[x];
    }
  }

  lemma SortedTail(s: Members)
    requires SortedByKey(s) && s != []
    ensures SortedByKey(s[1..])
  {
    forall i, j | 0 <= i < j < |s| - 1 ensures !Less(s[1..][j].0, s[1..][i].0) {
      assert s[1..][j] == s[j + 1] && s[1..][i] == s[i + 1];
    }
  }

  /** Sorting members depends only on which members there are, not on their order. */
  lemma SortByKeyPermutation(ms1: Members, ms2: Members)
    requires UniqueKeys(ms1) && multiset(ms1) == multiset(ms2)
    ensures SortByKey(ms1) == SortByKey(ms2)
  {
    SortByKeySorted(ms1);
    SortByKeySorted(ms2);
    SortByKeyMultiset(ms1);
    SortByKeyMultiset(ms2);
    SortByKeyUnique(ms1);
    SortedUnique(SortByKey(ms1), SortByKey(ms2));
  }

  // ---------------------------------------------------------------- renderers

  /** The bracketed layout both renderers share: `${open}${eol}${prefix}${parts.join(`,${eol}${prefix}`)}${eol}${padding}${close}`. */
  function Layout(open: char, parts: seq<string>, spaces: nat, depth: nat, close: char): string {
    var prefix := Spaces(spaces);
    var eol := if spaces == 0 then "" else "\n";
    [open] + eol + prefix + Join(parts, "," + eol + prefix) + eol + Spaces(spaces * depth) + [close]
  }

  /** Without indentation the layout is the parts joined by bare commas, between the brackets. */
  lemma LayoutFlat(open: char, parts: seq<string>, depth: nat, close: char)
    ensures Layout(open, parts, 0, depth, close) == [open] + Join(parts, ",") + [close]
  {
    assert Spaces(0) == "" && Spaces(0 * depth) == "";
    assert "," + "" + "" == ",";
  }

  /** Without indentation the layout adds no line break of its own. */
  lemma LayoutSingleLine(open: char, parts: seq<string>, depth: nat, close: char)
    requires !IsLineBreak(open) && !IsLineBreak(close)
    requires forall i :: 0 <= i < |parts| ==> SingleLine(parts[i])
    ensures SingleLine(Layout(open, parts, 0, depth, close))
  {
    LayoutFlat(open, parts, depth, close);
    JoinSingleLine(parts, ",");
    var j := Join(parts, ",");
    forall c | c in [open] + j + [close] ensures !IsLineBreak(c) {
      assert c == open || c in j || c == close;
    }
  }

  /** `canonical_inner(value, spaces, depth)`. */
  function CanonicalInner(v: Json, spaces: nat, depth: nat): string
    decreases v
  {
    var padding := Spaces(spaces * depth);
    match v
    case JString(s) => "\"" + EscapeString(s) + "\""
    case JNumber(n) => IntToString(n)
    case JNull => "null"
    case JBool(b) => if b then "true" else "false"
    case JArray(items) =>
      Layout('[', seq(|items|, i requires 0 <= i < |items| =>
        padding + CanonicalInner(items[i], spaces, depth + 1)), spaces, depth, ']')
    case JObject(ms) =>
      SortByKeyMultiset(ms);
      var sorted := SortByKey(ms);
      Layout('{', seq(|sorted|, i requires 0 <= i < |sorted| =>
        assert sorted[i] in multiset(ms);
        padding + "\"" + EscapeString(sorted[i].0) + "\": " + CanonicalInner(sorted[i].1, spaces, depth + 1)),
        spaces, depth, '}')
  }

  /** `canonical(value, spaces = 0)`. */
  function Canonical(v: Json, spaces: nat := 0): string {
    CanonicalInner(v, spaces, 0)
  }

  /** `lua_inner(value, spaces, depth)`. */
  function LuaInner(v: Json, spaces: nat, depth: nat): string
    decreases v
  {
    var padding := Spaces(spaces * depth);
    match v
    case JString(s) => "\"" + EscapeString(s) + "\""
    case JNumber(n) => IntToString(n)
    case JBool(b) => if b then "true" else "false"
    case JNull => "nil"
    case JArray(items) =>
      Layout('{', seq(|items|, i requires 0 <= i < |items| =>
        padding + LuaInner(items[i], spaces, depth + 1)), spaces, depth, '}')
    case JObject(ms) =>
      Layout('{', seq(|ms|, i requires 0 <= i < |ms| =>
        padding + "[\"" + EscapeString(ms[i].0) + "\"] = " + LuaInner(ms[i].1, spaces, depth + 1)),
        spaces, depth, '}')
  }

  /** `lua(value, spaces = 0)`. */
  function Lua(v: Json, spaces: nat := 0): string {
    LuaInner(v, spaces, 0)
  }

  // ---------------------------------------------------------------- properties

  /** With no indentation the canonical form is one line: no raw line terminator anywhere. */
  lemma {:induction false} CanonicalSingleLine(v: Json, depth: nat)
    ensures SingleLine(CanonicalInner(v, 0, depth))
    decreases v, 1
  {
    match v
    case JArray(items) => CanonicalArraySingleLine(items, depth);
    case JObject(ms) => CanonicalObjectSingleLine(ms, depth);
    case _ =>
  }

  lemma {:induction false} CanonicalArraySingleLine(items: seq<Json>, depth: nat)
    ensures SingleLine(CanonicalInner(JArray(items), 0, depth))
    decreases JArray(items), 0
  {
    var parts := seq(|items|, i requires 0 <= i < |items| => Spaces(0 * depth) + CanonicalInner(items[i], 0, depth + 1));
    assert Spaces(0 * depth) == "";
    forall i | 0 <= i < |items| ensures SingleLine(parts[i]) {
      CanonicalSingleLine(items[i], depth + 1);
    }
    LayoutSingleLine('[', parts, depth, ']');
  }

  lemma {:induction false} CanonicalObjectSingleLine(ms: Members, depth: nat)
    ensures SingleLine(CanonicalInner(JObject(ms), 0, depth))
    decreases JObject(ms), 0
  {
    SortByKeyMultiset(ms);
    var sorted := SortByKey(ms);
    var parts := seq(|sorted|, i requires 0 <= i < |sorted| =>
      assert sorted[i] in multiset(ms);
      Spaces(0 * depth) + "\"" + EscapeString(sorted[i].0) + "\": " + CanonicalInner(sorted[i].1, 0, depth + 1));
    assert Spaces(0 * depth) == "";
    forall i | 0 <= i < |sorted| ensures SingleLine(parts[i]) {
      assert sorted[i] in multiset(ms);
      CanonicalSingleLine(sorted[i].1, depth + 1);
    }
    LayoutSingleLine('{', parts, depth, '}');
  }

  /** The Lua rendering with no indentation is one line as well. */
  lemma {:induction false} LuaSingleLine(v: Json, depth: nat)
    ensures SingleLine(LuaInner(v, 0, depth))
    decreases v, 1
  {
    match v
    case JArray(items) => LuaArraySingleLine(items, depth);
    case JObject(ms) => LuaObjectSingleLine(ms, depth);
    case _ =>
  }

  lemma {:induction false} LuaArraySingleLine(items: seq<Json>, depth: nat)
    ensures SingleLine(LuaInner(JArray(items), 0, depth))
    decreases JArray(items), 0
  {
    var parts := seq(|items|, i requires 0 <= i < |items| => Spaces(0 * depth) + LuaInner(items[i], 0, depth + 1));
    assert Spaces(0 * depth) == "";
    forall i | 0 <= i < |items| ensures SingleLine(parts[i]) {
      LuaSingleLine(items[i], depth + 1);
    }
    LayoutSingleLine('{', parts, depth, '}');
  }

  lemma {:induction false} LuaObjectSingleLine(ms: Members, depth: nat)
    ensures SingleLine(LuaInner(JObject(ms), 0, depth))
    decreases JObject(ms), 0
  {
    var parts := seq(|ms|, i requires 0 <= i < |ms| =>
      Spaces(0 * depth) + "[\"" + EscapeString(ms[i].0) + "\"] = " + LuaInner(ms[i].1, 0, depth + 1));
    assert Spaces(0 * depth) == "";
    forall i | 0 <= i < |ms| ensures SingleLine(parts[i]) {
      LuaSingleLine(ms[i].1, depth + 1);
    }
    LayoutSingleLine('{', parts, depth, '}');
  }

  /** Objects holding the same members in any insertion order render identically. */
  lemma CanonicalIgnoresMemberOrder(ms1: Members, ms2: Members, spaces: nat, depth: nat)
    requires UniqueKeys(ms1) && multiset(ms1) == multiset(ms2)
    ensures CanonicalInner(JObject(ms1), spaces, depth) == CanonicalInner(JObject(ms2), spaces, depth)
  {
    SortByKeyPermutation(ms1, ms2);
  }

  /** An indented layout opens with a line break, the indent, then the first part. */
  lemma LayoutStart(open: char, parts: seq<string>, spaces: nat, depth: nat, close: char)
    requires |parts| > 0 && spaces > 0
    ensures [open] + "\n" + Spaces(spaces) + parts[0] <= Layout(open, parts, spaces, depth, close)
  {
    var sep := ",\n" + Spaces(spaces);
    var rest := if |parts| == 1 then "" else sep + Join(parts[1..], sep);
    JoinStart(parts, sep);
    LayoutIndented(open, parts, spaces, depth, close);
    Regroup([open] + "\n" + Spaces(spaces), parts[0], rest, "\n" + Spaces(spaces * depth) + [close]);
  }

  /** With indentation, the layout is the opening line, the joined parts, and the closing line. */
  lemma LayoutIndented(open: char, parts: seq<string>, spaces: nat, depth: nat, close: char)
    requires spaces > 0
    ensures Layout(open, parts, spaces, depth, close)
      == [open] + "\n" + Spaces(spaces) + Join(parts, ",\n" + Spaces(spaces)) + ("\n" + Spaces(spaces * depth) + [close])
  {
    var head := [open] + "\n" + Spaces(spaces) + Join(parts, ",\n" + Spaces(spaces));
    var t := Spaces(spaces * depth);
    assert "," + "\n" + Spaces(spaces) == ",\n" + Spaces(spaces) by {
      assert "," + "\n" == ",\n";
    }
    AppendAssoc(head, "\n", t);
    AppendAssoc(head, "\n" + t, [close]);
  }

  lemma Regroup<T>(a: seq<T>, p: seq<T>, r: seq<T>, c: seq<T>)
    ensures a + p <= a + (p + r) + c
  {
    assert (a + (p + r) + c)[..|a + p|] == a + p;
  }

  /** An indented array's first element starts on a new line, indented by `spaces * (depth + 1)`. */
  lemma CanonicalArrayIndent(items: seq<Json>, spaces: nat, depth: nat)
    requires |items| > 0 && spaces > 0
    ensures "[\n" + Spaces(spaces * (depth + 1)) + CanonicalInner(items[0], spaces, depth + 1)
      <= CanonicalInner(JArray(items), spaces, depth)
  {
    var padding := Spaces(spaces * depth);
    var parts := seq(|items|, i requires 0 <= i < |items| => padding + CanonicalInner(items[i], spaces, depth + 1));
    assert CanonicalInner(JArray(items), spaces, depth) == Layout('[', parts, spaces, depth, ']');
    LayoutIndentFirst('[', parts, CanonicalInner(items[0], spaces, depth + 1), spaces, depth, ']');
    assert "[\n" == ['['] + "\n";
  }

  /** Each body on a line of its own, indented by `n`. */
  function Lines(bodies: seq<string>, n: nat): (r: seq<string>)
    ensures |r| == |bodies|
  {
    seq(|bodies|, i requires 0 <= i < |bodies| => "\n" + Spaces(n) + bodies[i])
  }

  /** `pre` before every part. */
  function Prefixed(pre: string, xs: seq<string>): (r: seq<string>)
    ensures |r| == |xs|
  {
    seq(|xs|, i requires 0 <= i < |xs| => pre + xs[i])
  }

  /** Putting `pre` before the first part and after each separator is putting it before every part. */
  lemma {:induction false} JoinPrefixed(xs: seq<string>, pre: string, sep: string)
    requires |xs| > 0
    ensures pre + Join(xs, sep + pre) == Join(Prefixed(pre, xs), sep)
    decreases |xs|
  {
    var ys := Prefixed(pre, xs);
    if |xs| > 1 {
      JoinPrefixed(xs[1..], pre, sep);
      assert ys[1..] == Prefixed(pre, xs[1..]);
      var rest := Join(xs[1..], sep + pre);
      calc {
        pre + Join(xs, sep + pre);
        pre + (xs[0] + (sep + pre) + rest);
        { AppendAssoc(xs[0], sep + pre, rest); AppendAssoc(sep, pre, rest); }
        (pre + xs[0]) + sep + (pre + rest);
      }
    }
  }

  /**
   * With indentation and at least one part, where every part is the padding for `depth`
   * followed by a body, the layout puts each body on its own line indented by
   * `spaces * (depth + 1)`, with a comma after every line but the last, and closes on a
   * line indented by `spaces * depth`.
   */
  lemma LayoutLines(open: char, parts: seq<string>, bodies: seq<string>, spaces: nat, depth: nat, close: char)
    requires spaces > 0 && |parts| == |bodies| > 0
    requires forall i :: 0 <= i < |parts| ==> parts[i] == Spaces(spaces * depth) + bodies[i]
    ensures Layout(open, parts, spaces, depth, close)
      == [open] + Join(Lines(bodies, spaces * (depth + 1)), ",") + ("\n" + Spaces(spaces * depth) + [close])
  {
    var pre := "\n" + Spaces(spaces);
    var joined := Join(parts, ",\n" + Spaces(spaces));
    var lines := Join(Lines(bodies, spaces * (depth + 1)), ",");
    var tail := "\n" + Spaces(spaces * depth) + [close];
    assert pre + joined == lines by {
      assert "," + pre == ",\n" + Spaces(spaces);
      JoinPrefixed(parts, pre, ",");
      PrefixedLines(parts, bodies, spaces, depth);
    }
    assert Layout(open, parts, spaces, depth, close) == [open] + "\n" + Spaces(spaces) + joined + tail by {
      LayoutIndented(open, parts, spaces, depth, close);
    }
    Regroup3([open], "\n", Spaces(spaces), joined, tail);
  }

  /** Regrouping the middle three pieces of a five-piece concatenation. */
  lemma Regroup3<T>(a: seq<T>, b: seq<T>, c: seq<T>, d: seq<T>, e: seq<T>)
    ensures a + b + c + d + e == a + (b + c + d) + e
  {
  }

  /** A line break and the first indent before a part padded to `depth` give its line at `spaces * (depth + 1)`. */
  lemma PrefixedLines(parts: seq<string>, bodies: seq<string>, spaces: nat, depth: nat)
    requires |parts| == |bodies|
    requires forall i :: 0 <= i < |parts| ==> parts[i] == Spaces(spaces * depth) + bodies[i]
    ensures Prefixed("\n" + Spaces(spaces), parts) == Lines(bodies, spaces * (depth + 1))
  {
    var pre := "\n" + Spaces(spaces);
    SpacesAdd(spaces, spaces * depth);
    MulSucc(spaces, depth);
    assert pre + Spaces(spaces * depth) == "\n" + Spaces(spaces * (depth + 1)) by {
      AppendAssoc("\n", Spaces(spaces), Spaces(spaces * depth));
    }
    var lines := Lines(bodies, spaces * (depth + 1));
    forall i | 0 <= i < |parts|
      ensures pre + parts[i] == lines[i]
    {
      AppendAssoc(pre, Spaces(spaces * depth), bodies[i]);
    }
  }

  /** With indentation, an empty container still writes its opening line break and the first indent. */
  lemma LayoutEmpty(open: char, spaces: nat, depth: nat, close: char)
    requires spaces > 0
    ensures Layout(open, [], spaces, depth, close) == [open] + "\n" + Spaces(spaces) + "\n" + Spaces(spaces * depth) + [close]
  {
  }

  /** An indented canonical array: one element per line at `spaces * (depth + 1)`, then `]` at `spaces * depth`. */
  lemma CanonicalArrayLines(items: seq<Json>, spaces: nat, depth: nat)
    requires spaces > 0 && |items| > 0
    ensures CanonicalInner(JArray(items), spaces, depth)
      == "[" + Join(Lines(seq(|items|, i requires 0 <= i < |items| => CanonicalInner(items[i], spaces, depth + 1)), spaces * (depth + 1)), ",")
        + ("\n" + Spaces(spaces * depth) + "]")
  {
    var padding := Spaces(spaces * depth);
    var bodies := seq(|items|, i requires 0 <= i < |items| => CanonicalInner(items[i], spaces, depth + 1));
    var parts := seq(|items|, i requires 0 <= i < |items| => padding + CanonicalInner(items[i], spaces, depth + 1));
    assert CanonicalInner(JArray(items), spaces, depth) == Layout('[', parts, spaces, depth, ']');
    LayoutLines('[', parts, bodies, spaces, depth, ']');
  }

  /** An indented canonical object: one `"key": value` per line at `spaces * (depth + 1)`, keys sorted, then `}` at `spaces * depth`. */
  lemma CanonicalObjectLines(ms: Members, spaces: nat, depth: nat)
    requires spaces > 0 && |ms| > 0
    ensures var sorted := SortByKey(ms);
      && |sorted| == |ms|
      && CanonicalInner(JObject(ms), spaces, depth)
        == "{" + Join(Lines(seq(|sorted|, i requires 0 <= i < |sorted| =>
             "\"" + EscapeString(sorted[i].0) + "\": " + CanonicalInner(sorted[i].1, spaces, depth + 1)), spaces * (depth + 1)), ",")
          + ("\n" + Spaces(spaces * depth) + "}")
  {
    SortByKeyMultiset(ms);
    var sorted := SortByKey(ms);
    assert |sorted| == |multiset(sorted)| == |multiset(ms)| == |ms|;
    var padding := Spaces(spaces * depth);
    var bodies := seq(|sorted|, i requires 0 <= i < |sorted| =>
      "\"" + EscapeString(sorted[i].0) + "\": " + CanonicalInner(sorted[i].1, spaces, depth + 1));
    var parts := seq(|sorted|, i requires 0 <= i < |sorted| =>
      padding + "\"" + EscapeString(sorted[i].0) + "\": " + CanonicalInner(sorted[i].1, spaces, depth + 1));
    assert CanonicalInner(JObject(ms), spaces, depth) == Layout('{', parts, spaces, depth, '}');
    forall i | 0 <= i < |sorted|
      ensures parts[i] == padding + bodies[i]
    {
      PadAssoc(padding, "\"", EscapeString(sorted[i].0), "\": ", CanonicalInner(sorted[i].1, spaces, depth + 1));
    }
    LayoutLines('{', parts, bodies, spaces, depth, '}');
  }

  lemma PadAssoc(padding: string, a: string, b: string, c: string, d: string)
    ensures padding + a + b + c + d == padding + (a + b + c + d)
  {
  }

  /** An indented Lua array: one element per line at `spaces * (depth + 1)`, then `}` at `spaces * depth`. */
  lemma LuaArrayLines(items: seq<Json>, spaces: nat, depth: nat)
    requires spaces > 0 && |items| > 0
    ensures LuaInner(JArray(items), spaces, depth)
      == "{" + Join(Lines(seq(|items|, i requires 0 <= i < |items| => LuaInner(items[i], spaces, depth + 1)), spaces * (depth + 1)), ",")
        + ("\n" + Spaces(spaces * depth) + "}")
  {
    var padding := Spaces(spaces * depth);
    var bodies := seq(|items|, i requires 0 <= i < |items| => LuaInner(items[i], spaces, depth + 1));
    var parts := seq(|items|, i requires 0 <= i < |items| => padding + LuaInner(items[i], spaces, depth + 1));
    assert LuaInner(JArray(items), spaces, depth) == Layout('{', parts, spaces, depth, '}');
    LayoutLines('{', parts, bodies, spaces, depth, '}');
  }

  /** An indented Lua table: one `["key"] = value` per line at `spaces * (depth + 1)`, in the object's own order, then `}` at `spaces * depth`. */
  lemma LuaObjectLines(ms: Members, spaces: nat, depth: nat)
    requires spaces > 0 && |ms| > 0
    ensures LuaInner(JObject(ms), spaces, depth)
      == "{" + Join(Lines(seq(|ms|, i requires 0 <= i < |ms| =>
           "[\"" + EscapeString(ms[i].0) + "\"] = " + LuaInner(ms[i].1, spaces, depth + 1)), spaces * (depth + 1)), ",")
        + ("\n" + Spaces(spaces * depth) + "}")
  {
    var padding := Spaces(spaces * depth);
    var bodies := seq(|ms|, i requires 0 <= i < |ms| =>
      "[\"" + EscapeString(ms[i].0) + "\"] = " + LuaInner(ms[i].1, spaces, depth + 1));
    var parts := seq(|ms|, i requires 0 <= i < |ms| =>
      padding + "[\"" + EscapeString(ms[i].0) + "\"] = " + LuaInner(ms[i].1, spaces, depth + 1));
    assert LuaInner(JObject(ms), spaces, depth) == Layout('{', parts, spaces, depth, '}');
    forall i | 0 <= i < |ms|
      ensures parts[i] == padding + bodies[i]
    {
      PadAssoc(padding, "[\"", EscapeString(ms[i].0), "\"] = ", LuaInner(ms[i].1, spaces, depth + 1));
    }
    LayoutLines('{', parts, bodies, spaces, depth, '}');
  }

  /** An indented layout whose first part is padded to `depth` starts that part at `spaces * (depth + 1)`. */
  lemma LayoutIndentFirst(open: char, parts: seq<string>, first: string, spaces: nat, depth: nat, close: char)
    requires |parts| > 0 && spaces > 0 && parts[0] == Spaces(spaces * depth) + first
    ensures [open] + "\n" + Spaces(spaces * (depth + 1)) + first <= Layout(open, parts, spaces, depth, close)
  {
    LayoutStart(open, parts, spaces, depth, close);
    SpacesAdd(spaces, spaces * depth);
    MulSucc(spaces, depth);
    var a, s1, s2 := [open] + "\n", Spaces(spaces), Spaces(spaces * depth);
    AppendAssoc(a, s1, s2);
    AppendAssoc(a + s1, s2, first);
  }

  lemma MulSucc(a: nat, b: nat)
    ensures a + a * b == a * (b + 1)
  {
  }

  /** Strings render quoted, with their contents escaped, in both renderers. */
  lemma StringRendering(s: string, spaces: nat, depth: nat)
    ensures CanonicalInner(JString(s), spaces, depth) == LuaInner(JString(s), spaces, depth)
    ensures var r := CanonicalInner(JString(s), spaces, depth);
      |r| >= 2 && r[0] == '"' && r[|r| - 1] == '"' && Unescape(r[1..|r| - 1]) == Some(s)
  {
    var r := CanonicalInner(JString(s), spaces, depth);
    assert r[1..|r| - 1] == EscapeString(s);
    EscapeRoundTrip(s);
  }

  /** Scalars at any nesting: null is `null` in canonical form and `nil` in Lua. */
  lemma ScalarExamples(depth: nat)
    ensures CanonicalInner(JNull, 0, depth) == "null" && LuaInner(JNull, 0, depth) == "nil"
    ensures CanonicalInner(JBool(true), 0, depth) == "true"
    ensures CanonicalInner(JNumber(-12), 0, depth) == "-12"
  {
    assert NatToString(12) == "12" by {
      assert NatToString(1) == "1";
    }
  }

  /** An illustration of the key order: `["b", "a"].sort()` puts `a` first. */
  lemma SortExample()
    ensures SortByKey([("b", JNumber(1)), ("a", JNull)]) == [("a", JNull), ("b", JNumber(1))]
  {
    assert Less("a", "b");
    assert SortByKey([("a", JNull)]) == [("a", JNull)];
  }

  /** An illustration of the Lua form: `{b: 1, a: null}` keeps `b` first. */
  lemma LuaObjectExample()
    ensures Lua(JObject([("b", JNumber(1)), ("a", JNull)])) == "{[\"b\"] = 1,[\"a\"] = nil}"
  {
    LuaTwoMembers("b", JNumber(1), "a", JNull);
    assert EscapeString("b") == "b" && EscapeString("a") == "a";
    assert LuaInner(JNumber(1), 0, 1) == "1" && LuaInner(JNull, 0, 1) == "nil";
  }

  /** One member of a flat Lua table: `["key"] = value`. */
  function LuaFlatMember(k: string, v: Json): string {
    "[\"" + EscapeString(k) + "\"] = " + LuaInner(v, 0, 1)
  }

  /** A flat Lua table lists its members in the order given, comma-separated. */
  lemma LuaFlatObject(ms: Members, parts: seq<string>)
    requires |parts| == |ms| && forall i :: 0 <= i < |ms| ==> parts[i] == LuaFlatMember(ms[i].0, ms[i].1)
    ensures Lua(JObject(ms)) == "{" + Join(parts, ",") + "}"
  {
    LuaFlatParts(ms, parts);
    LayoutFlat('{', parts, 0, '}');
  }

  lemma LuaFlatParts(ms: Members, parts: seq<string>)
    requires |parts| == |ms| && forall i :: 0 <= i < |ms| ==> parts[i] == LuaFlatMember(ms[i].0, ms[i].1)
    ensures seq(|ms|, i requires 0 <= i < |ms| =>
      Spaces(0 * 0) + "[\"" + EscapeString(ms[i].0) + "\"] = " + LuaInner(ms[i].1, 0, 1)) == parts
  {
    var body := seq(|ms|, i requires 0 <= i < |ms| =>
      Spaces(0 * 0) + "[\"" + EscapeString(ms[i].0) + "\"] = " + LuaInner(ms[i].1, 0, 1));
    assert Spaces(0 * 0) + "[\"" == "[\"";
    forall i | 0 <= i < |ms| ensures body[i] == parts[i] {
    }
  }

  /** A flat two-member object renders its members in the order given. */
  lemma LuaTwoMembers(k0: string, v0: Json, k1: string, v1: Json)
    ensures Lua(JObject([(k0, v0), (k1, v1)])) == "{" + LuaFlatMember(k0, v0) + "," + LuaFlatMember(k1, v1) + "}"
  {
    var ms: Members := [(k0, v0), (k1, v1)];
    var parts := [LuaFlatMember(k0, v0), LuaFlatMember(k1, v1)];
    assert forall i :: 0 <= i < |ms| ==> parts[i] == LuaFlatMember(ms[i].0, ms[i].1);
    LuaFlatObject(ms, parts);
    JoinTwo(parts[0], parts[1], ",");
  }
}
