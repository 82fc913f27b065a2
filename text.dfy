/**
  The Python `str` operations the pipeline relies on, on `string` (= seq<char>):
  strip, startswith, the `in` substring test, split on a separator, split on the
  first space, split on whitespace, lower/upper case, int() and str() of integers.
*/
module Text {
  import opened Wrappers

  /** Python's `str.isspace()` for one character (the Unicode whitespace set). */
  predicate IsSpace(c: char) {
    c == ' ' || ('\t' <= c <= '\r') || ('\U{1C}' <= c <= '\U{1F}') || c == '\U{85}' || c == '\U{A0}'
    || c == '\U{1680}' || ('\U{2000}' <= c <= '\U{200A}') || c == '\U{2028}' || c == '\U{2029}'
    || c == '\U{202F}' || c == '\U{205F}' || c == '\U{3000}'
  }

  /** `c.isdigit()` for ASCII digits. */
  predicate IsDigit(c: char) {
    '0' <= c <= '9'
  }

  // ---------------------------------------------------------------- strip

  /** The end of the leading whitespace run, searched from `k` on. */
  function LeadEnd(s: string, k: nat): (n: nat)
    requires k <= |s| && forall i :: 0 <= i < k ==> IsSpace(s[i])
    ensures k <= n <= |s| && (n == |s| || !IsSpace(s[n]))
    ensures forall i :: 0 <= i < n ==> IsSpace(s[i])
    decreases |s| - k
  {
    if k == |s| || !IsSpace(s[k]) then k else LeadEnd(s, k + 1)
  }

  /** The start of the trailing whitespace run, searched from `k` down. */
  function TrailStart(s: string, k: nat): (n: nat)
    requires k <= |s| && forall i :: k <= i < |s| ==> IsSpace(s[i])
    ensures n <= k && (n == 0 || !IsSpace(s[n - 1]))
    ensures forall i :: n <= i < |s| ==> IsSpace(s[i])
  {
    if k == 0 || !IsSpace(s[k - 1]) then k else TrailStart(s, k - 1)
  }

  /** No leading and no trailing whitespace. */
  predicate Stripped(s: string) {
    s == [] || (!IsSpace(s[0]) && !IsSpace(s[|s| - 1]))
  }

  /** Some character of `s` is not whitespace. */
  predicate HasNonSpace(s: string) {
    exists i :: 0 <= i < |s| && !IsSpace(s[i])
  }

  /** `s[..a]` and `s[b..]` are whitespace only. */
  predicate SpaceMargins(s: string, a: int, b: int) {
    0 <= a <= b <= |s|
    && (forall i :: 0 <= i < a ==> IsSpace(s[i]))
    && (forall i :: b <= i < |s| ==> IsSpace(s[i]))
  }

  /** `[f(x) for x in xs]`. */
  function Images(f: string -> string, xs: seq<string>): (ys: seq<string>)
    ensures |ys| == |xs| && forall j :: 0 <= j < |xs| ==> ys[j] == f(xs[j])
  {
    seq(|xs|, j requires 0 <= j < |xs| => f(xs[j]))
  }

  /** One more element, one more image at the end. */
  lemma ImagesSnoc(f: string -> string, xs: seq<string>, x: string)
    ensures Images(f, xs + [x]) == Images(f, xs) + [f(x)]
  {
    var a, b := Images(f, xs + [x]), Images(f, xs) + [f(x)];
    assert |a| == |b|;
    forall j | 0 <= j < |a| ensures a[j] == b[j] {
      assert (xs + [x])[j] == if j < |xs| then xs[j] else x;
    }
  }

  /** Python `s.strip()`: the result is `s` without its whitespace margins. */
  function Strip(s: string): (r: string)
    ensures Stripped(r) && |r| <= |s|
  {
    var a, b := LeadEnd(s, 0), TrailStart(s, |s|);
    if a < b then s[a..b] else []
  }

  /** What `Strip` removes is whitespace only: it returns `s[a..b]` for margins `a`, `b`. */
  lemma StripMargins(s: string) returns (a: int, b: int)
    ensures SpaceMargins(s, a, b) && Strip(s) == s[a..b]
  {
    a, b := LeadEnd(s, 0), TrailStart(s, |s|);
    if !(a < b) {
      a, b := 0, 0;
    }
  }

  lemma StripOfStripped(s: string)
    requires Stripped(s)
    ensures Strip(s) == s
  {
    if s != [] {
      assert LeadEnd(s, 0) == 0 && TrailStart(s, |s|) == |s|;
    }
  }

  /** One leading whitespace character in front of a stripped word is dropped. */
  lemma StripLeadingSpace(c: char, t: string)
    requires IsSpace(c) && t != [] && Stripped(t)
    ensures Strip([c] + t) == t
  {
    var s := [c] + t;
    assert LeadEnd(s, 1) == 1 by { assert s[1] == t[0]; }
    assert TrailStart(s, |s|) == |s| by { assert s[|s| - 1] == t[|t| - 1]; }
    assert s[1..] == t;
  }

  /** A string with a non-space character never strips to "". */
  lemma StripKeepsNonSpace(s: string)
    requires HasNonSpace(s)
    ensures Strip(s) != []
  {
    var k :| 0 <= k < |s| && !IsSpace(s[k]);
    assert LeadEnd(s, 0) <= k < TrailStart(s, |s|);
  }

  /** Stripping keeps some visible character. */
  lemma StripHasNonSpace(s: string)
    requires HasNonSpace(s)
    ensures HasNonSpace(Strip(s))
  {
    StripKeepsNonSpace(s);
    assert !IsSpace(Strip(s)[0]);
  }

  /** `s[..a]` and `s[b..]` are dots only. */
  predicate DotMargins(s: string, a: int, b: int) {
    0 <= a <= b <= |s|
    && (forall i :: 0 <= i < a ==> s[i] == '.')
    && (forall i :: b <= i < |s| ==> s[i] == '.')
  }

  /** Python `s.strip('.')`. */
  function StripDots(s: string): (r: string)
    ensures r == [] || (r[0] != '.' && r[|r| - 1] != '.')
    ensures exists a, b :: DotMargins(s, a, b) && r == s[a..b]
  {
    var l := TrimLeftDots(s);
    var r := TrimRightDots(l);
    assert r == l[..|r|];
    assert l[..|r|] == s[|s| - |l|..|s| - |l| + |r|];
    assert DotMargins(s, |s| - |l|, |s| - |l| + |r|);
    r
  }

  function TrimLeftDots(s: string): (r: string)
    ensures |r| <= |s| && r == s[|s| - |r|..]
    ensures r == [] || r[0] != '.'
    ensures forall i :: 0 <= i < |s| - |r| ==> s[i] == '.'
  {
    if s != [] && s[0] == '.' then TrimLeftDots(s[1..]) else s
  }

  function TrimRightDots(s: string): (r: string)
    ensures |r| <= |s| && r == s[..|r|]
    ensures r == [] || r[|r| - 1] != '.'
    ensures forall i :: |r| <= i < |s| ==> s[i] == '.'
  {
    if s != [] && s[|s| - 1] == '.' then TrimRightDots(s[..|s| - 1]) else s
  }

  // ---------------------------------------------------------------- prefixes and substrings

  /** Python `s.startswith(p)`. */
  predicate StartsWith(s: string, p: string) {
    |p| <= |s| && s[..|p|] == p
  }

  /** Python `t in s` for strings. */
  predicate Contains(s: string, t: string)
    decreases |s|
  {
    StartsWith(s, t) || (s != [] && Contains(s[1..], t))
  }

  /** `t` occurs in `s` at position `i`. */
  predicate OccursAt(s: string, t: string, i: int) {
    0 <= i && i + |t| <= |s| && s[i..i + |t|] == t
  }

  lemma {:induction false} ContainsWitness(s: string, t: string)
    requires Contains(s, t)
    ensures exists i :: OccursAt(s, t, i)
    decreases |s|
  {
    if StartsWith(s, t) {
      assert OccursAt(s, t, 0);
    } else {
      ContainsWitness(s[1..], t);
      var i :| OccursAt(s[1..], t, i);
      assert s[i + 1..i + 1 + |t|] == s[1..][i..i + |t|];
      assert OccursAt(s, t, i + 1);
    }
  }

  lemma {:induction false} ContainsAt(s: string, t: string, i: int)
    requires OccursAt(s, t, i)
    ensures Contains(s, t)
    decreases i
  {
    if i == 0 {
      assert StartsWith(s, t);
    } else {
      assert s[1..][i - 1..i - 1 + |t|] == s[i..i + |t|];
      ContainsAt(s[1..], t, i - 1);
    }
  }

  /** A string cannot contain a pattern with a character it lacks. */
  lemma NotContainsMissingChar(s: string, t: string, c: char)
    requires c in t && c !in s
    ensures !Contains(s, t)
  {
    if Contains(s, t) {
      ContainsWitness(s, t);
    }
  }

  lemma ContainsInRight(a: string, b: string, t: string)
    requires Contains(b, t)
    ensures Contains(a + b, t)
  {
    ContainsWitness(b, t);
    var i :| OccursAt(b, t, i);
    assert (a + b)[|a| + i..|a| + i + |t|] == b[i..i + |t|];
    ContainsAt(a + b, t, |a| + i);
  }

  /** A pattern that is a prefix is contained. */
  lemma PrefixContained(s: string, t: string)
    requires StartsWith(s, t)
    ensures Contains(s, t)
  {
  }

  // ---------------------------------------------------------------- case

  function LowerChar(c: char): char {
    if 'A' <= c <= 'Z' then (c as int + 32) as char else c
  }

  function UpperChar(c: char): char {
    if 'a' <= c <= 'z' then (c as int - 32) as char else c
  }

  /** Python `s.lower()` on the ASCII letters; other characters are unchanged. */
  function Lower(s: string): (r: string)
    ensures |r| == |s|
    ensures forall i :: 0 <= i < |s| ==> r[i] == LowerChar(s[i])
    ensures forall i :: 0 <= i < |r| ==> !('A' <= r[i] <= 'Z')
  {
    seq(|s|, i requires 0 <= i < |s| => LowerChar(s[i]))
  }

  /** Python `s.upper()` on the ASCII letters; other characters are unchanged. */
  function Upper(s: string): (r: string)
    ensures |r| == |s|
    ensures forall i :: 0 <= i < |s| ==> r[i] == UpperChar(s[i])
    ensures forall i :: 0 <= i < |r| ==> !('a' <= r[i] <= 'z')
  {
    seq(|s|, i requires 0 <= i < |s| => UpperChar(s[i]))
  }

  // ---------------------------------------------------------------- searching and splitting

  /** Python `s.find(c)`, with None for -1. */
  function IndexOf(s: string, c: char): (r: Option<nat>)
    ensures r.None? <==> c !in s
    ensures r.Some? ==> r.value < |s| && s[r.value] == c && c !in s[..r.value]
  {
    if s == [] then None
    else if s[0] == c then Some(0)
    else match IndexOf(s[1..], c)
      case None => None
      case Some(i) => assert s[..i + 1] == [s[0]] + s[1..][..i]; Some(i + 1)
  }

  /** Python `s.rfind(c)`, with None for -1. */
  function LastIndexOf(s: string, c: char): (r: Option<nat>)
    ensures r.None? <==> c !in s
    ensures r.Some? ==> r.value < |s| && s[r.value] == c && c !in s[r.value + 1..]
  {
    if s == [] then None
    else if s[|s| - 1] == c then Some(|s| - 1)
    else match LastIndexOf(s[..|s| - 1], c)
      case None => None
      case Some(i) => assert s[i + 1..] == s[..|s| - 1][i + 1..] + [s[|s| - 1]]; Some(i)
  }

  /** `sep.join(parts)`. */
  function Join(parts: seq<string>, sep: string): string {
    if |parts| == 0 then ""
    else if |parts| == 1 then parts[0]
    else parts[0] + sep + Join(parts[1..], sep)
  }

  /** A character in no part and not in the separator is not in the joined text. */
  lemma {:induction false} JoinLacks(parts: seq<string>, sep: string, c: char)
    requires c !in sep && forall k :: 0 <= k < |parts| ==> c !in parts[k]
    ensures c !in Join(parts, sep)
    decreases |parts|
  {
    if |parts| > 1 {
      JoinLacks(parts[1..], sep, c);
      assert Join(parts, sep) == parts[0] + sep + Join(parts[1..], sep);
    }
  }

  /** Python `s.split(sep)` for a one-character separator. */
  function Split(s: string, sep: char): (r: seq<string>)
    ensures |r| >= 1
    ensures forall k :: 0 <= k < |r| ==> sep !in r[k]
    decreases |s|
  {
    match IndexOf(s, sep)
    case None => [s]
    case Some(i) => [s[..i]] + Split(s[i + 1..], sep)
  }

  /** Splitting and joining on the same separator gives back the string. */
  lemma {:induction false} JoinSplit(s: string, sep: char)
    ensures Join(Split(s, sep), [sep]) == s
    decreases |s|
  {
    match IndexOf(s, sep)
    case None =>
      assert Split(s, sep) == [s];
    case Some(i) =>
      var rest := Split(s[i + 1..], sep);
      assert Split(s, sep) == [s[..i]] + rest;
      JoinSplit(s[i + 1..], sep);
      calc {
        Join([s[..i]] + rest, [sep]);
        { assert ([s[..i]] + rest)[1..] == rest; }
        s[..i] + [sep] + Join(rest, [sep]);
        s[..i] + [sep] + s[i + 1..];
        { assert s == s[..i] + [sep] + s[i + 1..]; }
        s;
      }
  }

  /** Joining parts that do not contain the separator and splitting again gives back the parts. */
  lemma {:induction false} SplitJoin(parts: seq<string>, sep: char)
    requires |parts| >= 1
    requires forall k :: 0 <= k < |parts| ==> sep !in parts[k]
    ensures Split(Join(parts, [sep]), sep) == parts
    decreases |parts|
  {
    if |parts| > 1 {
      var s := Join(parts, [sep]);
      var rest := Join(parts[1..], [sep]);
      assert s == parts[0] + [sep] + rest;
      assert s[|parts[0]|] == sep;
      assert s[..|parts[0]|] == parts[0];
      assert IndexOf(s, sep) == Some(|parts[0]|);
      assert s[|parts[0]| + 1..] == rest;
      SplitJoin(parts[1..], sep);
    }
  }

  /** The first part of a split is the text before the first separator. */
  lemma SplitFirstPart(s: string, sep: char)
    ensures Split(s, sep)[0] == (match IndexOf(s, sep) case None => s case Some(i) => s[..i])
  {
  }

  /** Python `s.split(c, 1)`: the text before and after the first `c`, when there is one. */
  function SplitFirst(s: string, c: char): (r: Option<(string, string)>)
    ensures r.None? <==> c !in s
    ensures r.Some? ==> s == r.value.0 + [c] + r.value.1 && c !in r.value.0
  {
    match IndexOf(s, c)
    case None => None
    case Some(i) => assert s == s[..i] + [c] + s[i + 1..]; Some((s[..i], s[i + 1..]))
  }

  /** A search that does not stop at the first character continues one position later. */
  lemma IndexOfCons(s: string, c: char)
    requires s != [] && s[0] != c
    ensures IndexOf(s[1..], c).None? ==> IndexOf(s, c).None?
    ensures IndexOf(s[1..], c).Some? ==> IndexOf(s, c) == Some(IndexOf(s[1..], c).value + 1)
  {
  }

  /** Searching past a `c`-free prefix shifts the found position by the prefix length. */
  lemma {:induction false} IndexOfAfter(a: string, t: string, c: char)
    requires c !in a
    ensures IndexOf(t, c).None? ==> IndexOf(a + t, c).None?
    ensures IndexOf(t, c).Some? ==> IndexOf(a + t, c) == Some(|a| + IndexOf(t, c).value)
  {
    if a == [] {
      assert a + t == t;
    } else {
      var s := a + t;
      assert s[0] == a[0] && s[1..] == a[1..] + t;
      IndexOfAfter(a[1..], t, c);
      IndexOfCons(s, c);
    }
  }

  /** Splitting at the first `c` finds the `c` that follows a `c`-free prefix. */
  lemma SplitFirstAt(a: string, b: string, c: char)
    requires c !in a
    ensures SplitFirst(a + [c] + b, c) == Some((a, b))
  {
    var s := a + [c] + b;
    assert s == a + ([c] + b);
    IndexOfAfter(a, [c] + b, c);
    assert s[..|a|] == a;
    assert s[|a| + 1..] == b;
  }

  /** The leading run of non-space characters. */
  function TakeNonSpace(s: string): (r: string)
    ensures |r| <= |s| && r == s[..|r|]
    ensures forall i :: 0 <= i < |r| ==> !IsSpace(r[i])
    ensures |r| == |s| || IsSpace(s[|r|])
  {
    if s == [] || IsSpace(s[0]) then [] else [s[0]] + TakeNonSpace(s[1..])
  }

  /** Python `s.split()[0]`; None where `s.split()` is empty and indexing it raises. */
  function FirstToken(s: string): (r: Option<string>)
    ensures r.None? <==> !HasNonSpace(s)
    ensures r.Some? ==> r.value != [] && forall i :: 0 <= i < |r.value| ==> !IsSpace(r.value[i])
  {
    var t := s[LeadEnd(s, 0)..];
    if t == [] then None else Some(TakeNonSpace(t))
  }

  // ---------------------------------------------------------------- integers

  function DigitChar(d: nat): (c: char)
    requires d < 10
    ensures IsDigit(c)
  {
    ('0' as int + d) as char
  }

  function DigitValue(c: char): (d: nat)
    requires IsDigit(c)
    ensures d < 10
  {
    c as int - '0' as int
  }

  /** Python `str(n)` for n >= 0. */
  function NatToString(n: nat): (r: string)
    ensures |r| >= 1
    ensures forall i :: 0 <= i < |r| ==> IsDigit(r[i])
  {
    if n < 10 then [DigitChar(n)] else NatToString(n / 10) + [DigitChar(n % 10)]
  }

  /** Python `str(n)`. */
  function IntToString(n: int): string {
    if n < 0 then "-" + NatToString(-n) else NatToString(n)
  }

  /** Digits with single underscores between them (Python's grammar for int() of a string). */
  predicate DigitGroups(b: string) {
    |b| > 0 && IsDigit(b[0]) && IsDigit(b[|b| - 1])
    && (forall i :: 0 <= i < |b| ==> IsDigit(b[i]) || b[i] == '_')
    && (forall i :: 0 <= i < |b| - 1 ==> b[i] == '_' ==> b[i + 1] != '_')
  }

  /** The value of a string of digits and underscores, underscores skipped. */
  function DigitsValue(b: string): nat
    requires forall i :: 0 <= i < |b| ==> IsDigit(b[i]) || b[i] == '_'
  {
    if b == [] then 0
    else if b[|b| - 1] == '_' then DigitsValue(b[..|b| - 1])
    else DigitsValue(b[..|b| - 1]) * 10 + DigitValue(b[|b| - 1])
  }

  /** Python `int(s)` for a string: None where it raises ValueError. */
  function ParseInt(s: string): Option<int> {
    ParseStrippedInt(Strip(s))
  }

  /** `int` of a string that has no whitespace margin: an optional sign, then digit groups. */
  function ParseStrippedInt(t: string): Option<int> {
    if |t| > 0 && (t[0] == '-' || t[0] == '+') then
      (if DigitGroups(t[1..])
       then var n: int := DigitsValue(t[1..]); Some(if t[0] == '-' then 0 - n else n)
       else None)
    else if DigitGroups(t) then Some(DigitsValue(t))
    else None
  }

  lemma {:induction false} NatToStringValue(n: nat)
    ensures DigitsValue(NatToString(n)) == n
  {
    if n >= 10 {
      var s := NatToString(n);
      assert s[..|s| - 1] == NatToString(n / 10);
      NatToStringValue(n / 10);
    }
  }

  lemma ParseIntDigits(d: string)
    requires DigitGroups(d)
    ensures ParseInt(d) == Some(DigitsValue(d))
  {
    assert Strip(d) == d by { assert Stripped(d); StripOfStripped(d); }
  }

  lemma ParseIntNegative(d: string)
    requires DigitGroups(d)
    ensures ParseInt("-" + d) == Some(0 - DigitsValue(d))
  {
    var s := "-" + d;
    SignedStripped('-', d);
    StripOfStripped(s);
    assert ParseStrippedInt(s) == Some(0 - DigitsValue(d)) by {
      assert |s| > 0 && s[0] == '-' && s[1..] == d;
    }
  }

  /** A sign in front of digit groups leaves nothing to strip. */
  lemma SignedStripped(sign: char, d: string)
    requires (sign == '-' || sign == '+') && DigitGroups(d)
    ensures Stripped([sign] + d)
  {
    var s := [sign] + d;
    assert s[|s| - 1] == d[|d| - 1];
  }

  /** `int(str(n)) == n`. */
  lemma ParseIntOfIntToString(n: int)
    ensures ParseInt(IntToString(n)) == Some(n)
  {
    var m: nat := if n < 0 then -n else n;
    var d := NatToString(m);
    assert DigitGroups(d) && DigitsValue(d) == m by { NatToStringValue(m); }
    if n < 0 {
      ParseIntNegative(d);
    } else {
      ParseIntDigits(d);
    }
  }

  /** A word followed by whitespace or nothing is its own leading run. */
  lemma {:induction false} TakeNonSpaceWord(w: string, rest: string)
    requires forall i :: 0 <= i < |w| ==> !IsSpace(w[i])
    requires rest == [] || IsSpace(rest[0])
    ensures TakeNonSpace(w + rest) == w
    decreases |w|
  {
    if w == [] {
      assert w + rest == rest;
    } else {
      assert (w + rest)[1..] == w[1..] + rest;
      TakeNonSpaceWord(w[1..], rest);
    }
  }

  /** The first token of a word followed by whitespace or nothing is that word. */
  lemma FirstTokenOfWord(w: string, rest: string)
    requires w != [] && forall i :: 0 <= i < |w| ==> !IsSpace(w[i])
    requires rest == [] || IsSpace(rest[0])
    ensures FirstToken(w + rest) == Some(w)
  {
    assert !IsSpace((w + rest)[0]);
    assert LeadEnd(w + rest, 0) == 0;
    assert (w + rest)[0..] == w + rest;
    TakeNonSpaceWord(w, rest);
  }
}
