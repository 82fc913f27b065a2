/**
  The older hierarchy builder of process_hierachical.py: a category parser that keeps
  four levels and splits prose at the first space or at the first character that cannot
  belong to a code, and a builder with no context pass that returns four level frames
  and a memo frame.
*/
module LegacyHierarchy {
  import opened Wrappers
  import opened Text
  import opened Tables
  import opened Category
  import opened Hierarchy

  /** The four level fields, the label and the memo flag of one category string. */
  datatype LegacyNode = LegacyNode(
    sector: Option<string>, subsector: Option<string>, subSubsector: Option<string>, subSubSubsector: Option<string>,
    title: string, isMemo: bool)

  /** The characters the no-space scan treats as part of a code. */
  predicate CodeChar(c: char) {
    IsDigit(c) || c == '.' || c == 'A'
  }

  /** The first position holding a character that cannot belong to a code. */
  function Boundary(s: string): (r: Option<nat>)
    ensures r.None? <==> forall i :: 0 <= i < |s| ==> CodeChar(s[i])
    ensures r.Some? ==> r.value < |s| && !CodeChar(s[r.value]) && forall i :: 0 <= i < r.value ==> CodeChar(s[i])
  {
    if s == [] then None
    else if !CodeChar(s[0]) then Some(0)
    else match Boundary(s[1..])
      case None => None
      case Some(i) => Some(i + 1)
  }

  /** The `for i, character in enumerate(...)` scan with its `break`. */
  method FindBoundary(s: string) returns (r: Option<nat>)
    ensures r == Boundary(s)
  {
    var i := 0;
    while i < |s|
      invariant 0 <= i <= |s|
      invariant forall j :: 0 <= j < i ==> CodeChar(s[j])
    {
      if !CodeChar(s[i]) {
        return Some(i);
      }
      i := i + 1;
    }
    return None;
  }

  /** The code and the label: around the first space; else around the boundary; else the whole string twice. */
  function LegacyCodeAndLabel(s: string): (string, string) {
    match SplitFirst(s, ' ')
    case Some((code, title)) => (code, title)
    case None =>
      match Boundary(s)
      case Some(i) => (Strip(s[..i]), Strip(s[i..]))
      case None => (s, s)
  }

  /** The first four dot-separated segments of a code with its dots stripped, as four optional fields. */
  function FieldsOf(code: string, title: string, memo: bool): (n: LegacyNode)
    ensures n.sector.Some?
  {
    var parts := Split(StripDots(code), '.');
    LegacyNode(Seg(parts, 0), Seg(parts, 1), Seg(parts, 2), Seg(parts, 3), title, memo)
  }

  /** `get_category` of the older builder. */
  function ParseLegacy(raw: string): (n: LegacyNode) {
    var s := Strip(raw);
    if StartsWith(s, "Total") then LegacyNode(None, None, None, None, s, false)
    else
      var (code, title) := LegacyCodeAndLabel(s);
      FieldsOf(code, Strip(title), IsMemoText(s))
  }

  /** The parser as the source runs it, with the scan as a loop. */
  method GetCategory(raw: string) returns (n: LegacyNode)
    ensures n == ParseLegacy(raw)
  {
    var s := Strip(raw);
    if StartsWith(s, "Total") {
      return LegacyNode(None, None, None, None, s, false);
    }
    var memo := IsMemoText(s);
    var code: string, title: string;
    var split := SplitFirst(s, ' ');
    if split.Some? {
      code, title := split.value.0, split.value.1;
    } else {
      var b := FindBoundary(s);
      if b.Some? {
        code, title := Strip(s[..b.value]), Strip(s[b.value..]);
      } else {
        code, title := s, s;
      }
    }
    n := FieldsOf(code, Strip(title), memo);
  }

  // ---------------------------------------------------------------- facts about the parser

  /** A Total row has no level fields, keeps its stripped text as label, and is never a memo item. */
  lemma LegacyTotal(raw: string)
    requires StartsWith(Strip(raw), "Total")
    ensures ParseLegacy(raw) == LegacyNode(None, None, None, None, Strip(raw), false)
  {
  }

  /** Every other row has a sector field (possibly empty). */
  lemma LegacyHasSector(raw: string)
    requires !StartsWith(Strip(raw), "Total")
    ensures ParseLegacy(raw).sector.Some?
  {
  }

  /** The memo flag is the newer parser's: the same five prefixes, and false on Total rows. */
  lemma MemoAgrees(raw: string)
    ensures ParseLegacy(raw).isMemo == ParseCategory(raw).isMemo
    ensures !StartsWith(Strip(raw), "Total") ==> (ParseLegacy(raw).isMemo <==> IsMemoText(Strip(raw)))
  {
  }

  /**
    With a space present, the code is the text before the first space, numeric or not: the
    four fields are its first four segments and the label is the stripped rest.
  */
  lemma LegacySpaceSplit(raw: string)
    requires !StartsWith(Strip(raw), "Total") && ' ' in Strip(raw)
    ensures var s := Strip(raw);
            var n := ParseLegacy(raw);
            var (code, rest) := SplitFirst(s, ' ').value;
            var parts := Split(StripDots(code), '.');
            && s == code + " " + rest && ' ' !in code
            && n.sector == Seg(parts, 0) && n.subsector == Seg(parts, 1)
            && n.subSubsector == Seg(parts, 2) && n.subSubSubsector == Seg(parts, 3)
            && n.title == Strip(rest)
  {
  }

  /** The older parse of a stripped, non-Total string, from its code and label. */
  lemma LegacyForm(s: string, code: string, title: string)
    requires Strip(s) == s && !StartsWith(s, "Total") && LegacyCodeAndLabel(s) == (code, title)
    ensures ParseLegacy(s) == FieldsOf(code, Strip(title), IsMemoText(s))
  {
  }

  /** A code without dots is the sector, with no deeper fields. */
  lemma FieldsOfWord(word: string, title: string, memo: bool)
    requires '.' !in word
    ensures FieldsOf(word, title, memo) == LegacyNode(Some(word), None, None, None, title, memo)
  {
    assert StripDots(word) == word by {
      if word != [] {
        assert word[|word| - 1] in word;
        StripDotsNoop(word);
      }
    }
    assert Split(word, '.') == [word];
  }

  /**
    A word without dots, a space, and a label: the word becomes the sector whatever it is,
    with no deeper fields ("Energy sector" gives sector "Energy" and label "sector").
  */
  lemma LegacyWordSector(word: string, rest: string)
    requires word != [] && ' ' !in word && '.' !in word && !IsSpace(word[0]) && word[0] != 'T'
    requires rest != [] && Stripped(rest)
    ensures var n := ParseLegacy(word + " " + rest);
            n == LegacyNode(Some(word), None, None, None, rest, IsMemoText(word + " " + rest))
  {
    var s := word + " " + rest;
    JoinedStripped(word, rest);
    NotTotal(s);
    SplitFirstAt(word, rest, ' ');
    LegacyForm(s, word, rest);
    FieldsOfWord(word, rest, IsMemoText(s));
  }

  /** A word with a non-space head, a space and a stripped label make a stripped string. */
  lemma JoinedStripped(word: string, rest: string)
    requires word != [] && !IsSpace(word[0]) && rest != [] && Stripped(rest)
    ensures Strip(word + " " + rest) == word + " " + rest && Strip(rest) == rest
  {
    var s := word + " " + rest;
    assert s[0] == word[0];
    assert s[|s| - 1] == rest[|rest| - 1];
    StripOfStripped(s);
    StripOfStripped(rest);
  }

  lemma NotTotal(s: string)
    requires s != [] && s[0] != 'T'
    ensures !StartsWith(s, "Total")
  {
    assert s[0] != "Total"[0];
  }

  lemma EnergySectorExample()
    ensures ParseLegacy("Energy sector") == LegacyNode(Some("Energy"), None, None, None, "sector", false)
  {
    var word, rest := "Energy", "sector";
    assert word + " " + rest == "Energy sector";
    assert ' ' !in word && '.' !in word && !IsSpace(word[0]);
    assert Stripped(rest) by { assert !IsSpace(rest[0]) && !IsSpace(rest[|rest| - 1]); }
    assert !IsMemoText("Energy sector") by {
      var s := "Energy sector";
      assert s[0] == 'E';
    }
    LegacyWordSector(word, rest);
  }

  /**
    Without a space and with a first character that cannot belong to a code, the code is
    empty: the sector is the empty string and the label the whole text ("Bunkers").
  */
  lemma LegacyWordNoSpace(s: string)
    requires s != [] && Stripped(s) && ' ' !in s && !CodeChar(s[0]) && s[0] != 'T'
    ensures ParseLegacy(s) == LegacyNode(Some(""), None, None, None, s, IsMemoText(s))
  {
    StripOfStripped(s);
    assert !StartsWith(s, "Total") by { assert s[0] != 'T'; }
    assert SplitFirst(s, ' ') == None;
    assert Boundary(s) == Some(0);
    assert s[..0] == [] && s[0..] == s;
    assert Strip([]) == [] by { assert Stripped([]); StripOfStripped([]); }
    LegacyForm(s, [], s);
    FieldsOfWord([], s, IsMemoText(s));
  }

  /**
    The older parser keeps the first four segments of a numbered code and drops the rest;
    the newer parser keeps them all.
  */
  lemma LegacyRoundTrip(segments: seq<string>, title: string)
    requires WritableSegments(segments)
    requires title != [] && Stripped(title)
    ensures var s := Join(segments, ".") + " " + title;
            ParseLegacy(s) == LegacyNode(Some(segments[0]), Some(segments[1]), Seg(segments, 2), Seg(segments, 3), title, IsMemoText(s))
  {
    WrittenCode(segments);
    CodeSplits(segments);
    LegacyWritten(Join(segments, "."), segments, title);
  }

  /** The older parse of a code starting with a digit, a space and a stripped label. */
  lemma LegacyWritten(code: string, segments: seq<string>, title: string)
    requires code != [] && IsDigit(code[0]) && ' ' !in code
    requires Split(StripDots(code), '.') == segments
    requires title != [] && Stripped(title)
    ensures var s := code + " " + title;
            ParseLegacy(s) == LegacyNode(Seg(segments, 0), Seg(segments, 1), Seg(segments, 2), Seg(segments, 3), title, IsMemoText(s))
  {
    var s := code + " " + title;
    assert s[0] == code[0];
    NotTotal(s);
    WrittenStripped(code, title);
    StripOfStripped(title);
    SplitFirstAt(code, title, ' ');
    LegacyForm(s, code, title);
  }

  /** Two codes that agree on their first four segments give the same older parse, and different newer ones. */
  lemma LegacyDropsDeep(a: seq<string>, b: seq<string>, title: string)
    requires WritableSegments(a) && WritableSegments(b) && |a| >= 4 && |b| >= 4 && a[..4] == b[..4]
    requires title != [] && Stripped(title)
    ensures var sa := Join(a, ".") + " " + title;
            var sb := Join(b, ".") + " " + title;
            ParseLegacy(sa) == ParseLegacy(sb) && (a != b ==> ParseCategory(sa) != ParseCategory(sb))
  {
    LegacyRoundTrip(a, title);
    LegacyRoundTrip(b, title);
    assert a[..4][0] == a[0] && a[..4][1] == a[1] && a[..4][2] == a[2] && a[..4][3] == a[3];
    JoinedMemo(a, b, title);
    ParseRoundTrip(a, title);
    ParseRoundTrip(b, title);
  }

  /** Codes that share their first two segments give strings with the same memo flag. */
  lemma JoinedMemo(a: seq<string>, b: seq<string>, title: string)
    requires WritableSegments(a) && WritableSegments(b) && |a| >= 3 && |b| >= 3 && a[0] == b[0] && a[1] == b[1]
    ensures IsMemoText(Join(a, ".") + " " + title) == IsMemoText(Join(b, ".") + " " + title)
  {
    var sa := Join(a, ".") + " " + title;
    var sb := Join(b, ".") + " " + title;
    assert Join(a, ".") == a[0] + "." + Join(a[1..], ".");
    assert Join(b, ".") == b[0] + "." + Join(b[1..], ".");
    assert a[1..][0] == a[1] && a[1..][1..] == a[2..];
    assert b[1..][0] == b[1] && b[1..][1..] == b[2..];
    assert Join(a[1..], ".") == a[1] + "." + Join(a[2..], ".");
    assert Join(b[1..], ".") == b[1] + "." + Join(b[2..], ".");
    assert sa == a[0] + "." + a[1] + "." + (Join(a[2..], ".") + " " + title);
    assert sb == b[0] + "." + b[1] + "." + (Join(b[2..], ".") + " " + title);
    MemoPrefix(a[0], a[1], Join(a[2..], ".") + " " + title, Join(b[2..], ".") + " " + title);
  }

  /** The memo test of a string starting with a digit reads no more than its first four characters. */
  lemma MemoPrefix(x: string, y: string, t: string, u: string)
    requires x != [] && IsDigit(x[0]) && y != []
    ensures IsMemoText(x + "." + y + "." + t) == IsMemoText(x + "." + y + "." + u)
  {
    var s := x + "." + y + "." + t;
    var v := x + "." + y + "." + u;
    var k := |x| + |y| + 2;
    assert s[..k] == x + "." + y + "." == v[..k];
    assert s[..4] == v[..4] by { assert s[..4] == s[..k][..4] && v[..4] == v[..k][..4]; }
    assert s[0] == x[0] && v[0] == x[0];
  }

  /**
    Where both parsers read a numbered string with a space, they agree on the label, on the
    memo flag, and on the first four segments.
  */
  lemma LegacyAgreesOnNumbered(raw: string)
    requires !StartsWith(Strip(raw), "Total") && IsNumberedText(Strip(raw)) && ' ' in Strip(raw)
    ensures var n := ParseLegacy(raw);
            var p := ParseCategory(raw);
            && n.sector == Seg(p.levels, 0) && n.subsector == Seg(p.levels, 1)
            && n.subSubsector == Seg(p.levels, 2) && n.subSubSubsector == Seg(p.levels, 3)
            && n.title == p.title && n.isMemo == p.isMemo
  {
  }

  /**
    Without a space they can differ: the newer parser takes the whole string as one code and
    as the label, while the older one cuts code and label at the first character that cannot
    belong to a code ("1.x" is code "1." and label "x" to it).
  */
  lemma LegacyDiffersWithoutSpace(s: string, i: nat)
    requires Stripped(s) && !StartsWith(s, "Total") && IsNumberedText(s) && ' ' !in s && Boundary(s) == Some(i)
    ensures ParseCategory(s).title == s && ParseCategory(s).levels == Split(StripDots(s), '.')
    ensures 0 < i && ParseLegacy(s).title == Strip(s[i..]) && ParseLegacy(s).title != s
  {
    assert 0 < i by { assert CodeChar(s[0]); }
    assert ParseCategory(s).title == s && ParseCategory(s).levels == Split(StripDots(s), '.') by {
      StripOfStripped(s);
      NewNoSpace(s);
    }
    var t := Strip(s[i..]);
    assert ParseLegacy(s).title == t by {
      StripOfStripped(s);
      LegacyAtBoundary(s, i);
      StripOfStripped(t);
    }
  }

  /** The newer parse of a stripped, numbered string without a space: code and label are the whole string. */
  lemma NewNoSpace(s: string)
    requires Strip(s) == s && !StartsWith(s, "Total") && IsNumberedText(s) && ' ' !in s
    ensures ParseCategory(s).levels == Split(StripDots(s), '.') && ParseCategory(s).title == s
  {
    ParseNumberedForm(s, s, s);
  }

  /** The older parse of a stripped string without a space, split at its boundary. */
  lemma LegacyAtBoundary(s: string, i: nat)
    requires Strip(s) == s && !StartsWith(s, "Total") && ' ' !in s && Boundary(s) == Some(i)
    ensures ParseLegacy(s) == FieldsOf(Strip(s[..i]), Strip(Strip(s[i..])), IsMemoText(s))
  {
  }

  // ---------------------------------------------------------------- the classification

  /** The four Level tags of the older builder, and Unknown. */
  datatype LegacyLevel = LTotal | LSector | LSubsector | LSubSubsector | LUnknown

  function LegacyLevelName(l: LegacyLevel): string {
    match l
    case LTotal => "Total"
    case LSector => "Sector"
    case LSubsector => "Subsector"
    case LSubSubsector => "Sub-subsector"
    case LUnknown => "Unknown"
  }

  /** The `if`/`elif` chain of the older builder. */
  function ClassifyLegacy(n: LegacyNode): LegacyLevel {
    if StartsWith(n.title, "Total") then LTotal
    else if Truthy(n.sector) && !Truthy(n.subsector) then LSector
    else if Truthy(n.subsector) && !Truthy(n.subSubsector) then LSubsector
    else if Truthy(n.subSubsector) then LSubSubsector
    else LUnknown
  }

  /**
    On a path of non-empty segments the tag is set by the depth alone, and a third segment
    makes Sub-subsector whether or not a fourth follows.
  */
  lemma ClassifyLegacyDepth(parts: seq<string>, title: string, memo: bool)
    requires !StartsWith(title, "Total") && forall k :: 0 <= k < |parts| ==> parts[k] != []
    ensures var n := LegacyNode(Seg(parts, 0), Seg(parts, 1), Seg(parts, 2), Seg(parts, 3), title, memo);
            ClassifyLegacy(n) == (if |parts| == 0 then LUnknown else if |parts| == 1 then LSector
                                   else if |parts| == 2 then LSubsector else LSubSubsector)
  {
  }

  /** The two chains agree on the first two depths and on Total; deeper newer tags all become Sub-subsector. */
  lemma ClassifyAgrees(p: CategoryNode)
    requires forall k :: 0 <= k < |p.levels| ==> p.levels[k] != []
    ensures var n := LegacyNode(Seg(p.levels, 0), Seg(p.levels, 1), Seg(p.levels, 2), Seg(p.levels, 3), p.title, p.isMemo);
            && (Classify(p) == Total <==> ClassifyLegacy(n) == LTotal)
            && (Classify(p) == Depth(0) <==> ClassifyLegacy(n) == LSector)
            && (Classify(p) == Depth(1) <==> ClassifyLegacy(n) == LSubsector)
            && (Classify(p).Depth? && Classify(p).k >= 2 <==> ClassifyLegacy(n) == LSubSubsector)
            && (Classify(p) == Unknown <==> ClassifyLegacy(n) == LUnknown)
  {
    var d := p.levels;
    if !StartsWith(p.title, "Total") && |d| >= 3 {
      assert Truthy(Seg(d, 0)) && Truthy(Seg(d, 1)) && Truthy(Seg(d, 2));
    }
  }

  /**
    A prose word (no space, first character not part of a code) is tagged Unknown by the
    older builder: it has no context pass, so such a row reaches none of its level frames.
  */
  lemma LegacyProseUnknown(s: string)
    requires s != [] && Stripped(s) && ' ' !in s && !CodeChar(s[0]) && s[0] != 'T'
    ensures ClassifyLegacy(ParseLegacy(s)) == LUnknown
  {
    assert !StartsWith(s, "Total") by { NotTotal(s); }
    var n := LegacyNode(Some(""), None, None, None, s, IsMemoText(s));
    assert ClassifyLegacy(n) == LUnknown by { EmptySectorUnknown(s, IsMemoText(s)); }
    assert ParseLegacy(s) == n by { LegacyWordNoSpace(s); }
  }

  lemma EmptySectorUnknown(title: string, memo: bool)
    requires !StartsWith(title, "Total")
    ensures ClassifyLegacy(LegacyNode(Some(""), None, None, None, title, memo)) == LUnknown
  {
  }

  // ---------------------------------------------------------------- the builder

  /** The parsed categories of every row, each from its own cell alone. */
  function LegacyRows(f: Frame, c: nat): (ns: seq<LegacyNode>)
    requires WellFormed(f) && c < |f.columns|
    ensures |ns| == |f.rows|
  {
    seq(|f.rows|, i requires 0 <= i < |f.rows| => ParseLegacy(CellText(f.rows[i][c])))
  }

  function OptCells(xs: seq<Option<string>>): (cells: seq<Cell>)
    ensures |cells| == |xs|
  {
    seq(|xs|, i requires 0 <= i < |xs| => match xs[i] case None => None case Some(v) => Some(Str(v)))
  }

  function SectorCells(ns: seq<LegacyNode>): seq<Cell> {
    OptCells(seq(|ns|, i requires 0 <= i < |ns| => ns[i].sector))
  }

  function SubsectorCells(ns: seq<LegacyNode>): seq<Cell> {
    OptCells(seq(|ns|, i requires 0 <= i < |ns| => ns[i].subsector))
  }

  function SubSubsectorCells(ns: seq<LegacyNode>): seq<Cell> {
    OptCells(seq(|ns|, i requires 0 <= i < |ns| => ns[i].subSubsector))
  }

  function LegacyLabelCells(ns: seq<LegacyNode>): seq<Cell> {
    seq(|ns|, i requires 0 <= i < |ns| => Some(Str(ns[i].title)))
  }

  function LegacyLevelCells(tags: seq<LegacyLevel>): (cells: seq<Cell>)
    ensures |cells| == |tags|
  {
    seq(|tags|, i requires 0 <= i < |tags| => Some(Str(LegacyLevelName(tags[i]))))
  }

  function LegacyMemoCells(ns: seq<LegacyNode>): seq<Cell> {
    seq(|ns|, i requires 0 <= i < |ns| => Some(Flag(ns[i].isMemo)))
  }

  /** The tag of every parsed row. */
  function LegacyTags(ns: seq<LegacyNode>): (tags: seq<LegacyLevel>)
    ensures |tags| == |ns|
  {
    seq(|ns|, i requires 0 <= i < |ns| => ClassifyLegacy(ns[i]))
  }

  lemma SliceSnoc<T>(xs: seq<T>, i: nat)
    requires i < |xs|
    ensures xs[..i + 1] == xs[..i] + [xs[i]]
  {
  }

  lemma LegacyTagsSnoc(ns: seq<LegacyNode>, n: LegacyNode)
    ensures LegacyTags(ns + [n]) == LegacyTags(ns) + [ClassifyLegacy(n)]
  {
    assert forall i :: 0 <= i < |ns| ==> (ns + [n])[i] == ns[i];
  }

  /** The input frame with Sector, Subsector, Sub_subsector, Label, Level and Is_Memo added, in that order. */
  function LegacyDecorate(f: Frame, ns: seq<LegacyNode>): (g: Frame)
    requires WellFormed(f) && |ns| == |f.rows|
    ensures WellFormed(g) && |g.rows| == |f.rows|
  {
    var g1 := SetColumn(f, "Sector", SectorCells(ns));
    var g2 := SetColumn(g1, "Subsector", SubsectorCells(ns));
    var g3 := SetColumn(g2, "Sub_subsector", SubSubsectorCells(ns));
    var g4 := SetColumn(g3, "Label", LegacyLabelCells(ns));
    var g5 := SetColumn(g4, "Level", LegacyLevelCells(LegacyTags(ns)));
    SetColumn(g5, "Is_Memo", LegacyMemoCells(ns))
  }

  /** The Level names of the four level frames, in the order they are returned. */
  const LegacyLevelNames: seq<string> := ["Total", "Sector", "Subsector", "Sub-subsector"]

  /** The total, sector, subsector and sub-subsector frames, and the memo frame. */
  datatype LegacyLeveled = LegacyLeveled(frames: seq<Frame>, memo: Frame)

  function LegacyFrames(main: Frame, column: nat): (frames: seq<Frame>)
    requires WellFormed(main) && column < |main.columns|
    ensures |frames| == 4
    ensures forall s :: 0 <= s < 4 ==> frames[s] == Mask(main, LevelMask(main, column, LegacyLevelNames[s]))
  {
    seq(4, s requires 0 <= s < 4 => Mask(main, LevelMask(main, column, LegacyLevelNames[s])))
  }

  function LegacySplit(g: Frame): (r: LegacyLeveled)
    requires HasSplitColumns(g)
    ensures |r.frames| == 4
  {
    var main := Mask(g, Not(MemoMask(g)));
    LegacyLeveled(LegacyFrames(main, LevelColumn(g)), Mask(g, MemoMask(g)))
  }

  lemma LegacyDecorateCells(f: Frame, ns: seq<LegacyNode>)
    requires WellFormed(f) && |ns| == |f.rows|
    ensures var g := LegacyDecorate(f, ns);
            && HasSplitColumns(g)
            && forall i :: 0 <= i < |g.rows| ==>
                 && g.rows[i][MemoColumn(g)] == Some(Flag(ns[i].isMemo))
                 && g.rows[i][LevelColumn(g)] == Some(Str(LegacyLevelName(ClassifyLegacy(ns[i]))))
  {
    var g1 := SetColumn(f, "Sector", SectorCells(ns));
    var g2 := SetColumn(g1, "Subsector", SubsectorCells(ns));
    var g3 := SetColumn(g2, "Sub_subsector", SubSubsectorCells(ns));
    var g4 := SetColumn(g3, "Label", LegacyLabelCells(ns));
    var g5 := SetColumn(g4, "Level", LegacyLevelCells(LegacyTags(ns)));
    SetColumnKeeps(g5, "Is_Memo", LegacyMemoCells(ns), "Level");
  }

  /** `process_hierarchical_data` of the older builder (diagnostic printing left out). */
  function ProcessLegacy(f: Frame): (r: Result<LegacyLeveled, HierarchyError>)
    requires WellFormed(f)
    ensures r.Ok? ==> |r.value.frames| == 4
  {
    match CategoryColumnIndex(f.columns)
    case None => Err(CategoryColumnNotFound)
    case Some(c) =>
      var ns := LegacyRows(f, c);
      LegacyDecorateCells(f, ns);
      Ok(LegacySplit(LegacyDecorate(f, ns)))
  }

  /** The loop that parses and tags every row, appending to the parallel lists. */
  method ParseAndTag(f: Frame, c: nat) returns (ns: seq<LegacyNode>, tags: seq<LegacyLevel>)
    requires WellFormed(f) && c < |f.columns|
    ensures ns == LegacyRows(f, c) && tags == LegacyTags(ns)
  {
    ns, tags := [], [];
    var i := 0;
    while i < |f.rows|
      invariant 0 <= i <= |f.rows|
      invariant ns == LegacyRows(f, c)[..i]
      invariant tags == LegacyTags(ns)
    {
      var n := GetCategory(CellText(f.rows[i][c]));
      SliceSnoc(LegacyRows(f, c), i);
      LegacyTagsSnoc(ns, n);
      ns := ns + [n];
      tags := tags + [ClassifyLegacy(n)];
      i := i + 1;
    }
  }

  /** The older builder, step by step as the source runs it. */
  method BuildLegacy(f: Frame) returns (r: Result<LegacyLeveled, HierarchyError>)
    requires WellFormed(f)
    ensures r == ProcessLegacy(f)
  {
    var c := FindCategoryColumn(f.columns);
    if c.None? {
      return Err(CategoryColumnNotFound);
    }
    var ns, tags := ParseAndTag(f, c.value);
    var g := SetColumn(f, "Sector", SectorCells(ns));
    g := SetColumn(g, "Subsector", SubsectorCells(ns));
    g := SetColumn(g, "Sub_subsector", SubSubsectorCells(ns));
    g := SetColumn(g, "Label", LegacyLabelCells(ns));
    g := SetColumn(g, "Level", LegacyLevelCells(tags));
    g := SetColumn(g, "Is_Memo", LegacyMemoCells(ns));
    LegacyDecorateCells(f, ns);
    r := Ok(LegacySplit(g));
  }

  // ---------------------------------------------------------------- facts about the builder

  /** The older builder fails iff no column name contains the category phrase. */
  lemma LegacyMissingColumn(f: Frame)
    requires WellFormed(f)
    ensures ProcessLegacy(f).Err? <==> forall j :: 0 <= j < |f.columns| ==> !Contains(f.columns[j], CategoryPhrase)
  {
  }

  /**
    No context pass: each row's parse and tag depend on its own category cell only, so rows
    with equal category text get equal results wherever they stand.
  */
  lemma LegacyRowLocal(f: Frame, c: nat, i: nat, j: nat)
    requires WellFormed(f) && c < |f.columns| && i < |f.rows| && j < |f.rows|
    requires CellText(f.rows[i][c]) == CellText(f.rows[j][c])
    ensures LegacyRows(f, c)[i] == LegacyRows(f, c)[j]
    ensures LegacyTags(LegacyRows(f, c))[i] == LegacyTags(LegacyRows(f, c))[j]
  {
  }

  /**
    Row `i` of the decorated frame: a memo row is in the memo frame and in no level frame;
    any other row is in the level frame of its tag, and in none when it is tagged Unknown.
  */
  lemma LegacyPlacement(g: Frame, i: nat)
    requires HasSplitColumns(g) && i < |g.rows|
    requires g.rows[i][MemoColumn(g)].Some? && g.rows[i][MemoColumn(g)].value.Flag?
    ensures var r := LegacySplit(g);
            var row := g.rows[i];
            && (row[MemoColumn(g)] == Some(Flag(true)) <==> row in r.memo.rows)
            && (row[MemoColumn(g)] == Some(Flag(true)) ==> forall s :: 0 <= s < 4 ==> row !in r.frames[s].rows)
            && forall s :: 0 <= s < 4 ==>
                 (row in r.frames[s].rows <==> row[MemoColumn(g)] != Some(Flag(true)) && row[LevelColumn(g)] == Some(Str(LegacyLevelNames[s])))
  {
    var r := LegacySplit(g);
    var row := g.rows[i];
    var notMemo := Not(MemoMask(g));
    var main := Mask(g, notMemo);
    if row[MemoColumn(g)] == Some(Flag(true)) {
      SelectKeeps(g.rows, MemoMask(g), i);
    } else {
      SelectKeeps(g.rows, notMemo, i);
    }
    if row in r.memo.rows {
      SelectMember(g.rows, MemoMask(g), row);
    }
    forall s | 0 <= s < 4
      ensures row in r.frames[s].rows <==> row[MemoColumn(g)] != Some(Flag(true)) && row[LevelColumn(g)] == Some(Str(LegacyLevelNames[s]))
    {
      var inner := LevelMask(main, LevelColumn(g), LegacyLevelNames[s]);
      if row in r.frames[s].rows {
        SelectMember(main.rows, inner, row);
        SelectMember(g.rows, notMemo, row);
      }
      if row[MemoColumn(g)] != Some(Flag(true)) && row[LevelColumn(g)] == Some(Str(LegacyLevelNames[s])) {
        SelectMember(g.rows, notMemo, row);
        var j :| 0 <= j < |main.rows| && main.rows[j] == row;
        SelectKeeps(main.rows, inner, j);
      }
    }
  }

  lemma UnknownUnnamed()
    ensures forall s :: 0 <= s < 4 ==> LegacyLevelNames[s] != "Unknown"
  {
    forall s | 0 <= s < 4 ensures LegacyLevelNames[s] != "Unknown" {
      assert LegacyLevelNames[s][0] != 'U';
    }
  }

  /** A non-memo row whose Level cell reads Unknown is in none of the five frames. */
  lemma UnknownPlacement(g: Frame, i: nat)
    requires HasSplitColumns(g) && i < |g.rows|
    requires g.rows[i][MemoColumn(g)] == Some(Flag(false)) && g.rows[i][LevelColumn(g)] == Some(Str("Unknown"))
    ensures var r := LegacySplit(g);
            g.rows[i] !in r.memo.rows && forall s :: 0 <= s < 4 ==> g.rows[i] !in r.frames[s].rows
  {
    LegacyPlacement(g, i);
    UnknownUnnamed();
  }

  /** In the decorated frame, a non-memo row tagged Unknown has those two cells. */
  lemma UnknownDecorated(f: Frame, ns: seq<LegacyNode>, i: nat)
    requires WellFormed(f) && |ns| == |f.rows| && i < |f.rows|
    requires !ns[i].isMemo && ClassifyLegacy(ns[i]) == LUnknown
    ensures var g := LegacyDecorate(f, ns);
            && HasSplitColumns(g) && g.rows[i][MemoColumn(g)] == Some(Flag(false))
            && g.rows[i][LevelColumn(g)] == Some(Str("Unknown"))
  {
    LegacyDecorateCells(f, ns);
  }

  /** In the older builder's output, a non-memo row tagged Unknown is in none of the five frames. */
  lemma LegacyUnknownDropped(f: Frame, i: nat)
    requires WellFormed(f) && ProcessLegacy(f).Ok? && i < |f.rows|
    requires var ns := LegacyRows(f, CategoryColumnIndex(f.columns).value);
             !ns[i].isMemo && ClassifyLegacy(ns[i]) == LUnknown
    ensures var r := ProcessLegacy(f).value;
            var g := LegacyDecorate(f, LegacyRows(f, CategoryColumnIndex(f.columns).value));
            g.rows[i] !in r.memo.rows && forall s :: 0 <= s < 4 ==> g.rows[i] !in r.frames[s].rows
  {
    var ns := LegacyRows(f, CategoryColumnIndex(f.columns).value);
    UnknownDecorated(f, ns, i);
    UnknownPlacement(LegacyDecorate(f, ns), i);
  }
}
