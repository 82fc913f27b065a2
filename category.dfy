/**
  The category-label parser of ghg_processing/unfccc/process_hierarchy.py
  (`get_category`): one category string becomes its hierarchy segments, its label
  and two flags.
*/
module Category {
  import opened Wrappers
  import opened Text

  /** The parsed form of one category string. */
  datatype CategoryNode = CategoryNode(levels: seq<string>, title: string, isMemo: bool, isNumbered: bool)

  /** The prefixes that mark a memo item. */
  predicate IsMemoText(s: string) {
    StartsWith(s, "Memo items:") || StartsWith(s, "1.D.") || StartsWith(s, "5.F.")
    || StartsWith(s, "Indirect N2O") || StartsWith(s, "Indirect CO2")
  }

  /** The numbering test: a leading digit and a '.' anywhere. */
  predicate IsNumberedText(s: string) {
    |s| > 0 && IsDigit(s[0]) && '.' in s
  }

  /** Segments that a numbered code can be written from: at least two, non-empty, free of '.' and ' ', the first starting with a digit. */
  predicate WritableSegments(segments: seq<string>) {
    && |segments| >= 2
    && (forall k :: 0 <= k < |segments| ==> segments[k] != [] && '.' !in segments[k] && ' ' !in segments[k])
    && IsDigit(segments[0][0])
  }

  /** The code and label of a numbered string: around the first space, else the whole string for both. */
  function CodeAndLabel(s: string): (string, string) {
    match SplitFirst(s, ' ')
    case Some((code, title)) => (code, title)
    case None => (s, s)
  }

  /** `get_category` of the newer hierarchy builder. */
  function ParseCategory(raw: string): (n: CategoryNode)
    ensures n.isNumbered ==> |n.levels| >= 1 && n.levels[0] != [] && IsDigit(n.levels[0][0])
    ensures !n.isNumbered ==> n.levels == []
  {
    var s := Strip(raw);
    if StartsWith(s, "Total") then CategoryNode([], s, false, false)
    else
      var memo := IsMemoText(s);
      if IsNumberedText(s) then
        var (code, title) := CodeAndLabel(s);
        CodeStartsWithDigit(s);
        var segments := Split(StripDots(code), '.');
        StripDotsKeepsHead(code);
        SplitHead(StripDots(code), '.');
        CategoryNode(segments, Strip(title), memo, true)
      else CategoryNode([], s, memo, false)
  }

  // ---------------------------------------------------------------- helper facts

  lemma CodeStartsWithDigit(s: string)
    requires IsNumberedText(s)
    ensures CodeAndLabel(s).0 != [] && IsDigit(CodeAndLabel(s).0[0])
  {
    match SplitFirst(s, ' ')
    case None =>
    case Some((code, title)) =>
      assert s == code + [' '] + title;
      assert s[0] == (code + [' '] + title)[0];
  }

  lemma StripDotsKeepsHead(code: string)
    requires code != [] && code[0] != '.'
    ensures StripDots(code) != [] && StripDots(code)[0] == code[0]
  {
    var r := StripDots(code);
    var a, b :| DotMargins(code, a, b) && r == code[a..b];
    assert a == 0;
    assert b > 0;
  }

  lemma SplitHead(s: string, sep: char)
    requires s != [] && s[0] != sep
    ensures Split(s, sep)[0] != [] && Split(s, sep)[0][0] == s[0]
  {
    SplitFirstPart(s, sep);
  }

  lemma StripDotsNoop(code: string)
    requires code != [] && code[0] != '.' && code[|code| - 1] != '.'
    ensures StripDots(code) == code
  {
    var r := StripDots(code);
    var a, b :| DotMargins(code, a, b) && r == code[a..b];
    assert a == 0;
    assert b == |code|;
  }

  lemma {:induction false} JoinShape(parts: seq<string>, sep: string)
    requires |parts| >= 1 && forall k :: 0 <= k < |parts| ==> parts[k] != []
    ensures Join(parts, sep) != []
    ensures Join(parts, sep)[0] == parts[0][0]
    ensures Join(parts, sep)[|Join(parts, sep)| - 1] == parts[|parts| - 1][|parts[|parts| - 1]| - 1]
  {
    if |parts| > 1 {
      JoinShape(parts[1..], sep);
    }
  }

  lemma {:induction false} JoinAvoids(parts: seq<string>, sep: string, c: char)
    requires c !in sep && forall k :: 0 <= k < |parts| ==> c !in parts[k]
    ensures c !in Join(parts, sep)
  {
    if |parts| > 1 { JoinAvoids(parts[1..], sep, c); }
  }

  lemma JoinHasSeparator(parts: seq<string>, sep: char)
    requires |parts| >= 2
    ensures sep in Join(parts, [sep])
  {
    assert Join(parts, [sep]) == parts[0] + [sep] + Join(parts[1..], [sep]);
    assert Join(parts, [sep])[|parts[0]|] == sep;
  }

  // ---------------------------------------------------------------- properties

  /** A string that starts with "Total" is never numbered and never a memo item, even with a memo prefix. */
  lemma ParseTotal(raw: string)
    requires StartsWith(Strip(raw), "Total")
    ensures ParseCategory(raw) == CategoryNode([], Strip(raw), false, false)
  {
  }

  /** Outside the Total case, the memo flag is exactly the five-prefix test. */
  lemma ParseMemo(raw: string)
    requires !StartsWith(Strip(raw), "Total")
    ensures ParseCategory(raw).isMemo <==> IsMemoText(Strip(raw))
  {
  }

  /**
    Outside the Total case, a row is numbered iff it starts with a digit and has a '.';
    unnumbered rows keep no segments and the stripped text as label.
  */
  lemma ParseNumbered(raw: string)
    requires !StartsWith(Strip(raw), "Total")
    ensures ParseCategory(raw).isNumbered <==> IsNumberedText(Strip(raw))
    ensures !IsNumberedText(Strip(raw)) ==> ParseCategory(raw).levels == [] && ParseCategory(raw).title == Strip(raw)
  {
  }

  /**
    A numbered row's segments are its code with outer dots stripped, cut at every '.',
    so joining them with '.' gives that code back; the title is the stripped rest after the
    first space, or the whole string when there is no space.
  */
  lemma ParseNumberedShape(raw: string)
    requires IsNumberedText(Strip(raw)) && !StartsWith(Strip(raw), "Total")
    ensures var s := Strip(raw);
            var n := ParseCategory(raw);
            && Join(n.levels, ".") == StripDots(CodeAndLabel(s).0)
            && (forall k :: 0 <= k < |n.levels| ==> '.' !in n.levels[k])
            && (' ' in s ==> ' ' !in CodeAndLabel(s).0 && s == CodeAndLabel(s).0 + " " + CodeAndLabel(s).1
                             && n.title == Strip(CodeAndLabel(s).1))
            && (' ' !in s ==> CodeAndLabel(s).0 == s && n.title == Strip(s))
  {
    var s := Strip(raw);
    JoinSplit(StripDots(CodeAndLabel(s).0), '.');
  }

  /** The code written from dot-free, space-free segments: no space, nothing for `strip('.')` to remove. */
  lemma WrittenCode(segments: seq<string>)
    requires WritableSegments(segments)
    ensures var code := Join(segments, ".");
            && code != [] && IsDigit(code[0])
            && ' ' !in code && '.' in code && StripDots(code) == code
  {
    var code := Join(segments, ".");
    JoinShape(segments, ".");
    JoinAvoids(segments, ".", ' ');
    JoinHasSeparator(segments, '.');
    var last := segments[|segments| - 1];
    assert last[|last| - 1] in last;
    assert code[0] in segments[0];
    StripDotsNoop(code);
  }

  lemma CodeSplits(segments: seq<string>)
    requires WritableSegments(segments)
    ensures Split(Join(segments, "."), '.') == segments
  {
    SplitJoin(segments, '.');
  }

  /** A code starting with a digit, a space and a stripped label make a stripped string. */
  lemma WrittenStripped(code: string, title: string)
    requires code != [] && IsDigit(code[0])
    requires title != [] && Stripped(title)
    ensures Strip(code + " " + title) == code + " " + title
  {
    var s := code + " " + title;
    assert s[0] == code[0];
    assert s[|s| - 1] == title[|title| - 1];
    StripOfStripped(s);
  }

  /** ... and that string is not a Total row and is numbered. */
  lemma WrittenNumbered(code: string, title: string)
    requires code != [] && IsDigit(code[0]) && '.' in code
    ensures !StartsWith(code + " " + title, "Total") && IsNumberedText(code + " " + title)
  {
    var s := code + " " + title;
    assert s[0] == code[0];
    assert !StartsWith(s, "Total") by { assert s[0] != 'T'; }
    assert '.' in s by { assert s[..|code|] == code; }
  }

  /** The numbered branch of the parser, for an already stripped string with known code and label. */
  lemma ParseNumberedForm(s: string, code: string, title: string)
    requires Strip(s) == s && !StartsWith(s, "Total") && IsNumberedText(s)
    requires CodeAndLabel(s) == (code, title)
    ensures var n := ParseCategory(s);
            n.levels == Split(StripDots(code), '.') && n.title == Strip(title) && n.isNumbered
  {
  }

  /** What the parser needs to know about a written code followed by a space and a label. */
  lemma WrittenFacts(code: string, title: string)
    requires code != [] && IsDigit(code[0]) && ' ' !in code && '.' in code
    requires title != [] && Stripped(title)
    ensures var s := code + " " + title;
            && Strip(s) == s && !StartsWith(s, "Total") && IsNumberedText(s)
            && CodeAndLabel(s) == (code, title)
            && Strip(title) == title
  {
    var s := code + " " + title;
    WrittenStripped(code, title);
    WrittenNumbered(code, title);
    SplitFirstAt(code, title, ' ');
    StripOfStripped(title);
  }

  /** The parse of a written code, a space and a label, from the facts about the code. */
  lemma ParseWritten(code: string, segments: seq<string>, title: string)
    requires code != [] && IsDigit(code[0]) && ' ' !in code && '.' in code
    requires Split(StripDots(code), '.') == segments
    requires title != [] && Stripped(title)
    ensures var n := ParseCategory(code + " " + title);
            n.levels == segments && n.title == title && n.isNumbered
  {
    WrittenFacts(code, title);
    ParseNumberedForm(code + " " + title, code, title);
  }

  /**
    Round trip: writing dot-free, space-free segments (at least two) joined by '.',
    a space and a stripped label, and parsing that, gives back the segments and the label.
  */
  lemma ParseRoundTrip(segments: seq<string>, title: string)
    requires WritableSegments(segments)
    requires title != [] && Stripped(title)
    ensures var n := ParseCategory(Join(segments, ".") + " " + title);
            n.levels == segments && n.title == title && n.isNumbered
  {
    WrittenCode(segments);
    CodeSplits(segments);
    ParseWritten(Join(segments, "."), segments, title);
  }

  /** A deep code: every segment kept, the label after the first space. */
  lemma ParseDeepExample()
    ensures ParseCategory("1.A.2.a Manufacturing").levels == ["1", "A", "2", "a"]
    ensures ParseCategory("1.A.2.a Manufacturing").title == "Manufacturing"
  {
    assert Join(["1", "A", "2", "a"], ".") == "1.A.2.a";
    assert "1.A.2.a Manufacturing" == Join(["1", "A", "2", "a"], ".") + " " + "Manufacturing";
    ParseRoundTrip(["1", "A", "2", "a"], "Manufacturing");
  }

  /** The facts about a one-digit code with a trailing dot. */
  lemma TrailingDotCode(d: char)
    requires IsDigit(d)
    ensures Split(StripDots([d, '.']), '.') == [[d]]
  {
    var code := [d, '.'];
    assert TrimLeftDots(code) == code;
    assert code[..1] == [d];
    assert TrimRightDots(code) == [d];
    assert StripDots(code) == [d];
    assert IndexOf([d], '.') == None;
  }

  /** A one-digit code with a trailing dot ("1. Energy") keeps one segment, the digit. */
  lemma ParseTrailingDot(d: char, title: string)
    requires IsDigit(d)
    requires title != [] && Stripped(title)
    ensures ParseCategory([d, '.', ' '] + title).levels == [[d]]
    ensures ParseCategory([d, '.', ' '] + title).title == title
  {
    assert [d, '.', ' '] + title == [d, '.'] + " " + title;
    TrailingDotCode(d);
    ParseWritten([d, '.'], [[d]], title);
  }

  /** "1 Energy" has no '.', so it is not numbered and keeps its whole text as label. */
  lemma ParseUnnumberedExample()
    ensures ParseCategory("1 Energy") == CategoryNode([], "1 Energy", false, false)
  {
    var s := "1 Energy";
    assert Stripped(s) by { assert s[0] == '1' && s[|s| - 1] == 'y'; }
    StripOfStripped(s);
    assert !StartsWith(s, "Total") by { assert s[0] != "Total"[0]; }
    assert !IsMemoText(s) by { assert s[0] == '1' && s[1] == ' '; }
    assert !IsNumberedText(s) by { assert forall i :: 0 <= i < |s| ==> s[i] != '.'; }
  }
}
