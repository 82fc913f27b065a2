/**
  Header detection and header cleaning for the CRT workbooks: the search for the first
  header row, the flattening of the two header cells of each column through a keyword
  allowlist, the units that the first data row may carry, and the file-name parser.
*/
module HeaderDetector {
  import opened Wrappers
  import opened Text
  import opened Paths
  import opened Tables

  // ---------------------------------------------------------------- the header search

  /** The number of rows read for the search when the caller does not say. */
  const DefaultLookahead: nat := 15

  datatype HeaderError = NoHeaderRow

  /** Python truthiness of the optional anchor: given and non-empty. */
  predicate AnchorSet(anchor: Option<string>) {
    anchor.Some? && anchor.value != []
  }

  /** Python truthiness of the optional keyword list: given and non-empty. */
  predicate KeywordsSet(keywords: Option<seq<string>>) {
    keywords.Some? && keywords.value != []
  }

  /** The lower-cased anchor occurs in the lower-cased text of the cell. */
  predicate AnchorHit(text: string, anchor: Option<string>) {
    AnchorSet(anchor) && Contains(text, Lower(anchor.value))
  }

  /** Some lower-cased keyword occurs in the lower-cased text of the cell. */
  predicate KeywordHit(text: string, keywords: Option<seq<string>>) {
    KeywordsSet(keywords) && exists k :: 0 <= k < |keywords.value| && Contains(text, Lower(keywords.value[k]))
  }

  /** A non-NaN cell whose `str(cell).lower()` holds the anchor or a keyword. */
  predicate CellHit(c: Cell, anchor: Option<string>, keywords: Option<seq<string>>) {
    c.Some? && var text := Lower(CellText(c)); AnchorHit(text, anchor) || KeywordHit(text, keywords)
  }

  predicate RowHit(row: seq<Cell>, anchor: Option<string>, keywords: Option<seq<string>>) {
    exists j :: 0 <= j < |row| && CellHit(row[j], anchor, keywords)
  }

  /** The first row, top to bottom, with a hit. */
  function FirstHit(rows: seq<seq<Cell>>, anchor: Option<string>, keywords: Option<seq<string>>): (r: Option<nat>)
    ensures r.None? <==> forall i :: 0 <= i < |rows| ==> !RowHit(rows[i], anchor, keywords)
    ensures r.Some? ==> r.value < |rows| && RowHit(rows[r.value], anchor, keywords)
    ensures r.Some? ==> forall i :: 0 <= i < r.value ==> !RowHit(rows[i], anchor, keywords)
  {
    var hits := seq(|rows|, i requires 0 <= i < |rows| => RowHit(rows[i], anchor, keywords));
    assert forall i :: 0 <= i < |rows| ==> (hits[i] <==> RowHit(rows[i], anchor, keywords));
    FirstTrue(hits)
  }

  /** The first position holding true. */
  function FirstTrue(bs: seq<bool>): (r: Option<nat>)
    ensures r.None? <==> forall i :: 0 <= i < |bs| ==> !bs[i]
    ensures r.Some? ==> r.value < |bs| && bs[r.value] && forall i :: 0 <= i < r.value ==> !bs[i]
  {
    if bs == [] then None
    else if bs[0] then Some(0)
    else match FirstTrue(bs[1..])
      case None => None
      case Some(i) => Some(i + 1)
  }

  /** The rows `pd.read_excel(..., nrows=lookahead, header=None)` reads. */
  function Preview(grid: seq<seq<Cell>>, lookahead: nat): (p: seq<seq<Cell>>)
    ensures |p| == if lookahead < |grid| then lookahead else |grid|
    ensures forall i :: 0 <= i < |p| ==> p[i] == grid[i]
  {
    if lookahead < |grid| then grid[..lookahead] else grid
  }

  /**
    `detect_header_rows`: the two header rows starting at the first row of the preview with
    a hit, or the ValueError raised when there is none.
  */
  function DetectHeaderRows(grid: seq<seq<Cell>>, anchor: Option<string>, keywords: Option<seq<string>>, lookahead: nat): (r: Result<seq<nat>, HeaderError>)
    ensures r.Err? <==> forall i :: 0 <= i < |grid| && i < lookahead ==> !RowHit(grid[i], anchor, keywords)
    ensures r.Ok? ==> exists t :: r.value == [t, t + 1]
                                  && 0 <= t < |grid| && t < lookahead && RowHit(grid[t], anchor, keywords)
                                  && forall i :: 0 <= i < t ==> !RowHit(grid[i], anchor, keywords)
  {
    var p := Preview(grid, lookahead);
    match FirstHit(p, anchor, keywords)
    case None => Err(NoHeaderRow)
    case Some(t) => assert RowHit(grid[t], anchor, keywords); Ok([t, t + 1])
  }

  /** The cell test of the inner loop, as the source writes it: anchor first, then the keywords. */
  method TestCell(c: Cell, anchor: Option<string>, keywords: Option<seq<string>>) returns (hit: bool)
    ensures hit == CellHit(c, anchor, keywords)
  {
    if c.None? {
      return false;
    }
    var text := Lower(CellText(c));
    if AnchorSet(anchor) && Contains(text, Lower(anchor.value)) {
      return true;
    }
    hit := KeywordHit(text, keywords);
  }

  /** A row with a hit and no hit above it is the first hit. */
  lemma {:induction false} FirstHitAt(rows: seq<seq<Cell>>, anchor: Option<string>, keywords: Option<seq<string>>, i: nat)
    requires i < |rows| && RowHit(rows[i], anchor, keywords)
    requires forall k :: 0 <= k < i ==> !RowHit(rows[k], anchor, keywords)
    ensures FirstHit(rows, anchor, keywords) == Some(i)
  {
    var r := FirstHit(rows, anchor, keywords);
    assert r.Some?;
    assert !(r.value < i) && !(i < r.value);
  }

  /** The inner loop of `detect_header_rows`: does some cell of the row hit? */
  method ScanRow(row: seq<Cell>, anchor: Option<string>, keywords: Option<seq<string>>) returns (hit: bool)
    ensures hit == RowHit(row, anchor, keywords)
  {
    var j := 0;
    while j < |row|
      invariant 0 <= j <= |row|
      invariant forall k :: 0 <= k < j ==> !CellHit(row[k], anchor, keywords)
    {
      hit := TestCell(row[j], anchor, keywords);
      if hit {
        return;
      }
      j := j + 1;
    }
    hit := false;
  }

  /** The nested loop of `detect_header_rows`, stopping at the first row with a hit. */
  method DetectHeaderRowsLoop(grid: seq<seq<Cell>>, anchor: Option<string>, keywords: Option<seq<string>>, lookahead: nat)
    returns (r: Result<seq<nat>, HeaderError>)
    ensures r == DetectHeaderRows(grid, anchor, keywords, lookahead)
  {
    var preview := Preview(grid, lookahead);
    var i := 0;
    while i < |preview|
      invariant 0 <= i <= |preview|
      invariant forall k :: 0 <= k < i ==> !RowHit(preview[k], anchor, keywords)
    {
      var hit := ScanRow(preview[i], anchor, keywords);
      if hit {
        FirstHitAt(preview, anchor, keywords, i);
        return Ok([i, i + 1]);
      }
      i := i + 1;
    }
    r := Err(NoHeaderRow);
  }

  /** With neither an anchor nor keywords the search always raises. */
  lemma NoCriteriaRaises(grid: seq<seq<Cell>>, anchor: Option<string>, keywords: Option<seq<string>>, lookahead: nat)
    requires !AnchorSet(anchor) && !KeywordsSet(keywords)
    ensures DetectHeaderRows(grid, anchor, keywords, lookahead).Err?
  {
  }

  /**
    Anchor and keywords are tried in one pass: a keyword hit in an earlier row wins over an
    anchor that is found only in a later row.
  */
  lemma KeywordRowWins(grid: seq<seq<Cell>>, anchor: Option<string>, keywords: Option<seq<string>>, lookahead: nat,
                       i: nat, j: nat, c: nat, d: nat)
    requires i < j < |grid| && j < lookahead && c < |grid[i]| && d < |grid[j]|
    requires grid[i][c].Some? && KeywordHit(Lower(CellText(grid[i][c])), keywords)
    requires grid[j][d].Some? && AnchorHit(Lower(CellText(grid[j][d])), anchor)
    requires forall e :: 0 <= e < |grid[i]| && grid[i][e].Some? ==> !AnchorHit(Lower(CellText(grid[i][e])), anchor)
    requires forall k :: 0 <= k < i ==> !RowHit(grid[k], anchor, keywords)
    ensures DetectHeaderRows(grid, anchor, keywords, lookahead) == Ok([i, i + 1])
  {
    assert CellHit(grid[i][c], anchor, keywords);
    assert RowHit(grid[i], anchor, keywords);
    DetectHeaderRowsAt(grid, anchor, keywords, lookahead, i);
  }

  /** A row in the preview with a hit and no hit above it gives the header rows it starts. */
  lemma DetectHeaderRowsAt(grid: seq<seq<Cell>>, anchor: Option<string>, keywords: Option<seq<string>>, lookahead: nat, i: nat)
    requires i < |grid| && i < lookahead && RowHit(grid[i], anchor, keywords)
    requires forall k :: 0 <= k < i ==> !RowHit(grid[k], anchor, keywords)
    ensures DetectHeaderRows(grid, anchor, keywords, lookahead) == Ok([i, i + 1])
  {
    var r := DetectHeaderRows(grid, anchor, keywords, lookahead);
    assert r.Ok?;
    var t :| r.value == [t, t + 1] && t < |grid| && RowHit(grid[t], anchor, keywords)
             && forall k :: 0 <= k < t ==> !RowHit(grid[k], anchor, keywords);
    assert !(i < t) && !(t < i);
  }

  lemma LowerUpperChar(c: char)
    ensures LowerChar(UpperChar(c)) == LowerChar(c)
  {
  }

  /** Matching is case-insensitive: upper-casing a text cell changes no hit. */
  lemma CaseInsensitive(s: string, anchor: Option<string>, keywords: Option<seq<string>>)
    ensures CellHit(Some(Str(Upper(s))), anchor, keywords) == CellHit(Some(Str(s)), anchor, keywords)
  {
    forall i | 0 <= i < |s| ensures Lower(Upper(s))[i] == Lower(s)[i] {
      LowerUpperChar(s[i]);
    }
    assert Lower(Upper(s)) == Lower(s);
  }

  // ---------------------------------------------------------------- flattening the header

  /** The allowlist of `clean_column`, group by group as the source lists it. */
  const CategoryKeywords: seq<string> := ["SINK CATEGORIES", "SOURCE", "EMISSION", "ACTIVITY", "FACTOR"]
  const GasKeywords: seq<string> := ["CO2", "CH4", "N2O", "SF6", "HFC", "PFC", "NF3", "NF", "NO", "NMVOC", "CO", "SO"]
  /** A comma missing in the source merges 'NCV/GCV (5)' and '(kt)' into one entry. */
  const EnergyContentKeywords: seq<string> := ["GCV", "NCV", "NCV/GCV", "NCV/GCV (5)(kt)", "Mt", "t", "kg"]
  const EnergyUnitKeywords: seq<string> := ["PJ", "(TJ)"]
  const FactorKeywords: seq<string> := ["(t/TJ)", "(kg/TJ)", "kg/t", "(t/TJ)", "(kg/TJ)", "(kg/t)", "(kt)", "(Mt)", "(t)", "(kg)", "(PJ)", "(TJ)"]
  const EquivalentKeywords: seq<string> := ["CO₂ equivalents", "CO₂-eq", "CO2-eq", "CO2 eq", "t CO₂ eq", "kt CO₂ eq", "Mt CO₂ eq"]
  const OtherKeywords: seq<string> := ["captured", "transported", "injected", "stored", "Reference year", "Base year", "1990", "Change from", "NaN"]

  const RelevantKeywords: seq<string> :=
    CategoryKeywords + GasKeywords + EnergyContentKeywords + EnergyUnitKeywords
    + FactorKeywords + EquivalentKeywords + OtherKeywords

  /** A header part worth keeping: it contains some allowlist entry. */
  predicate Relevant(p: string) {
    exists k :: 0 <= k < |RelevantKeywords| && Contains(p, RelevantKeywords[k])
  }

  /** `[str(part).strip() for part in col if pd.notna(part)]`. */
  function Parts(col: seq<Cell>): (parts: seq<string>)
    ensures |parts| <= |col|
    ensures forall k :: 0 <= k < |parts| ==> Stripped(parts[k])
  {
    if col == [] then []
    else (if col[0].Some? then [Strip(CellText(col[0]))] else []) + Parts(col[1..])
  }

  /** `clean_column` of the newer reader: the relevant parts, or all parts when none is relevant, joined by spaces. */
  function CleanColumn(col: seq<Cell>): string {
    var parts := Parts(col);
    var keep := Filter(parts, Relevant);
    Strip(Join(if keep == [] then parts else keep, " "))
  }

  /** The one-letter entry "t" keeps every part that has a lower-case t anywhere. */
  lemma LetterTKeeps(p: string)
    requires 't' in p
    ensures Relevant(p)
  {
    var i :| 0 <= i < |p| && p[i] == 't';
    assert p[i..i + 1] == "t";
    ContainsAt(p, "t", i);
    assert RelevantKeywords[22] == EnergyContentKeywords[5];
  }

  /** The merged entry is in the list; 'NCV/GCV (5)' on its own is not. */
  lemma MergedEntry()
    ensures "NCV/GCV (5)(kt)" in RelevantKeywords && "NCV/GCV (5)" !in RelevantKeywords
  {
    var x := "NCV/GCV (5)";
    assert x !in CategoryKeywords && x !in GasKeywords && x !in EnergyContentKeywords;
    assert x !in EnergyUnitKeywords && x !in FactorKeywords;
    assert x !in EquivalentKeywords && x !in OtherKeywords;
    assert RelevantKeywords[20] == EnergyContentKeywords[3];
  }

  /** Where some part is relevant, the name is built from exactly the relevant parts, in order. */
  lemma CleanColumnKeeps(col: seq<Cell>)
    requires exists k :: 0 <= k < |Parts(col)| && Relevant(Parts(col)[k])
    ensures var keep := Filter(Parts(col), Relevant);
            && CleanColumn(col) == Strip(Join(keep, " "))
            && Subsequence(keep, Parts(col))
            && forall p :: p in keep <==> p in Parts(col) && Relevant(p)
  {
    var parts := Parts(col);
    var k :| 0 <= k < |parts| && Relevant(parts[k]);
    assert parts[k] in Filter(parts, Relevant);
    FilterSubsequence(parts, Relevant);
  }

  /** The fallback keeps every part, so a header with some visible text never flattens to "". */
  lemma CleanColumnNonEmpty(col: seq<Cell>, j: nat)
    requires j < |col| && col[j].Some? && HasNonSpace(CellText(col[j]))
    ensures CleanColumn(col) != []
  {
    var parts := Parts(col);
    var p := PartsHasVisible(col, j);
    var keep := Filter(parts, Relevant);
    if keep == [] {
      JoinHasNonSpace(parts, " ", p);
    } else {
      var q := keep[0];
      assert q in parts && Relevant(q);
      var k :| 0 <= k < |RelevantKeywords| && Contains(q, RelevantKeywords[k]);
      KeywordsNonEmpty(k);
      var qi :| 0 <= qi < |parts| && parts[qi] == q;
      assert q != [] by { ContainsNonEmpty(q, RelevantKeywords[k]); }
      assert HasNonSpace(q) by { assert Stripped(parts[qi]); assert !IsSpace(q[0]); }
      JoinHasNonSpace(keep, " ", 0);
    }
    StripKeepsNonSpace(Join(if keep == [] then parts else keep, " "));
  }

  lemma KeywordsNonEmpty(k: nat)
    requires k < |RelevantKeywords|
    ensures RelevantKeywords[k] != []
  {
    assert [] !in CategoryKeywords && [] !in GasKeywords && [] !in EnergyContentKeywords;
    assert [] !in EnergyUnitKeywords && [] !in FactorKeywords;
    assert [] !in EquivalentKeywords && [] !in OtherKeywords;
    assert RelevantKeywords[k] in RelevantKeywords;
  }

  lemma ContainsNonEmpty(s: string, t: string)
    requires Contains(s, t) && t != []
    ensures s != []
  {
    ContainsWitness(s, t);
  }

  /** The part that a visible header cell yields. */
  lemma {:induction false} PartsHasVisible(col: seq<Cell>, j: nat) returns (p: nat)
    requires j < |col| && col[j].Some? && HasNonSpace(CellText(col[j]))
    ensures p < |Parts(col)| && HasNonSpace(Parts(col)[p])
  {
    if j == 0 {
      StripHasNonSpace(CellText(col[0]));
      assert Parts(col)[0] == Strip(CellText(col[0]));
      p := 0;
    } else {
      var q := PartsHasVisible(col[1..], j - 1);
      if col[0].Some? {
        p := q + 1;
        assert Parts(col)[p] == Parts(col[1..])[q];
      } else {
        p := q;
        assert Parts(col) == Parts(col[1..]);
      }
    }
  }

  lemma {:induction false} JoinHasNonSpace(parts: seq<string>, sep: string, k: nat)
    requires k < |parts| && HasNonSpace(parts[k])
    ensures HasNonSpace(Join(parts, sep))
    decreases |parts|
  {
    var i :| 0 <= i < |parts[k]| && !IsSpace(parts[k][i]);
    if |parts| == 1 {
      assert Join(parts, sep) == parts[0];
    } else if k == 0 {
      var j := Join(parts, sep);
      assert j == parts[0] + sep + Join(parts[1..], sep);
      assert j[i] == parts[0][i];
    } else {
      JoinHasNonSpace(parts[1..], sep, k - 1);
      var rest := Join(parts[1..], sep);
      var n :| 0 <= n < |rest| && !IsSpace(rest[n]);
      var j := Join(parts, sep);
      assert j == (parts[0] + sep) + rest;
      assert j[|parts[0] + sep| + n] == rest[n];
    }
  }

  // ---------------------------------------------------------------- units in the first data row

  /** The unit patterns of the first-row test, line by line as the source lists them. */
  const BracketedUnits: seq<string> := ["(TJ)", "(kt)", "(Mt)", "(t)", "(kg)", "(PJ)"]
  const FactorUnits: seq<string> := ["(t/TJ)", "(kg/TJ)", "(kg/t)"]
  const EnergyContentUnits: seq<string> := ["NCV/GCV", "GCV", "NCV"]
  const EquivalentUnits: seq<string> := ["CO₂-eq", "CO2-eq", "CO2 eq", "t CO₂ eq", "kt CO₂ eq", "Mt CO₂ eq", "NCV/GCV (5)"]

  const UnitPatterns: seq<string> := BracketedUnits + FactorUnits + EnergyContentUnits + EquivalentUnits

  /** The texts the source treats as no value at all. */
  const BlankTexts: seq<string> := ["NaN", "", "nan"]

  /**
    `x in s`, and `any(p in v for p in s)`, written recursively so that the solver unfolds
    them on a long literal list only as far as a proof needs.
  */
  predicate InList(x: string, s: seq<string>) {
    s != [] && (s[0] == x || InList(x, s[1..]))
  }

  predicate HasPattern(v: string, s: seq<string>) {
    s != [] && (Contains(v, s[0]) || HasPattern(v, s[1..]))
  }

  lemma {:induction false} InListIff(x: string, s: seq<string>)
    ensures InList(x, s) <==> x in s
  {
    if s != [] {
      InListIff(x, s[1..]);
      assert s == [s[0]] + s[1..];
    }
  }

  lemma {:induction false} HasPatternIff(v: string, s: seq<string>)
    ensures HasPattern(v, s) <==> exists k :: 0 <= k < |s| && Contains(v, s[k])
  {
    if s != [] {
      HasPatternIff(v, s[1..]);
      if HasPattern(v, s[1..]) {
        var k :| 0 <= k < |s[1..]| && Contains(v, s[1..][k]);
        assert s[k + 1] == s[1..][k];
      }
      if k :| 0 <= k < |s| && Contains(v, s[k]) {
        if k > 0 {
          assert s[1..][k - 1] == s[k];
        }
      }
    }
  }

  /** The unit test: a listed pattern, or a text holding one, or a short text with both parentheses. */
  predicate LooksLikeUnit(v: string) {
    InList(v, UnitPatterns) || HasPattern(v, UnitPatterns) || ('(' in v && ')' in v && |v| < 20)
  }

  /** `str(cell)` of each cell of a row. */
  function RowTexts(row: seq<Cell>): (texts: seq<string>)
    ensures |texts| == |row| && forall i :: 0 <= i < |row| ==> texts[i] == CellText(row[i])
  {
    seq(|row|, i requires 0 <= i < |row| => CellText(row[i]))
  }

  /** The new name of a column given the text of its first-row cell: the stripped unit appended, or the name unchanged. */
  function AbsorbName(name: string, text: string): string {
    var v := Strip(text);
    if v !in BlankTexts && LooksLikeUnit(v) then Strip(name + " " + v) else name
  }

  /** The name of column `i` after the unit step; a column beyond the first row keeps its name. */
  function NewName(columns: seq<string>, texts: seq<string>, i: nat): string
    requires i < |columns|
  {
    if i < |texts| then AbsorbName(columns[i], texts[i]) else columns[i]
  }

  /** The column names after the unit step, given the texts of the first data row. */
  function AbsorbUnits(columns: seq<string>, texts: seq<string>): (names: seq<string>)
    ensures |names| == |columns|
    ensures forall i :: 0 <= i < |columns| ==> names[i] == NewName(columns, texts, i)
  {
    seq(|columns|, i requires 0 <= i < |columns| => NewName(columns, texts, i))
  }

  /** The body of that loop for a column inside the first row. */
  method UnitName(name: string, text: string) returns (r: string)
    ensures r == AbsorbName(name, text)
  {
    var v := Strip(text);
    var isUnit := LooksLikeUnit(v);
    if isUnit && v !in BlankTexts {
      r := Strip(name + " " + v);
    } else {
      r := name;
    }
  }

  /** The loop that builds `new_columns`. */
  method AbsorbUnitsLoop(columns: seq<string>, firstRow: seq<Cell>) returns (names: seq<string>)
    ensures names == AbsorbUnits(columns, RowTexts(firstRow))
  {
    ghost var texts := RowTexts(firstRow);
    names := [];
    var i := 0;
    while i < |columns|
      invariant 0 <= i <= |columns| && |names| == i
      invariant forall k :: 0 <= k < i ==> names[k] == NewName(columns, texts, k)
    {
      var name := columns[i];
      if i < |firstRow| {
        name := UnitName(columns[i], CellText(firstRow[i]));
      }
      assert name == NewName(columns, texts, i) by {
        assert i < |firstRow| ==> texts[i] == CellText(firstRow[i]);
      }
      names := names + [name];
      i := i + 1;
    }
  }

  /** A blank or "nan" text never renames its column. */
  lemma BlankKeepsName(name: string, text: string)
    requires Strip(text) in BlankTexts
    ensures AbsorbName(name, text) == name
  {
  }

  /** A NaN cell prints as "nan", so it never renames its column. */
  lemma NaNKeepsName(name: string)
    ensures AbsorbName(name, CellText(None)) == name
  {
    assert CellText(None) == "nan";
    StripOfStripped("nan");
  }

  /** A renamed column had a non-NaN, unit-looking, non-blank value in the first row. */
  lemma RenamedHadUnit(columns: seq<string>, firstRow: seq<Cell>, i: nat)
    requires i < |columns| && AbsorbUnits(columns, RowTexts(firstRow))[i] != columns[i]
    ensures i < |firstRow| && firstRow[i].Some?
    ensures var v := Strip(CellText(firstRow[i])); LooksLikeUnit(v) && v !in BlankTexts
  {
    var texts := RowTexts(firstRow);
    if i < |firstRow| && firstRow[i].None? {
      assert texts[i] == CellText(None);
      NaNKeepsName(columns[i]);
    }
  }

  /** The drop test for one non-NaN cell: note the membership test strips, the others do not. */
  predicate UnitCell(c: Cell) {
    var s := CellText(c);
    InList(Strip(s), UnitPatterns + BlankTexts) || HasPattern(s, UnitPatterns) || ('(' in s && ')' in s && |s| < 20)
  }

  /** `first_row_is_units`: every non-NaN cell of the row is a unit (vacuous for an all-NaN row). */
  predicate FirstRowIsUnits(row: seq<Cell>) {
    forall i :: 0 <= i < |row| && row[i].Some? ==> UnitCell(row[i])
  }

  /** The unit step of `read_excel_with_detected_header`; nothing happens on an empty frame. */
  function HandleUnits(f: Frame): (g: Frame)
    ensures |g.columns| == |f.columns|
    ensures f.rows == [] ==> g == f
    ensures f.rows != [] ==> g.rows == (if FirstRowIsUnits(f.rows[0]) then f.rows[1..] else f.rows)
    ensures f.rows != [] ==> g.columns == AbsorbUnits(f.columns, RowTexts(f.rows[0]))
  {
    if |f.rows| == 0 then f
    else
      var columns := AbsorbUnits(f.columns, RowTexts(f.rows[0]));
      Frame(columns, if FirstRowIsUnits(f.rows[0]) then f.rows[1..] else f.rows)
  }

  /** An all-NaN first row is dropped and renames nothing. */
  lemma AllNaNRowDropped(f: Frame)
    requires WellFormed(f) && f.rows != [] && forall i :: 0 <= i < |f.rows[0]| ==> f.rows[0][i].None?
    ensures HandleUnits(f) == Frame(f.columns, f.rows[1..])
  {
    var texts := RowTexts(f.rows[0]);
    var names := AbsorbUnits(f.columns, texts);
    forall i | 0 <= i < |f.columns| ensures names[i] == f.columns[i] {
      assert texts[i] == CellText(None);
      NaNKeepsName(f.columns[i]);
    }
  }

  /** An empty or "nan" text counts as a unit when deciding the drop, yet is never appended to a name. */
  lemma BlankTextIsUnitButNotAbsorbed(name: string, s: string)
    requires s in BlankTexts
    ensures UnitCell(Some(Str(s))) && AbsorbName(name, CellText(Some(Str(s)))) == name
  {
    assert Stripped(s) by { assert s == "NaN" || s == "" || s == "nan"; }
    StripOfStripped(s);
    assert s in UnitPatterns + BlankTexts;
    InListIff(s, UnitPatterns + BlankTexts);
  }

  // ---------------------------------------------------------------- reading with the detected header

  /**
    The frame `pd.read_excel(..., header=[r, r + 1])` returns: for each column the cells of
    its header rows, whether pandas made a multi-level header, and the data rows.
  */
  datatype HeaderTable = HeaderTable(headers: seq<seq<Cell>>, multiLevel: bool, rows: seq<seq<Cell>>)

  predicate TableWellFormed(t: HeaderTable) {
    forall i :: 0 <= i < |t.rows| ==> |t.rows[i]| == |t.headers|
  }

  /** `[clean_column(col) for col in df.columns]`. */
  function CleanedNames(headers: seq<seq<Cell>>): (names: seq<string>)
    ensures |names| == |headers| && forall j :: 0 <= j < |headers| ==> names[j] == CleanColumn(headers[j])
  {
    seq(|headers|, j requires 0 <= j < |headers| => CleanColumn(headers[j]))
  }

  /**
    `read_excel_with_detected_header` after the read: flatten the header when asked and when
    it has several levels, then the unit step. `pandasName` is the name pandas itself gives a
    column when the header is not flattened.
  */
  function ReadWithDetectedHeader(t: HeaderTable, flatten: bool, pandasName: seq<Cell> -> string): (f: Frame)
    requires TableWellFormed(t)
    ensures WellFormed(f) && |f.columns| == |t.headers|
    ensures t.rows == [] ==> f.rows == [] && (flatten && t.multiLevel ==> f.columns == CleanedNames(t.headers))
    ensures t.rows != [] ==> f.rows == (if FirstRowIsUnits(t.rows[0]) then t.rows[1..] else t.rows)
    ensures flatten && t.multiLevel && t.rows != [] ==> f.columns == AbsorbUnits(CleanedNames(t.headers), RowTexts(t.rows[0]))
  {
    var names := if flatten && t.multiLevel
                 then CleanedNames(t.headers)
                 else seq(|t.headers|, j requires 0 <= j < |t.headers| => pandasName(t.headers[j]));
    HandleUnits(Frame(names, t.rows))
  }

  /** A flattened sheet whose first data row is empty keeps the cleaned names and loses that row. */
  lemma FlattenedBlankFirstRow(t: HeaderTable, pandasName: seq<Cell> -> string)
    requires TableWellFormed(t) && t.multiLevel && t.rows != []
    requires forall i :: 0 <= i < |t.rows[0]| ==> t.rows[0][i].None?
    ensures ReadWithDetectedHeader(t, true, pandasName) == Frame(CleanedNames(t.headers), t.rows[1..])
  {
    AllNaNRowDropped(Frame(CleanedNames(t.headers), t.rows));
  }

  // ---------------------------------------------------------------- the file name

  /**
    `extract_year_from_filename`: the country code and reporting year of a file name
    'CCC-CRT-yyyy-Vx-YEAR-...', or None where the source returns (None, None).
  */
  function ExtractYear(filename: string): (r: Option<(string, int)>)
    ensures r.Some? <==> |Split(StripExtension(filename), '-')| >= 5 && ParseInt(Split(StripExtension(filename), '-')[4]).Some?
    ensures r.Some? ==> r.value.0 == Split(StripExtension(filename), '-')[0] && '-' !in r.value.0
    ensures r.Some? ==> r.value.1 == ParseInt(Split(StripExtension(filename), '-')[4]).value
  {
    var parts := Split(StripExtension(filename), '-');
    if |parts| >= 5 then
      match ParseInt(parts[4])
      case None => None
      case Some(year) => Some((parts[0], year))
    else None
  }

  /**
    A name 'CCC-CRT-yyyy-Vx.y-YEAR-...' with a one-part extension gives its country code and
    the year written in its fifth field; dots inside the fields (the version) do no harm.
  */
  lemma ExtractYearOfCrtName(parts: seq<string>, year: nat, ext: string)
    requires |parts| >= 5 && parts[4] == NatToString(year) && parts[0] != [] && parts[0][0] != '.'
    requires forall k :: 0 <= k < |parts| ==> '-' !in parts[k] && '/' !in parts[k]
    requires '.' !in ext && '/' !in ext
    ensures ExtractYear(Join(parts, "-") + "." + ext) == Some((parts[0], year))
  {
    var stem := Join(parts, "-");
    assert stem == parts[0] + "-" + Join(parts[1..], "-");
    JoinLacks(parts, "-", '/');
    StripExtensionOf(stem, ext);
    SplitJoin(parts, '-');
    assert IntToString(year) == parts[4];
    ParseIntOfIntToString(year);
  }

  /** The documented example: 'GBR-CRT-2025-V0.6-1990-20250415-091720.xlsx' gives ('GBR', 1990). */
  lemma ExtractYearGbrExample()
    ensures ExtractYear("GBR-CRT-2025-V0.6-1990-20250415-091720.xlsx") == Some(("GBR", 1990))
  {
    ExtractYearOfGbrName("GBR-CRT-2025-V0.6-1990-20250415-091720.xlsx");
  }

  lemma ExtractYearOfGbrName(name: string)
    requires name == "GBR-CRT-2025-V0.6-1990-20250415-091720.xlsx"
    ensures ExtractYear(name) == Some(("GBR", 1990))
  {
    var parts := ["GBR", "CRT", "2025", "V0.6", "1990", "20250415", "091720"];
    YearText1990();
    GbrNameFields();
    assert name == Join(parts, "-") + "." + "xlsx";
    ExtractYearOfCrtName(parts, 1990, "xlsx");
  }

  lemma YearText1990()
    ensures NatToString(1990) == "1990"
  {
    assert NatToString(1) == "1";
    assert NatToString(19) == NatToString(1) + "9";
    assert NatToString(199) == NatToString(19) + "9";
    assert NatToString(1990) == NatToString(199) + "0";
  }

  lemma GbrNameFields()
    ensures Join(["GBR", "CRT", "2025", "V0.6", "1990", "20250415", "091720"], "-") == "GBR-CRT-2025-V0.6-1990-20250415-091720"
  {
    var parts := ["GBR", "CRT", "2025", "V0.6", "1990", "20250415", "091720"];
    assert Join(parts[5..], "-") == "20250415-091720";
    assert Join(parts[3..], "-") == "V0.6-" + Join(parts[4..], "-");
    assert Join(parts[1..], "-") == "CRT-" + Join(parts[2..], "-");
  }
}
