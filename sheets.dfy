/**
  `process_summary_sheet`: every CRT workbook of one country folder is read at its detected
  header, its gas columns get their standard names, the category column is located, empty rows
  and columns are dropped, the gas and year columns are kept, the rows are stamped with sheet,
  country and year, split into the hierarchy levels, and each non-empty level is written.
*/
module SheetProcessor {
  import opened Wrappers
  import opened Text
  import opened Paths
  import opened Tables
  import opened HeaderDetector
  import opened Hierarchy
  import opened GasPivot

  // ---------------------------------------------------------------- standard gas names

  /** The keys of `GAS_STANDARD_NAMES`, in the order the dictionary lists them. */
  const GasKeys: seq<string> :=
    ["CO2 (1) CO2 equivalents (kt ) (2)", "CO2", "CH4", "N2O", "HFCs", "PFCs",
     "Unspecified mix of HFCs and PFCs", "SF6", "NF3"]

  /** The values of `GAS_STANDARD_NAMES`, position by position. */
  const GasNames: seq<string> :=
    ["CO₂ (kt)", "CO₂ (kt)", "CH₄ (kt)", "N₂O (kt)", "HFCs (kt)", "PFCs (kt)",
     "HFC+PFC Mix (kt)", "SF₆ (kt)", "NF₃ (kt)"]

  /** The name a column gets: the standard name of its stripped name, or its own name unstripped. */
  function StandardName(col: string): string {
    match Find(GasKeys, Strip(col))
    case None => col
    case Some(k) => GasNames[k]
  }

  /** A name whose stripped form is no key is kept as it was, unstripped; a key gets a standard name. */
  lemma StandardNameCases(col: string)
    ensures Strip(col) !in GasKeys ==> StandardName(col) == col
    ensures Strip(col) in GasKeys ==> StandardName(col) in GasNames && StandardName(col) != col
  {
    if Strip(col) in GasKeys {
      var k := Find(GasKeys, Strip(col)).value;
      GasNameIsStandard(k);
    }
  }

  /** `df.columns = new_columns`: one standard name per column, in column order. */
  function StandardNames(columns: seq<string>): (names: seq<string>)
    ensures |names| == |columns|
    ensures forall j :: 0 <= j < |columns| ==> names[j] == StandardName(columns[j])
  {
    Images(StandardName, columns)
  }

  /** One step of the renaming loop: strip, look the name up, keep the original when it misses. */
  method RenameColumn(col: string) returns (name: string)
    ensures name == StandardName(col)
  {
    var clean := Strip(col);
    var k := Find(GasKeys, clean);
    if k.Some? {
      name := GasNames[k.value];
    } else {
      name := col;
    }
  }

  /** The loop that builds `new_columns`. */
  method RenameColumns(columns: seq<string>) returns (names: seq<string>)
    ensures names == StandardNames(columns)
  {
    names := [];
    var i := 0;
    while i < |columns|
      invariant 0 <= i <= |columns| && names == Images(StandardName, columns[..i])
    {
      var name := RenameColumn(columns[i]);
      ImagesSnoc(StandardName, columns[..i], columns[i]);
      assert columns[..i + 1] == columns[..i] + [columns[i]];
      names := names + [name];
      i := i + 1;
    }
    assert columns[..i] == columns;
  }

  /** The standard names are already stripped and are not keys themselves. */
  lemma GasNameIsStandard(k: nat)
    requires k < |GasNames|
    ensures Strip(GasNames[k]) == GasNames[k] && GasNames[k] !in GasKeys
  {
    var v := GasNames[k];
    assert !IsSpace(v[0]) && !IsSpace(v[|v| - 1]);
    StripOfStripped(v);
  }

  /** Renaming is idempotent: a renamed column keeps its new name when renamed again. */
  lemma StandardNameIdempotent(col: string)
    ensures StandardName(StandardName(col)) == StandardName(col)
  {
    if Strip(col) in GasKeys {
      GasNameIsStandard(Find(GasKeys, Strip(col)).value);
    }
  }

  /** Both CO2 spellings get the same standard name. */
  lemma TwoKeysForCarbonDioxide()
    ensures StandardName(GasKeys[0]) == StandardName(GasKeys[1]) == "CO₂ (kt)"
  {
    assert !IsSpace(GasKeys[0][0]) && !IsSpace(GasKeys[0][|GasKeys[0]| - 1]);
    assert !IsSpace(GasKeys[1][0]) && !IsSpace(GasKeys[1][|GasKeys[1]| - 1]);
    StripOfStripped(GasKeys[0]);
    StripOfStripped(GasKeys[1]);
  }

  /** A pattern longer than the text never occurs in it. */
  lemma {:induction false} ContainsTooLong(s: string, t: string)
    requires |s| < |t|
    ensures !Contains(s, t)
    decreases |s|
  {
    if s != [] {
      ContainsTooLong(s[1..], t);
    }
  }

  /** A pattern that starts and ends with visible characters survives stripping. */
  lemma StripContains(s: string, t: string)
    requires t != [] && !IsSpace(t[0]) && !IsSpace(t[|t| - 1])
    ensures Contains(s, t) ==> Contains(Strip(s), t)
  {
    if Contains(s, t) {
      var r := Strip(s);
      var a, b := StripMargins(s);
      MarginsContain(s, t, a, b);
    }
  }

  lemma MarginsContain(s: string, t: string, a: int, b: int)
    requires t != [] && !IsSpace(t[0]) && !IsSpace(t[|t| - 1]) && Contains(s, t)
    requires SpaceMargins(s, a, b)
    ensures Contains(s[a..b], t)
  {
    ContainsWitness(s, t);
    var i :| OccursAt(s, t, i);
    MarginsContainAt(s, t, a, b, i);
  }

  lemma MarginsContainAt(s: string, t: string, a: int, b: int, i: int)
    requires t != [] && !IsSpace(t[0]) && !IsSpace(t[|t| - 1])
    requires SpaceMargins(s, a, b) && OccursAt(s, t, i)
    ensures Contains(s[a..b], t)
  {
    OccurrenceInside(s, t, a, b, i);
    SliceOfSlice(s, a, b, i, |t|);
    ContainsAt(s[a..b], t, i - a);
  }

  /** An occurrence of a pattern with visible ends lies between the whitespace margins. */
  lemma OccurrenceInside(s: string, t: string, a: int, b: int, i: int)
    requires t != [] && !IsSpace(t[0]) && !IsSpace(t[|t| - 1])
    requires SpaceMargins(s, a, b) && OccursAt(s, t, i)
    ensures a <= i && i + |t| <= b
  {
    assert s[i] == t[0] && s[i + |t| - 1] == t[|t| - 1];
  }

  lemma SliceOfSlice(s: string, a: nat, b: nat, i: nat, n: nat)
    requires a <= i && i + n <= b <= |s|
    ensures s[a..b][i - a..i - a + n] == s[i..i + n]
  {
    var u, w := s[a..b][i - a..i - a + n], s[i..i + n];
    forall k | 0 <= k < n ensures u[k] == w[k] {
      assert s[a..b][i - a + k] == s[i + k];
    }
    assert u == w;
  }

  /** Keys and standard names are all shorter than the category phrase. */
  lemma GasNamesShort(k: nat)
    requires k < |GasKeys|
    ensures |GasKeys[k]| < |CategoryPhrase| && |GasNames[k]| < |CategoryPhrase|
  {
  }

  /** A column renamed by the table has neither the old nor the new name containing the category phrase. */
  lemma KeyLacksCategory(col: string, k: nat)
    requires k < |GasKeys| && Strip(col) == GasKeys[k]
    ensures !Contains(col, CategoryPhrase) && !Contains(GasNames[k], CategoryPhrase)
  {
    GasNamesShort(k);
    ContainsTooLong(GasNames[k], CategoryPhrase);
    ContainsTooLong(GasKeys[k], CategoryPhrase);
    StripContains(col, CategoryPhrase);
  }

  /** Renaming neither creates nor removes the category phrase, so it never moves the category column. */
  lemma RenamingKeepsCategory(col: string)
    ensures Contains(StandardName(col), CategoryPhrase) <==> Contains(col, CategoryPhrase)
  {
    var k := Find(GasKeys, Strip(col));
    if k.Some? {
      KeyLacksCategory(col, k.value);
    }
  }

  // ---------------------------------------------------------------- numeric coercion and the two drops

  /** `pd.to_numeric(errors='coerce')` on one cell: NaN stays NaN, any other value becomes what `numeric` makes of it. */
  function ToNumeric(c: Cell, numeric: Value -> Cell): (r: Cell)
    ensures c.None? ==> r.None?
  {
    match c
    case None => None
    case Some(v) => numeric(v)
  }

  /** Where column `j` ends up once the column at `c` has moved to the front. */
  function Moved(j: nat, c: nat): nat {
    if j < c then j + 1 else j
  }

  /** One row of `pd.concat([categories, numeric_df], axis=1)`: the category cell first, the others coerced. */
  function CoerceRow(row: seq<Cell>, c: nat, numeric: Value -> Cell): (r: seq<Cell>)
    requires c < |row|
    ensures |r| == |row| && r[0] == row[c]
    ensures forall j :: 0 <= j < |row| && j != c ==> r[Moved(j, c)] == ToNumeric(row[j], numeric)
  {
    [row[c]] + seq(|row| - 1, j requires 0 <= j < |row| - 1 => ToNumeric(row[if j < c then j else j + 1], numeric))
  }

  /** The category column moved to the front and every other column coerced to numbers. */
  function Coerce(f: Frame, c: nat, numeric: Value -> Cell): (g: Frame)
    requires WellFormed(f) && c < |f.columns|
    ensures WellFormed(g) && |g.rows| == |f.rows|
    ensures g.columns == [f.columns[c]] + f.columns[..c] + f.columns[c + 1..]
    ensures forall i :: 0 <= i < |f.rows| ==> g.rows[i] == CoerceRow(f.rows[i], c, numeric)
  {
    Frame([f.columns[c]] + f.columns[..c] + f.columns[c + 1..],
          seq(|f.rows|, i requires 0 <= i < |f.rows| => CoerceRow(f.rows[i], c, numeric)))
  }

  /** Some cell after the leading category cell is present. */
  predicate HasData(row: seq<Cell>) {
    exists j :: 1 <= j < |row| && row[j].Some?
  }

  /** `df.dropna(axis=0, how='all', subset=numeric_df.columns)`: the rows with a value outside the category column. */
  function DropEmptyRows(g: Frame): (r: Frame)
    requires WellFormed(g)
    ensures WellFormed(r) && r.columns == g.columns
    ensures forall row :: row in r.rows ==> row in g.rows && HasData(row)
    ensures forall i :: 0 <= i < |g.rows| && HasData(g.rows[i]) ==> g.rows[i] in r.rows
    ensures Subsequence(r.rows, g.rows)
  {
    var rows := Filter(g.rows, HasData);
    FilterSubsequence(g.rows, HasData);
    assert forall i :: 0 <= i < |rows| ==> |rows[i]| == |g.columns| by {
      forall i | 0 <= i < |rows| ensures |rows[i]| == |g.columns| {
        assert rows[i] in g.rows;
      }
    }
    Frame(g.columns, rows)
  }

  /** A coerced row has a value outside the category cell iff the original row has a non-category cell that coerces to one. */
  lemma CoercedHasData(row: seq<Cell>, c: nat, numeric: Value -> Cell)
    requires c < |row|
    ensures HasData(CoerceRow(row, c, numeric)) <==> exists j :: 0 <= j < |row| && j != c && ToNumeric(row[j], numeric).Some?
  {
    var r := CoerceRow(row, c, numeric);
    if HasData(r) {
      var m :| 1 <= m < |r| && r[m].Some?;
      var j := if m <= c then m - 1 else m;
      assert Moved(j, c) == m;
    }
    if exists j :: 0 <= j < |row| && j != c && ToNumeric(row[j], numeric).Some? {
      var j :| 0 <= j < |row| && j != c && ToNumeric(row[j], numeric).Some?;
      assert r[Moved(j, c)].Some?;
    }
  }

  /**
    A row survives the row drop iff some non-category cell holds a value after coercion; the
    category cell alone never keeps a row.
  */
  lemma RowKeptIff(f: Frame, c: nat, numeric: Value -> Cell, i: nat)
    requires WellFormed(f) && c < |f.columns| && i < |f.rows|
    ensures var g := Coerce(f, c, numeric);
            g.rows[i] in DropEmptyRows(g).rows
            <==> exists j :: 0 <= j < |f.columns| && j != c && ToNumeric(f.rows[i][j], numeric).Some?
  {
    CoercedHasData(f.rows[i], c, numeric);
  }

  /** Column `j` holds a value in some row. */
  predicate ColumnHasData(g: Frame, j: nat)
    requires WellFormed(g) && j < |g.columns|
  {
    exists i :: 0 <= i < |g.rows| && g.rows[i][j].Some?
  }

  /** The mask of the columns `df.dropna(axis=1, how='all')` keeps. */
  function ColumnMask(g: Frame): (keep: seq<bool>)
    requires WellFormed(g)
    ensures |keep| == |g.columns|
    ensures forall j :: 0 <= j < |keep| ==> (keep[j] <==> ColumnHasData(g, j))
  {
    seq(|g.columns|, j requires 0 <= j < |g.columns| => ColumnHasData(g, j))
  }

  /** `df.dropna(axis=1, how='all')`: the same selection on the names and on every row. */
  function DropEmptyColumns(g: Frame): (r: Frame)
    requires WellFormed(g)
    ensures WellFormed(r) && |r.rows| == |g.rows|
  {
    var keep := ColumnMask(g);
    Frame(Select(g.columns, keep), seq(|g.rows|, i requires 0 <= i < |g.rows| => Select(g.rows[i], keep)))
  }

  lemma {:induction false} SelectNothing<T>(xs: seq<T>, keep: seq<bool>)
    requires |keep| == |xs| && forall j :: 0 <= j < |keep| ==> !keep[j]
    ensures Select(xs, keep) == []
  {
    if xs != [] {
      SelectNothing(xs[1..], keep[1..]);
    }
  }

  /**
    The names that survive are exactly those of columns with a value somewhere; a frame without
    rows loses every column.
  */
  lemma DropEmptyColumnsNames(g: Frame)
    requires WellFormed(g)
    ensures var r := DropEmptyColumns(g);
            && (forall j :: 0 <= j < |g.columns| && ColumnHasData(g, j) ==> g.columns[j] in r.columns)
            && (forall x :: x in r.columns ==> exists j :: 0 <= j < |g.columns| && g.columns[j] == x && ColumnHasData(g, j))
            && (g.rows == [] ==> r.columns == [])
  {
    var keep := ColumnMask(g);
    forall j | 0 <= j < |g.columns| && ColumnHasData(g, j) ensures g.columns[j] in Select(g.columns, keep) {
      SelectKeeps(g.columns, keep, j);
    }
    forall x | x in Select(g.columns, keep)
      ensures exists j :: 0 <= j < |g.columns| && g.columns[j] == x && ColumnHasData(g, j)
    {
      SelectMember(g.columns, keep, x);
    }
    if g.rows == [] {
      SelectNothing(g.columns, keep);
    }
  }

  // ---------------------------------------------------------------- the gas and year column filter

  /** The gas keywords of the filter, with the standard subscripted spellings. */
  const GasKeywords: seq<string> :=
    ["CO₂", "CH₄", "N₂O", "SF₆", "HFC", "PFC", "NF₃", "Base year (1)", "Change from base to latest"]

  /** `[str(year) for year in range(1990, 2023 + 1)]`. */
  function YearKeywords(): (years: seq<string>)
    ensures |years| == 34 && forall k :: 0 <= k < 34 ==> years[k] == IntToString(1990 + k)
  {
    seq(34, k => IntToString(1990 + k))
  }

  /** `ghg_keywords`: the gas keywords, then the years. */
  function GhgKeywords(): seq<string> {
    GasKeywords + YearKeywords()
  }

  /** `any(k in col for k in ghg_keywords)`. */
  predicate KeywordColumn(col: string) {
    exists k :: 0 <= k < |GhgKeywords()| && Contains(col, GhgKeywords()[k])
  }

  /** A column whose name holds a year from 1990 to 2023 is kept. */
  lemma YearColumnKept(col: string, year: int)
    requires 1990 <= year <= 2023 && Contains(col, IntToString(year))
    ensures KeywordColumn(col)
  {
    assert GhgKeywords()[9 + year - 1990] == YearKeywords()[year - 1990] == IntToString(year);
  }

  lemma KeywordPrefix(col: string, m: nat)
    requires m < |GasKeywords| && StartsWith(col, GasKeywords[m])
    ensures KeywordColumn(col)
  {
    PrefixContained(col, GasKeywords[m]);
    assert GhgKeywords()[m] == GasKeywords[m];
  }

  /** Every standard gas name passes the filter, so a renamed gas column is never filtered away. */
  lemma StandardNamesKept(k: nat)
    requires k < |GasNames|
    ensures KeywordColumn(GasNames[k])
  {
    var m := [0, 0, 1, 2, 4, 5, 4, 3, 6][k];
    assert StartsWith(GasNames[k], GasKeywords[m]);
    KeywordPrefix(GasNames[k], m);
  }

  /** `df[name_list]`: the columns named, in the order named (column names taken to be distinct). */
  function ColumnsByName(g: Frame, names: seq<string>): (r: Frame)
    requires WellFormed(g) && forall k :: 0 <= k < |names| ==> names[k] in g.columns
    ensures WellFormed(r) && r.columns == names && |r.rows| == |g.rows|
    ensures forall i, k :: 0 <= i < |g.rows| && 0 <= k < |names| ==> r.rows[i][k] == g.rows[i][Find(g.columns, names[k]).value]
  {
    Frame(names, seq(|g.rows|, i requires 0 <= i < |g.rows| =>
      seq(|names|, k requires 0 <= k < |names| => g.rows[i][Find(g.columns, names[k]).value])))
  }

  /** Why one workbook produced no output. */
  datatype FileError =
    | HeaderNotFound
    | CategoryNotFound
    | CategoryColumnDropped
    | HierarchyFailed(cause: HierarchyError)
    | GasCallRejected
    | GasFailed(reason: GasError)

  /** `df[[category_col] + matching columns]`, a KeyError when the category column was dropped. */
  function KeepColumns(g: Frame, category: string): (r: Result<Frame, FileError>)
    requires WellFormed(g)
    ensures r.Err? <==> category !in g.columns
    ensures r.Err? ==> r.error == CategoryColumnDropped
    ensures r.Ok? ==> WellFormed(r.value) && |r.value.rows| == |g.rows|
                      && r.value.columns == [category] + Filter(g.columns, KeywordColumn)
  {
    if category !in g.columns then Err(CategoryColumnDropped)
    else Ok(ColumnsByName(g, [category] + Filter(g.columns, KeywordColumn)))
  }

  /**
    The kept columns are the category column and then, in their original order, exactly the
    columns that hold a keyword.
  */
  lemma KeptColumns(g: Frame, category: string)
    requires WellFormed(g) && category in g.columns
    ensures var cols := KeepColumns(g, category).value.columns;
            && cols[0] == category
            && (forall x :: x in cols[1..] ==> x in g.columns && KeywordColumn(x))
            && (forall j :: 0 <= j < |g.columns| && KeywordColumn(g.columns[j]) ==> g.columns[j] in cols[1..])
            && Subsequence(cols[1..], g.columns)
  {
    var cols := KeepColumns(g, category).value.columns;
    assert cols[1..] == Filter(g.columns, KeywordColumn);
    FilterSubsequence(g.columns, KeywordColumn);
  }

  // ---------------------------------------------------------------- one workbook up to the level writes

  /** The anchor the summary sheet is read with. */
  const SummaryAnchor: string := "GREENHOUSE GAS SOURCE"

  /**
    One workbook of the folder: its path, the raw grid of the sheet that the header search scans,
    and the table pandas reads once it is told the header rows.
  */
  datatype Workbook = Workbook(path: string, grid: seq<seq<Cell>>, table: HeaderTable)

  /** The arguments of `process_summary_sheet`, with pandas' own header naming and `to_numeric` as parameters. */
  datatype Settings = Settings(sheet: string, folderPath: string, outputFolder: string, saveCsv: bool,
                               pandasName: seq<Cell> -> string, numeric: Value -> Cell)

  /** `detect_header_rows` as `read_excel_with_detected_header` calls it for the summary sheet. */
  function HeaderSearch(w: Workbook): Result<seq<nat>, HeaderError> {
    DetectHeaderRows(w.grid, Some(SummaryAnchor), None, DefaultLookahead)
  }

  /** The sheet as read with its flattened header, its columns renamed (lines 62-74). */
  function ReadRenamed(w: Workbook, env: Settings): (f: Frame)
    requires TableWellFormed(w.table)
    ensures WellFormed(f) && f.rows == ReadWithDetectedHeader(w.table, true, env.pandasName).rows
    ensures f.columns == StandardNames(ReadWithDetectedHeader(w.table, true, env.pandasName).columns)
  {
    var read := ReadWithDetectedHeader(w.table, true, env.pandasName);
    Frame(StandardNames(read.columns), read.rows)
  }

  /** Lines 62-111: read, rename, locate the category column, coerce, drop empty rows and columns, filter columns. */
  function CleanSheet(w: Workbook, env: Settings): (r: Result<Frame, FileError>)
    requires TableWellFormed(w.table)
    ensures r == Err(HeaderNotFound) <==> HeaderSearch(w).Err?
    ensures r == Err(CategoryNotFound) <==> HeaderSearch(w).Ok? && CategoryColumnIndex(ReadRenamed(w, env).columns).None?
    ensures r.Ok? ==> WellFormed(r.value) && r.value.columns != [] && Contains(r.value.columns[0], CategoryPhrase)
    ensures r.Ok? ==> forall j :: 1 <= j < |r.value.columns| ==> KeywordColumn(r.value.columns[j])
  {
    if HeaderSearch(w).Err? then Err(HeaderNotFound)
    else
      var f := ReadRenamed(w, env);
      match CategoryColumnIndex(f.columns)
      case None => Err(CategoryNotFound)
      case Some(c) => CleanFrame(f, c, env.numeric)
  }

  /** Lines 87-111 once the category column `c` is known. */
  function CleanFrame(f: Frame, c: nat, numeric: Value -> Cell): (r: Result<Frame, FileError>)
    requires WellFormed(f) && c < |f.columns|
    ensures r.Err? ==> r.error == CategoryColumnDropped
    ensures r.Ok? ==> WellFormed(r.value) && r.value.columns != [] && r.value.columns[0] == f.columns[c]
    ensures r.Ok? ==> forall j :: 1 <= j < |r.value.columns| ==> KeywordColumn(r.value.columns[j])
  {
    var r := KeepColumns(DropEmptyColumns(DropEmptyRows(Coerce(f, c, numeric))), f.columns[c]);
    assert r.Ok? ==> forall j :: 1 <= j < |r.value.columns| ==> r.value.columns[j] in r.value.columns[1..];
    r
  }

  /**
    The category column is missing iff no column name as read contains the category phrase:
    the renaming never adds or removes it.
  */
  lemma CategoryNotFoundIff(w: Workbook, env: Settings)
    requires TableWellFormed(w.table) && HeaderSearch(w).Ok?
    ensures var read := ReadWithDetectedHeader(w.table, true, env.pandasName);
            CleanSheet(w, env) == Err(CategoryNotFound)
            <==> forall j :: 0 <= j < |read.columns| ==> !Contains(read.columns[j], CategoryPhrase)
  {
    var read := ReadWithDetectedHeader(w.table, true, env.pandasName);
    var names := ReadRenamed(w, env).columns;
    forall j | 0 <= j < |read.columns|
      ensures Contains(names[j], CategoryPhrase) <==> Contains(read.columns[j], CategoryPhrase)
    {
      RenamingKeepsCategory(read.columns[j]);
    }
  }

  /** A sheet without data rows loses every column to the column drop, so the category column lookup fails. */
  lemma NoDataRowsFails(w: Workbook, env: Settings)
    requires TableWellFormed(w.table) && HeaderSearch(w).Ok? && w.table.rows == []
    ensures CleanSheet(w, env).Err?
  {
    var f := ReadRenamed(w, env);
    match CategoryColumnIndex(f.columns)
    case None =>
    case Some(c) =>
      var g := DropEmptyRows(Coerce(f, c, env.numeric));
      assert g.rows == [];
      DropEmptyColumnsNames(g);
      assert CleanFrame(f, c, env.numeric).Err?;
  }

  /** Lines 114-117: the country code and year of the file name, or None when the file is skipped. */
  function FileKey(path: string): (r: Option<(string, int)>)
    ensures var parts := Split(StripExtension(Basename(path)), '-');
            r.Some? <==> |parts| >= 5 && parts[0] != [] && ParseInt(parts[4]).Some? && ParseInt(parts[4]).value != 0
    ensures var parts := Split(StripExtension(Basename(path)), '-');
            r.Some? ==> |parts| >= 5 && r.value == (parts[0], ParseInt(parts[4]).value)
  {
    match ExtractYear(Basename(path))
    case None => None
    case Some(key) => if key.0 == [] || key.1 == 0 then None else Some(key)
  }

  /** A workbook named 'CCC-CRT-yyyy-Vx.y-YEAR-...' in any directory is processed under its code and year. */
  lemma CrtFileKey(dir: string, parts: seq<string>, year: nat, ext: string)
    requires |parts| >= 5 && parts[0] != [] && parts[0][0] != '.' && year > 0 && parts[4] == NatToString(year)
    requires forall k :: 0 <= k < |parts| ==> '-' !in parts[k] && '/' !in parts[k]
    requires '.' !in ext && '/' !in ext
    ensures FileKey(PathJoin(dir, Join(parts, "-") + "." + ext)) == Some((parts[0], year))
  {
    var name := Join(parts, "-") + "." + ext;
    JoinLacks(parts, "-", '/');
    BasenameOfJoin(dir, name);
    ExtractYearOfCrtName(parts, year, ext);
  }

  /** Lines 120-122: `df['Sheet']`, `df['Country']` and `df['Year']`, one value for every row. */
  function Stamp(g: Frame, sheet: string, country: string, year: int): (r: Frame)
    requires WellFormed(g)
    ensures WellFormed(r) && |r.rows| == |g.rows|
  {
    var g1 := SetColumn(g, "Sheet", seq(|g.rows|, _ => Some(Str(sheet))));
    var g2 := SetColumn(g1, "Country", seq(|g.rows|, _ => Some(Str(country))));
    SetColumn(g2, "Year", seq(|g.rows|, _ => Some(Num(year))))
  }

  /** The stamp appends columns: the columns that were there keep their places. */
  lemma StampColumns(g: Frame, sheet: string, country: string, year: int)
    requires WellFormed(g)
    ensures var r := Stamp(g, sheet, country, year);
            |g.columns| <= |r.columns| && r.columns[..|g.columns|] == g.columns
  {
    var g1 := SetColumn(g, "Sheet", seq(|g.rows|, _ => Some(Str(sheet))));
    var g2 := SetColumn(g1, "Country", seq(|g.rows|, _ => Some(Str(country))));
    var r := SetColumn(g2, "Year", seq(|g.rows|, _ => Some(Num(year))));
    PrefixOfPrefix(g.columns, g1.columns, g2.columns);
    PrefixOfPrefix(g.columns, g2.columns, r.columns);
  }

  lemma PrefixOfPrefix(a: seq<string>, b: seq<string>, c: seq<string>)
    requires |a| <= |b| <= |c| && b[..|a|] == a && c[..|b|] == b
    ensures c[..|a|] == a
  {
    assert c[..|b|][..|a|] == c[..|a|];
  }

  /** After the stamp every row holds the sheet name, the country and the year under those column names. */
  lemma StampCells(g: Frame, sheet: string, country: string, year: int)
    requires WellFormed(g)
    ensures var r := Stamp(g, sheet, country, year);
            && "Sheet" in r.columns && "Country" in r.columns && "Year" in r.columns
            && forall i :: 0 <= i < |r.rows| ==>
                 && r.rows[i][Find(r.columns, "Sheet").value] == Some(Str(sheet))
                 && r.rows[i][Find(r.columns, "Country").value] == Some(Str(country))
                 && r.rows[i][Find(r.columns, "Year").value] == Some(Num(year))
  {
    var sheets := seq(|g.rows|, _ => Some(Str(sheet)));
    var countries := seq(|g.rows|, _ => Some(Str(country)));
    var years := seq(|g.rows|, _ => Some(Num(year)));
    var g1 := SetColumn(g, "Sheet", sheets);
    var g2 := SetColumn(g1, "Country", countries);
    SetColumnHolds(g, "Sheet", sheets);
    SetColumnKeeps(g1, "Country", countries, "Sheet");
    SetColumnKeeps(g2, "Year", years, "Sheet");
    SetColumnHolds(g1, "Country", countries);
    SetColumnKeeps(g2, "Year", years, "Country");
    SetColumnHolds(g2, "Year", years);
  }

  // ---------------------------------------------------------------- the level files (lines 139-174)

  /** The ten output levels of line 42, in the order the hierarchy builder returns its frames. */
  const LevelDirs: seq<string> :=
    ["total", "sectors", "subsectors", "sub_subsectors", "sub_sub_subsectors",
     "level_5", "level_6", "level_7", "level_8", "memo_items"]

  /** `f"{country_code.lower()}_{sheet_name}_{year}"`. */
  function BaseFileName(code: string, sheet: string, year: int): string {
    Lower(code) + "_" + sheet + "_" + IntToString(year)
  }

  /** The base name has no '/' and no '.' when the country code and the sheet name have none. */
  lemma BaseFileNamePlain(code: string, sheet: string, year: int)
    ensures '/' !in code && '/' !in sheet ==> '/' !in BaseFileName(code, sheet, year)
    ensures '.' !in code && '.' !in sheet ==> '.' !in BaseFileName(code, sheet, year)
  {
    var l := Lower(code);
    var y := IntToString(year);
    assert forall i :: 0 <= i < |l| ==> l[i] == LowerChar(code[i]);
    assert '/' !in y && '.' !in y by {
      var d := NatToString(if year < 0 then -year else year);
      assert forall i :: 0 <= i < |d| ==> IsDigit(d[i]);
    }
    assert BaseFileName(code, sheet, year) == l + "_" + sheet + "_" + y;
  }

  /** `os.path.join(root, level, f"{base_filename}_{level}{ext}")`. */
  function LevelPath(root: string, level: string, base: string, ext: string): string {
    PathJoinAll(root, [level, base + "_" + level + ext])
  }

  /** Whatever the root, the file is named after the base name and the level. */
  lemma LevelPathName(root: string, level: string, base: string, ext: string)
    requires '/' !in base && '/' !in level && '/' !in ext
    ensures Basename(LevelPath(root, level, base, ext)) == base + "_" + level + ext
  {
    var name := base + "_" + level + ext;
    var dir := PathJoin(root, level);
    assert PathJoinAll(root, [level, name]) == PathJoinAll(dir, [name]) by {
      assert [level, name][1..] == [name];
    }
    assert PathJoinAll(dir, [name]) == PathJoin(dir, name) by {
      assert [name][1..] == [];
    }
    BasenameOfJoin(PathJoin(root, level), name);
  }

  /** `df.empty`: no rows or no columns. */
  predicate Empty(g: Frame) {
    g.rows == [] || g.columns == []
  }

  /** A file the run writes: a level frame as Parquet or as CSV, or a gas table as Parquet. */
  datatype Write =
    | ParquetFile(path: string, frame: Frame)
    | CsvFile(path: string, frame: Frame)
    | GasFile(path: string, table: PivotTable)

  /** Where the level files go: `country_output`, and `csv_country_output` when CSV copies are made. */
  datatype Roots = Roots(parquet: string, csv: string, saveCsv: bool)

  /** The writes for one level: nothing for an empty frame, else the Parquet file and, when asked, the CSV copy. */
  function LevelWrites(g: Frame, level: string, base: string, out: Roots): seq<Write> {
    if Empty(g) then []
    else [ParquetFile(LevelPath(out.parquet, level, base, ".parquet"), g)]
         + (if out.saveCsv then [CsvFile(LevelPath(out.csv, level, base, ".csv"), g)] else [])
  }

  /** The writes of the first `n` levels, in order. */
  function LevelPlan(frames: seq<Frame>, base: string, out: Roots, n: nat): seq<Write>
    requires |frames| == |LevelDirs| && n <= |LevelDirs|
  {
    if n == 0 then [] else LevelPlan(frames, base, out, n - 1) + LevelWrites(frames[n - 1], LevelDirs[n - 1], base, out)
  }

  /** The loop of lines 157-174. */
  method SaveLevels(frames: seq<Frame>, base: string, out: Roots) returns (writes: seq<Write>)
    requires |frames| == |LevelDirs|
    ensures writes == LevelPlan(frames, base, out, |LevelDirs|)
  {
    writes := [];
    var s := 0;
    while s < |LevelDirs|
      invariant 0 <= s <= |LevelDirs|
      invariant writes == LevelPlan(frames, base, out, s)
    {
      var g := frames[s];
      ghost var before := writes;
      if !(g.rows == [] || g.columns == []) {
        writes := writes + [ParquetFile(LevelPath(out.parquet, LevelDirs[s], base, ".parquet"), g)];
        if out.saveCsv {
          writes := writes + [CsvFile(LevelPath(out.csv, LevelDirs[s], base, ".csv"), g)];
        }
      }
      assert writes == before + LevelWrites(g, LevelDirs[s], base, out);
      s := s + 1;
    }
  }

  /**
    Every planned write is a non-empty level frame at its level's path: a Parquet file, or a
    CSV copy only when CSV copies are asked for.
  */
  lemma {:induction false} LevelPlanSound(frames: seq<Frame>, base: string, out: Roots, n: nat, w: Write)
    requires |frames| == |LevelDirs| && n <= |LevelDirs|
    ensures w in LevelPlan(frames, base, out, n) ==>
              exists s :: 0 <= s < n && !Empty(frames[s])
                && (|| w == ParquetFile(LevelPath(out.parquet, LevelDirs[s], base, ".parquet"), frames[s])
                    || (out.saveCsv && w == CsvFile(LevelPath(out.csv, LevelDirs[s], base, ".csv"), frames[s])))
  {
    if n > 0 && w in LevelPlan(frames, base, out, n) {
      if w in LevelPlan(frames, base, out, n - 1) {
        LevelPlanSound(frames, base, out, n - 1, w);
      } else {
        assert w in LevelWrites(frames[n - 1], LevelDirs[n - 1], base, out);
      }
    }
  }

  /** Every non-empty level frame among the first `n` is written as Parquet, and as CSV when asked. */
  lemma {:induction false} LevelPlanComplete(frames: seq<Frame>, base: string, out: Roots, n: nat, s: nat)
    requires |frames| == |LevelDirs| && s < n <= |LevelDirs| && !Empty(frames[s])
    ensures ParquetFile(LevelPath(out.parquet, LevelDirs[s], base, ".parquet"), frames[s]) in LevelPlan(frames, base, out, n)
    ensures out.saveCsv ==> CsvFile(LevelPath(out.csv, LevelDirs[s], base, ".csv"), frames[s]) in LevelPlan(frames, base, out, n)
  {
    var prev := LevelPlan(frames, base, out, n - 1);
    var here := LevelWrites(frames[n - 1], LevelDirs[n - 1], base, out);
    assert LevelPlan(frames, base, out, n) == prev + here;
    if s < n - 1 {
      LevelPlanComplete(frames, base, out, n - 1, s);
    } else {
      assert here[0] == ParquetFile(LevelPath(out.parquet, LevelDirs[s], base, ".parquet"), frames[s]);
      assert out.saveCsv ==> here[1] == CsvFile(LevelPath(out.csv, LevelDirs[s], base, ".csv"), frames[s]);
    }
  }

  // ---------------------------------------------------------------- the gas files (lines 177-205)

  /** Every standard name starts with a visible character, so `split()[0]` exists. */
  lemma GasNameHasToken(k: nat)
    requires k < |GasNames|
    ensures HasNonSpace(GasNames[k])
  {
    assert !IsSpace(GasNames[k][0]);
  }

  /** `standardised_gas.split()[0].lower()`: the directory of the `k`-th gas of the renaming table. */
  function GasDir(k: nat): string
    requires k < |GasNames|
  {
    GasNameHasToken(k);
    Lower(FirstToken(GasNames[k]).value)
  }

  /** The first token of each standard name is its formula. */
  lemma GasNameToken(k: nat)
    requires k < |GasNames|
    ensures FirstToken(GasNames[k]) == Some(["CO₂", "CO₂", "CH₄", "N₂O", "HFCs", "PFCs", "HFC+PFC", "SF₆", "NF₃"][k])
  {
    var w := ["CO₂", "CO₂", "CH₄", "N₂O", "HFCs", "PFCs", "HFC+PFC", "SF₆", "NF₃"][k];
    var rest := if k == 6 then " Mix (kt)" else " (kt)";
    assert GasNames[k] == w + rest;
    assert forall i :: 0 <= i < |w| ==> !IsSpace(w[i]);
    FirstTokenOfWord(w, rest);
  }

  /** The gas directories: the formula in lower case, subscripts kept, and `hfc+pfc` for the mix. */
  lemma GasDirNames(k: nat)
    requires k < |GasNames|
    ensures GasDir(k) == ["co₂", "co₂", "ch₄", "n₂o", "hfcs", "pfcs", "hfc+pfc", "sf₆", "nf₃"][k]
  {
    GasNameToken(k);
    FormulaLower(k);
  }

  lemma FormulaLower(k: nat)
    requires k < |GasNames|
    ensures Lower(["CO₂", "CO₂", "CH₄", "N₂O", "HFCs", "PFCs", "HFC+PFC", "SF₆", "NF₃"][k])
         == ["co₂", "co₂", "ch₄", "n₂o", "hfcs", "pfcs", "hfc+pfc", "sf₆", "nf₃"][k]
  {
    var w := ["CO₂", "CO₂", "CH₄", "N₂O", "HFCs", "PFCs", "HFC+PFC", "SF₆", "NF₃"][k];
    var d := ["co₂", "co₂", "ch₄", "n₂o", "hfcs", "pfcs", "hfc+pfc", "sf₆", "nf₃"][k];
    assert |w| == |d|;
    forall i | 0 <= i < |w| ensures Lower(w)[i] == d[i] {
    }
  }

  /** One call of `save_gas_level_parquet`: the level frame, the standard gas name and the level path. */
  datatype GasJob = GasJob(frame: Frame, gas: string, path: string)

  /** `os.path.join(output_folder, country_name, gas_type, level, f"{base_filename}_{level}.parquet")`. */
  function GasLevelPath(outputFolder: string, country: string, gasDir: string, level: string, base: string): string {
    PathJoinAll(outputFolder, [country, gasDir, level, base + "_" + level + ".parquet"])
  }

  /** The ten calls for the `k`-th gas (lines 196-205), one per level. */
  function GasJobsOfGas(frames: seq<Frame>, outputFolder: string, country: string, base: string, k: nat): (jobs: seq<GasJob>)
    requires |frames| == |LevelDirs| && k < |GasNames|
    ensures |jobs| == |LevelDirs|
    ensures forall s :: 0 <= s < |LevelDirs| ==>
              jobs[s] == GasJob(frames[s], GasNames[k], GasLevelPath(outputFolder, country, GasDir(k), LevelDirs[s], base))
  {
    seq(|LevelDirs|, s requires 0 <= s < |LevelDirs| =>
      GasJob(frames[s], GasNames[k], GasLevelPath(outputFolder, country, GasDir(k), LevelDirs[s], base)))
  }

  /** The calls for the first `n` gases, gas by gas. */
  function GasPlan(frames: seq<Frame>, outputFolder: string, country: string, base: string, n: nat): (jobs: seq<GasJob>)
    requires |frames| == |LevelDirs| && n <= |GasNames|
    ensures |jobs| == n * |LevelDirs|
    ensures forall i :: 0 <= i < |jobs| ==> jobs[i].frame in frames
  {
    if n == 0 then []
    else
      var done := GasPlan(frames, outputFolder, country, base, n - 1);
      var jobs := GasJobsOfGas(frames, outputFolder, country, base, n - 1);
      assert forall s :: 0 <= s < |jobs| ==> jobs[s].frame == frames[s];
      JobsFromFrames(done, jobs, frames);
      done + jobs
  }

  lemma JobsFromFrames(a: seq<GasJob>, b: seq<GasJob>, frames: seq<Frame>)
    requires forall i :: 0 <= i < |a| ==> a[i].frame in frames
    requires forall i :: 0 <= i < |b| ==> b[i].frame in frames
    ensures forall i :: 0 <= i < |a + b| ==> (a + b)[i].frame in frames
  {
    forall i | 0 <= i < |a + b| ensures (a + b)[i].frame in frames {
      if i < |a| { assert (a + b)[i] == a[i]; } else { assert (a + b)[i] == b[i - |a|]; }
    }
  }

  predicate JobsWellFormed(jobs: seq<GasJob>) {
    forall i :: 0 <= i < |jobs| ==> WellFormed(jobs[i].frame)
  }

  /** The call as it is evidently meant: `index_col`, `column_col` and `value_col` left at their defaults. */
  function GasCall(job: GasJob): Result<GasOutcome, GasError>
    requires WellFormed(job.frame)
  {
    SaveGasLevel(job.frame, job.gas, job.path, "Year", "Label", None)
  }

  /** A table a gas call saves is the Year x Label pivot of the job's frame over the gas column. */
  lemma GasCallTable(job: GasJob, path: string, table: PivotTable)
    requires WellFormed(job.frame) && GasCall(job) == Ok(Saved(path, table))
    ensures "Year" in job.frame.columns && "Label" in job.frame.columns && job.gas in job.frame.columns
    ensures table == Pivot(Entries(job.frame, Find(job.frame.columns, "Year").value,
                                   Find(job.frame.columns, "Label").value, Find(job.frame.columns, job.gas).value))
  {
  }

  /** The result of one call, as the gas loop sees it. */
  type GasCallResult = Result<GasOutcome, GasError>

  /** What the calls so far have written, and the error that ended them, if any. */
  type GasRun = (seq<Write>, Option<GasError>)

  /** One more call under the shared `try`: after an error nothing runs; a saved table is written; a skip writes nothing. */
  function Step(prev: GasRun, call: GasCallResult): GasRun {
    if prev.1.Some? then prev
    else match call
      case Err(e) => (prev.0, Some(e))
      case Ok(Skipped) => prev
      case Ok(Saved(p, t)) => (prev.0 + [GasFile(p, t)], None)
  }

  /** The calls' results taken in order, from nothing written and no error. */
  function RunCalls(calls: seq<GasCallResult>): GasRun
    decreases |calls|
  {
    if calls == [] then ([], None) else Step(RunCalls(calls[..|calls| - 1]), calls[|calls| - 1])
  }

  /** The result of each planned call. */
  function Results(jobs: seq<GasJob>): (calls: seq<GasCallResult>)
    requires JobsWellFormed(jobs)
    ensures |calls| == |jobs| && forall i :: 0 <= i < |jobs| ==> calls[i] == GasCall(jobs[i])
  {
    seq(|jobs|, i requires 0 <= i < |jobs| => GasCall(jobs[i]))
  }

  /** The calls in order: each saved table is written, and the first error ends the run of the file. */
  function RunGasJobs(jobs: seq<GasJob>): GasRun
    requires JobsWellFormed(jobs)
  {
    RunCalls(Results(jobs))
  }

  /** The calls of `a` and then `b` have the results of `a` and then those of `b`. */
  lemma ResultsAppend(a: seq<GasJob>, b: seq<GasJob>)
    requires JobsWellFormed(a + b)
    ensures JobsWellFormed(a) && JobsWellFormed(b)
    ensures Results(a + b) == Results(a) + Results(b)
  {
    assert forall i :: 0 <= i < |a| ==> a[i] == (a + b)[i];
    assert forall i :: 0 <= i < |b| ==> b[i] == (a + b)[|a| + i];
  }

  /** Each call extends the run by one step. */
  lemma RunCallsSnoc(calls: seq<GasCallResult>, call: GasCallResult)
    ensures RunCalls(calls + [call]) == Step(RunCalls(calls), call)
  {
    assert (calls + [call])[..|calls|] == calls;
  }

  /** Once a call has raised, the calls after it change nothing. */
  lemma {:induction false} RunCallsAfterError(calls: seq<GasCallResult>, more: seq<GasCallResult>)
    ensures RunCalls(calls).1.Some? ==> RunCalls(calls + more) == RunCalls(calls)
    decreases |more|
  {
    if more == [] {
      assert calls + more == calls;
    } else {
      var init, last := more[..|more| - 1], more[|more| - 1];
      assert calls + more == (calls + init) + [last];
      RunCallsAfterError(calls, init);
      RunCallsSnoc(calls + init, last);
    }
  }

  /** Every gas file written is the table one of the calls saved, at the path that call chose. */
  lemma {:induction false} RunCallsSound(calls: seq<GasCallResult>, w: Write)
    ensures w in RunCalls(calls).0 ==> w.GasFile? && Ok(Saved(w.path, w.table)) in calls
    decreases |calls|
  {
    if calls != [] && w in RunCalls(calls).0 {
      var init, last := calls[..|calls| - 1], calls[|calls| - 1];
      assert calls == init + [last];
      RunCallsSound(init, w);
    }
  }

  /** The run ends without error iff no call raised. */
  lemma {:induction false} RunCallsNoError(calls: seq<GasCallResult>)
    ensures RunCalls(calls).1.None? <==> forall i :: 0 <= i < |calls| ==> calls[i].Ok?
    decreases |calls|
  {
    if calls != [] {
      var init := calls[..|calls| - 1];
      RunCallsNoError(init);
      assert forall i :: 0 <= i < |init| ==> init[i] == calls[i];
    }
  }

  /** A run without error writes the table of every call that saved one. */
  lemma {:induction false} RunCallsWritesAll(calls: seq<GasCallResult>, i: nat)
    requires i < |calls|
    ensures RunCalls(calls).1.None? && calls[i].Ok? && calls[i].value.Saved? ==>
              GasFile(calls[i].value.path, calls[i].value.table) in RunCalls(calls).0
    decreases |calls|
  {
    var init := calls[..|calls| - 1];
    if i < |init| {
      assert init[i] == calls[i];
      RunCallsWritesAll(init, i);
    }
  }

  /** Running `a` and then `b` without an error in `a`: the writes of both, and the outcome of `b`. */
  lemma {:induction false} RunCallsAppend(a: seq<GasCallResult>, b: seq<GasCallResult>)
    ensures RunCalls(a).1.None? ==> RunCalls(a + b) == (RunCalls(a).0 + RunCalls(b).0, RunCalls(b).1)
    decreases |b|
  {
    if b == [] {
      assert a + b == a;
      assert RunCalls(a).0 + [] == RunCalls(a).0;
    } else {
      var init, last := b[..|b| - 1], b[|b| - 1];
      assert a + b == (a + init) + [last];
      RunCallsAppend(a, init);
      RunCallsSnoc(a + init, last);
      if RunCalls(a).1.None? && RunCalls(init).1.None? && last.Ok? && last.value.Saved? {
        var w, i0, g := RunCalls(a).0, RunCalls(init).0, GasFile(last.value.path, last.value.table);
        assert w + i0 + [g] == w + (i0 + [g]);
      }
    }
  }

  /** Saved tables accumulate: the calls after a prefix only append. */
  lemma {:induction false} RunCallsGrows(calls: seq<GasCallResult>, more: seq<GasCallResult>)
    ensures RunCalls(calls).0 <= RunCalls(calls + more).0
    decreases |more|
  {
    if more == [] {
      assert calls + more == calls;
    } else {
      var init, last := more[..|more| - 1], more[|more| - 1];
      assert calls + more == (calls + init) + [last];
      RunCallsGrows(calls, init);
      RunCallsSnoc(calls + init, last);
    }
  }

  /** A table saved by the first call is written whatever the later calls do. */
  lemma FirstSavedWritten(calls: seq<GasCallResult>)
    requires calls != []
    ensures calls[0].Ok? && calls[0].value.Saved? ==>
              GasFile(calls[0].value.path, calls[0].value.table) in RunCalls(calls).0
  {
    var first := calls[0];
    assert calls == [first] + calls[1..];
    assert [] + [first] == [first];
    RunCallsSnoc([], first);
    RunCallsGrows([first], calls[1..]);
    var written := RunCalls(calls).0;
    if first.Ok? && first.value.Saved? {
      assert written[0] == GasFile(first.value.path, first.value.table);
    }
  }

  /** The plan for the first `k` gases is a prefix of the plan for the first `n`. */
  lemma {:induction false} GasPlanPrefix(frames: seq<Frame>, outputFolder: string, country: string, base: string, k: nat, n: nat)
    requires |frames| == |LevelDirs| && k <= n <= |GasNames|
    ensures GasPlan(frames, outputFolder, country, base, k) <= GasPlan(frames, outputFolder, country, base, n)
    decreases n
  {
    if k < n {
      GasPlanPrefix(frames, outputFolder, country, base, k, n - 1);
    }
  }

  /** The planned calls read only the level frames, so they are well formed when the frames are. */
  lemma GasPlanWellFormed(frames: seq<Frame>, outputFolder: string, country: string, base: string, n: nat)
    requires |frames| == |LevelDirs| && n <= |GasNames|
    requires forall s :: 0 <= s < |frames| ==> WellFormed(frames[s])
    ensures JobsWellFormed(GasPlan(frames, outputFolder, country, base, n))
  {
    var jobs := GasPlan(frames, outputFolder, country, base, n);
    forall i | 0 <= i < |jobs| ensures WellFormed(jobs[i].frame) {
      assert jobs[i].frame in frames;
    }
  }

  /** One more call: the run grows by its step, and an error there is the outcome of the whole run. */
  lemma RunCallsNext(calls: seq<GasCallResult>, s: nat, writes: seq<Write>, r: GasCallResult)
    requires s < |calls| && r == calls[s] && (writes, None) == RunCalls(calls[..s])
    ensures Step((writes, None), r) == RunCalls(calls[..s + 1])
    ensures Step((writes, None), r).1.Some? ==> RunCalls(calls) == Step((writes, None), r)
  {
    assert calls[..s + 1] == calls[..s] + [r];
    RunCallsSnoc(calls[..s], r);
    if Step((writes, None), r).1.Some? {
      assert calls == calls[..s + 1] + calls[s + 1..];
      RunCallsAfterError(calls[..s + 1], calls[s + 1..]);
    }
  }

  /** The ten calls of one gas, run from the start. */
  method RunJobs(jobs: seq<GasJob>) returns (writes: seq<Write>, error: Option<GasError>)
    requires JobsWellFormed(jobs)
    ensures (writes, error) == RunGasJobs(jobs)
  {
    ghost var calls := Results(jobs);
    writes, error := [], None;
    var s := 0;
    assert calls[..0] == [];
    while s < |jobs|
      invariant 0 <= s <= |jobs|
      invariant (writes, error) == RunCalls(calls[..s]) && error.None?
    {
      var r := GasCall(jobs[s]);
      RunCallsNext(calls, s, writes, r);
      writes, error := Step((writes, error), r).0, Step((writes, error), r).1;
      if error.Some? {
        return;
      }
      s := s + 1;
    }
    assert calls[..s] == calls;
  }

  lemma RunJobsAppend(a: seq<GasJob>, b: seq<GasJob>)
    requires JobsWellFormed(a + b)
    ensures JobsWellFormed(a) && JobsWellFormed(b)
    ensures RunGasJobs(a).1.None? ==> RunGasJobs(a + b) == (RunGasJobs(a).0 + RunGasJobs(b).0, RunGasJobs(b).1)
  {
    ResultsAppend(a, b);
    RunCallsAppend(Results(a), Results(b));
  }

  /** Once a prefix of the calls has raised, all the calls end the same way. */
  lemma RunJobsPrefixStopped(done: seq<GasJob>, all: seq<GasJob>)
    requires JobsWellFormed(all) && done <= all
    ensures JobsWellFormed(done)
    ensures RunGasJobs(done).1.Some? ==> RunGasJobs(all) == RunGasJobs(done)
  {
    assert all == done + all[|done|..];
    ResultsAppend(done, all[|done|..]);
    RunCallsAfterError(Results(done), Results(all[|done|..]));
  }

  /** Running `done` and then `jobs` extends the run of `done`; an error there is the outcome of every longer plan. */
  lemma RunJobsNext(done: seq<GasJob>, jobs: seq<GasJob>, all: seq<GasJob>,
                    writes: seq<Write>, more: seq<Write>, failure: Option<GasError>)
    requires JobsWellFormed(all) && done + jobs <= all
    requires JobsWellFormed(done) && JobsWellFormed(jobs)
    requires (writes, None) == RunGasJobs(done) && (more, failure) == RunGasJobs(jobs)
    ensures JobsWellFormed(done + jobs)
    ensures (writes + more, failure) == RunGasJobs(done + jobs)
    ensures failure.Some? ==> (writes + more, failure) == RunGasJobs(all)
  {
    JobsWellFormedPrefix(done + jobs, all);
    RunJobsAppend(done, jobs);
    if failure.Some? {
      RunJobsPrefixStopped(done + jobs, all);
    }
  }

  lemma JobsWellFormedPrefix(a: seq<GasJob>, b: seq<GasJob>)
    requires JobsWellFormed(b) && a <= b
    ensures JobsWellFormed(a)
  {
    assert forall i :: 0 <= i < |a| ==> a[i] == b[i];
  }

  /** Groups of calls, one group after the other. */
  function Concat(groups: seq<seq<GasJob>>): seq<GasJob>
    decreases |groups|
  {
    if groups == [] then [] else Concat(groups[..|groups| - 1]) + groups[|groups| - 1]
  }

  predicate GroupsWellFormed(groups: seq<seq<GasJob>>) {
    forall k :: 0 <= k < |groups| ==> JobsWellFormed(groups[k])
  }

  lemma {:induction false} ConcatWellFormed(groups: seq<seq<GasJob>>)
    requires GroupsWellFormed(groups)
    ensures JobsWellFormed(Concat(groups))
    decreases |groups|
  {
    if groups != [] {
      var init := groups[..|groups| - 1];
      assert GroupsWellFormed(init) by {
        assert forall k :: 0 <= k < |init| ==> init[k] == groups[k];
      }
      ConcatWellFormed(init);
      var a, b := Concat(init), groups[|groups| - 1];
      assert forall i :: 0 <= i < |a + b| ==> (a + b)[i] == if i < |a| then a[i] else b[i - |a|];
    }
  }

  /** The groups before `k` make a prefix of all the calls. */
  lemma {:induction false} ConcatPrefix(groups: seq<seq<GasJob>>, k: nat)
    requires k <= |groups|
    ensures Concat(groups[..k]) <= Concat(groups)
    decreases |groups|
  {
    if k < |groups| {
      var init := groups[..|groups| - 1];
      assert init[..k] == groups[..k];
      ConcatPrefix(init, k);
    } else {
      assert groups[..k] == groups;
    }
  }

  /** The calls of group `k` extend the run of the groups before it; if they raise, that is the outcome of all of them. */
  lemma GroupsNext(groups: seq<seq<GasJob>>, k: nat, writes: seq<Write>, more: seq<Write>, failure: Option<GasError>)
    requires GroupsWellFormed(groups) && k < |groups|
    requires JobsWellFormed(Concat(groups[..k])) && (writes, None) == RunGasJobs(Concat(groups[..k]))
    requires (more, failure) == RunGasJobs(groups[k])
    ensures JobsWellFormed(Concat(groups[..k + 1]))
    ensures (writes + more, failure) == RunGasJobs(Concat(groups[..k + 1]))
    ensures failure.Some? ==> JobsWellFormed(Concat(groups)) && (writes + more, failure) == RunGasJobs(Concat(groups))
  {
    ConcatNext(groups, k);
    ConcatWellFormed(groups);
    ConcatPrefix(groups, k + 1);
    assert JobsWellFormed(groups[k]);
    RunJobsNext(Concat(groups[..k]), groups[k], Concat(groups), writes, more, failure);
  }

  lemma ConcatNext(groups: seq<seq<GasJob>>, k: nat)
    requires k < |groups|
    ensures Concat(groups[..k + 1]) == Concat(groups[..k]) + groups[k]
  {
    assert groups[..k + 1][..k] == groups[..k];
  }

  /** The outer loop over the groups, the inner loop over the calls of each; the first error ends both. */
  method RunGroups(groups: seq<seq<GasJob>>) returns (writes: seq<Write>, error: Option<GasError>)
    requires GroupsWellFormed(groups)
    ensures JobsWellFormed(Concat(groups))
    ensures (writes, error) == RunGasJobs(Concat(groups))
  {
    ConcatWellFormed(groups);
    writes, error := [], None;
    var k := 0;
    assert groups[..0] == [];
    while k < |groups|
      invariant 0 <= k <= |groups|
      invariant JobsWellFormed(Concat(groups[..k]))
      invariant (writes, error) == RunGasJobs(Concat(groups[..k])) && error.None?
    {
      var more, failure := RunJobs(groups[k]);
      GroupsNext(groups, k, writes, more, failure);
      writes, error := writes + more, failure;
      if error.Some? {
        return;
      }
      k := k + 1;
    }
    assert groups[..k] == groups;
  }

  /** The calls of every gas, gas by gas (lines 179-205). */
  function GasGroups(frames: seq<Frame>, outputFolder: string, country: string, base: string): (groups: seq<seq<GasJob>>)
    requires |frames| == |LevelDirs|
    ensures |groups| == |GasNames|
    ensures forall k :: 0 <= k < |GasNames| ==> groups[k] == GasJobsOfGas(frames, outputFolder, country, base, k)
  {
    seq(|GasNames|, k requires 0 <= k < |GasNames| => GasJobsOfGas(frames, outputFolder, country, base, k))
  }

  /** The plan for the first `n` gases is their groups one after the other. */
  lemma {:induction false} GasPlanConcat(frames: seq<Frame>, outputFolder: string, country: string, base: string, n: nat)
    requires |frames| == |LevelDirs| && n <= |GasNames|
    ensures GasPlan(frames, outputFolder, country, base, n) == Concat(GasGroups(frames, outputFolder, country, base)[..n])
    decreases n
  {
    var groups := GasGroups(frames, outputFolder, country, base);
    if n > 0 {
      assert groups[..n][..n - 1] == groups[..n - 1];
      GasPlanConcat(frames, outputFolder, country, base, n - 1);
    } else {
      assert groups[..n] == [];
    }
  }

  /** The groups read only the level frames, so they are well formed when the frames are. */
  lemma GasGroupsWellFormed(frames: seq<Frame>, outputFolder: string, country: string, base: string)
    requires |frames| == |LevelDirs| && forall s :: 0 <= s < |frames| ==> WellFormed(frames[s])
    ensures GroupsWellFormed(GasGroups(frames, outputFolder, country, base))
  {
    var groups := GasGroups(frames, outputFolder, country, base);
    forall k | 0 <= k < |groups| ensures JobsWellFormed(groups[k]) {
      var jobs := GasJobsOfGas(frames, outputFolder, country, base, k);
      assert forall i :: 0 <= i < |jobs| ==> jobs[i].frame == frames[i];
    }
  }

  /** The loops of lines 178-205, each call made as evidently meant; the first error ends them. */
  method SaveGasFiles(frames: seq<Frame>, outputFolder: string, country: string, base: string)
    returns (writes: seq<Write>, error: Option<GasError>)
    requires |frames| == |LevelDirs| && forall s :: 0 <= s < |frames| ==> WellFormed(frames[s])
    ensures JobsWellFormed(GasPlan(frames, outputFolder, country, base, |GasNames|))
    ensures (writes, error) == RunGasJobs(GasPlan(frames, outputFolder, country, base, |GasNames|))
  {
    var groups := GasGroups(frames, outputFolder, country, base);
    GasGroupsWellFormed(frames, outputFolder, country, base);
    GasPlanConcat(frames, outputFolder, country, base, |GasNames|);
    assert groups[..|GasNames|] == groups;
    writes, error := RunGroups(groups);
  }

  // ---------------------------------------------------------------- one workbook (lines 59-210)

  /** `country_name = os.path.basename(folder_path)`. */
  function CountryName(env: Settings): string {
    Basename(env.folderPath)
  }

  /** `country_output` (line 45) and `csv_country_output` (lines 52-53). */
  function LevelOutput(env: Settings): Roots {
    var country := CountryName(env);
    Roots(PathJoin(env.outputFolder, country), PathJoin(PathJoin(Dirname(env.outputFolder), "csv_view"), country), env.saveCsv)
  }

  /** The ten frames to write (the nine levels, then the memo items) and the base file name. */
  datatype Prepared = Prepared(frames: seq<Frame>, base: string)

  /** The nine level frames and the memo frame of a successful split are well formed. */
  lemma LeveledWellFormed(f: Frame)
    requires WellFormed(f)
    ensures ProcessHierarchy(f).Ok? ==>
              var l := ProcessHierarchy(f).value;
              |l.frames| == 9 && WellFormed(l.memo) && forall s :: 0 <= s < 9 ==> WellFormed(l.frames[s])
  {
  }

  /** The frames of lines 143-154: the nine levels, then the memo items. */
  function FramesToWrite(l: Leveled): (frames: seq<Frame>)
    requires |l.frames| == 9 && WellFormed(l.memo) && forall s :: 0 <= s < 9 ==> WellFormed(l.frames[s])
    ensures |frames| == |LevelDirs| && forall s :: 0 <= s < |LevelDirs| ==> WellFormed(frames[s])
  {
    assert forall s :: 0 <= s < 9 ==> (l.frames + [l.memo])[s] == l.frames[s];
    l.frames + [l.memo]
  }

  /** Lines 62-154: clean the sheet, skip it without a key, stamp it and split it into levels; None when skipped. */
  function Prepare(w: Workbook, env: Settings): (r: Result<Option<Prepared>, FileError>)
    requires TableWellFormed(w.table)
    ensures r.Ok? && r.value.Some? ==>
              |r.value.value.frames| == |LevelDirs| && forall s :: 0 <= s < |LevelDirs| ==> WellFormed(r.value.value.frames[s])
  {
    match CleanSheet(w, env)
    case Err(e) => Err(e)
    case Ok(g) => PrepareCleaned(g, w.path, env)
  }

  /** Lines 114-154 once the sheet is cleaned: skip it without a key, else stamp it and split it into levels. */
  function PrepareCleaned(g: Frame, path: string, env: Settings): (r: Result<Option<Prepared>, FileError>)
    requires WellFormed(g)
    ensures r == Ok(None) <==> FileKey(path).None?
    ensures r.Ok? && r.value.Some? ==>
              |r.value.value.frames| == |LevelDirs| && forall s :: 0 <= s < |LevelDirs| ==> WellFormed(r.value.value.frames[s])
  {
    match FileKey(path)
    case None => Ok(None)
    case Some(key) =>
      var stamped := Stamp(g, env.sheet, Upper(CountryName(env)), key.1);
      match ProcessHierarchy(stamped)
      case Err(e) => Err(HierarchyFailed(e))
      case Ok(leveled) =>
        LeveledWellFormed(stamped);
        Ok(Some(Prepared(FramesToWrite(leveled), BaseFileName(key.0, env.sheet, key.1))))
  }

  /** The category column leads the cleaned sheet and survives the stamp, so the hierarchy builder always finds it. */
  lemma PrepareFindsCategory(w: Workbook, env: Settings)
    requires TableWellFormed(w.table)
    ensures Prepare(w, env) != Err(HierarchyFailed(CategoryColumnNotFound))
  {
    var cleaned := CleanSheet(w, env);
    var key := FileKey(w.path);
    if cleaned.Ok? && key.Some? {
      StampedFindsCategory(cleaned.value, env.sheet, Upper(CountryName(env)), key.value.1);
    }
  }

  /** A frame led by the category column still has one once stamped, so the hierarchy split does not miss it. */
  lemma StampedFindsCategory(g: Frame, sheet: string, country: string, year: int)
    requires WellFormed(g) && g.columns != [] && Contains(g.columns[0], CategoryPhrase)
    ensures ProcessHierarchy(Stamp(g, sheet, country, year)) != Err(CategoryColumnNotFound)
  {
    var stamped := Stamp(g, sheet, country, year);
    StampColumns(g, sheet, country, year);
    assert stamped.columns[0] == g.columns[0];
    assert CategoryColumnIndex(stamped.columns).Some?;
  }

  /** What happened to one workbook: the files written before an error, a skip, or every file written. */
  datatype FileRun =
    | Failed(done: seq<Write>, error: FileError)
    | SkippedFile
    | Done(written: seq<Write>)

  function Written(run: FileRun): seq<Write> {
    match run
    case Failed(done, _) => done
    case SkippedFile => []
    case Done(written) => written
  }

  /** Two different level directories give two different level files for the same base name. */
  lemma LevelPathsDiffer(root: string, base: string, d1: string, d2: string, ext: string)
    requires '/' !in base && '/' !in d1 && '/' !in d2 && '/' !in ext && d1 != d2
    ensures LevelPath(root, d1, base, ext) != LevelPath(root, d2, base, ext)
  {
    LevelPathName(root, d1, base, ext);
    LevelPathName(root, d2, base, ext);
    var a := base + "_" + d1 + ext;
    var b := base + "_" + d2 + ext;
    if |d1| == |d2| {
      assert a[|base| + 1..|base| + 1 + |d1|] == d1;
      assert b[|base| + 1..|base| + 1 + |d2|] == d2;
    }
  }

  /** The level directories are made of lower-case letters, digits and '_'. */
  lemma LevelDirPlain(s: nat)
    requires s < |LevelDirs|
    ensures '/' !in LevelDirs[s] && '.' !in LevelDirs[s]
  {
    var d := LevelDirs[s];
    forall i | 0 <= i < |d| ensures 'a' <= d[i] <= 'z' || '0' <= d[i] <= '9' || d[i] == '_' {
    }
  }

  lemma GasDirPlain(k: nat)
    requires k < |GasNames|
    ensures '/' !in GasDir(k)
  {
    GasDirNames(k);
    var d := ["co₂", "co₂", "ch₄", "n₂o", "hfcs", "pfcs", "hfc+pfc", "sf₆", "nf₃"][k];
    if k <= 1 {
      assert d == "co₂";
    } else if k <= 4 {
      assert d == "ch₄" || d == "n₂o" || d == "hfcs";
    } else {
      assert d == "pfcs" || d == "hfc+pfc" || d == "sf₆" || d == "nf₃";
    }
  }

  /** A gas table saved by the call for gas `k` at level `s` is named `{base}_{level}_{gas}.parquet`, the pattern the combining step globs. */
  lemma GasFileName(frames: seq<Frame>, outputFolder: string, country: string, base: string, k: nat, s: nat)
    requires |frames| == |LevelDirs| && k < |GasNames| && s < |LevelDirs| && WellFormed(frames[s])
    requires '/' !in base && '.' !in base
    ensures var job := GasJobsOfGas(frames, outputFolder, country, base, k)[s];
            GasCall(job).Ok? && GasCall(job).value.Saved? ==>
              && Basename(GasCall(job).value.path) == base + "_" + LevelDirs[s] + "_" + GasDir(k) + ".parquet"
              && Dirname(GasCall(job).value.path) == Dirname(job.path)
  {
    var job := GasJobsOfGas(frames, outputFolder, country, base, k)[s];
    assert GasCall(job).Ok? && GasCall(job).value.Saved? ==> GasCall(job).value.path == OutputPath(job.path, GasDir(k));
    GasLevelFileName(outputFolder, country, base, k, s);
  }

  /** The name `save_gas_level_parquet` derives from the level path of gas `k` at level `s`. */
  lemma GasLevelFileName(outputFolder: string, country: string, base: string, k: nat, s: nat)
    requires k < |GasNames| && s < |LevelDirs| && '/' !in base && '.' !in base
    ensures var path := GasLevelPath(outputFolder, country, GasDir(k), LevelDirs[s], base);
            && Basename(OutputPath(path, GasDir(k))) == base + "_" + LevelDirs[s] + "_" + GasDir(k) + ".parquet"
            && Dirname(OutputPath(path, GasDir(k))) == Dirname(path)
  {
    GasDirPlain(k);
    LevelDirPlain(s);
    LevelPathGasFileName(outputFolder, country, GasDir(k), LevelDirs[s], base);
  }

  lemma LevelPathGasFileName(outputFolder: string, country: string, gd: string, level: string, base: string)
    requires '/' !in gd && '/' !in level && '.' !in level && '/' !in base && '.' !in base
    ensures var path := GasLevelPath(outputFolder, country, gd, level, base);
            && Basename(OutputPath(path, gd)) == base + "_" + level + "_" + gd + ".parquet"
            && Dirname(OutputPath(path, gd)) == Dirname(path)
  {
    var path := GasLevelPath(outputFolder, country, gd, level, base);
    var stem := base + "_" + level;
    GasLevelPathName(outputFolder, country, gd, level, base);
    assert Basename(path) == stem + "." + "parquet";
    StripExtensionOf(stem, "parquet");
    OutputPathShape(path, gd);
  }

  lemma GasLevelPathName(outputFolder: string, country: string, gd: string, level: string, base: string)
    requires '/' !in base && '/' !in level
    ensures Basename(GasLevelPath(outputFolder, country, gd, level, base)) == base + "_" + level + ".parquet"
  {
    var name := base + "_" + level + ".parquet";
    var path := GasLevelPath(outputFolder, country, gd, level, base);
    assert path == PathJoinAll(outputFolder, [country, gd, level] + [name]) by {
      assert [country, gd, level] + [name] == [country, gd, level, name];
    }
    PathJoinAllSnoc(outputFolder, [country, gd, level], name);
    BasenameOfJoin(PathJoinAll(outputFolder, [country, gd, level]), name);
  }

  /** What the preparation hands to the writing steps: ten well-formed frames when it succeeds. */
  predicate PreparedWellFormed(prep: Result<Option<Prepared>, FileError>) {
    prep.Ok? && prep.value.Some? ==>
      |prep.value.value.frames| == |LevelDirs| && forall s :: 0 <= s < |LevelDirs| ==> WellFormed(prep.value.value.frames[s])
  }

  /** The writing steps with the gas calls as evidently meant: level files first, then the gas files. */
  function RunFile(prep: Result<Option<Prepared>, FileError>, env: Settings): FileRun
    requires PreparedWellFormed(prep)
  {
    match prep
    case Err(e) => Failed([], e)
    case Ok(None) => SkippedFile
    case Ok(Some(p)) =>
      var levels := LevelPlan(p.frames, p.base, LevelOutput(env), |LevelDirs|);
      var jobs := GasPlan(p.frames, env.outputFolder, CountryName(env), p.base, |GasNames|);
      GasPlanWellFormed(p.frames, env.outputFolder, CountryName(env), p.base, |GasNames|);
      FinishFile(levels, RunGasJobs(jobs))
  }

  /** The level files, then what the gas calls wrote; the file fails when a gas call failed. */
  function FinishFile(levels: seq<Write>, gas: GasRun): (run: FileRun)
    ensures Written(run) == levels + gas.0
    ensures run.Done? <==> gas.1.None?
    ensures run.Failed? ==> run.error == GasFailed(gas.1.value)
  {
    if gas.1.None? then Done(levels + gas.0) else Failed(levels + gas.0, GasFailed(gas.1.value))
  }

  /**
    The writing steps as written: the gas calls pass `save_csv=`, which the function does not take,
    so the first of them raises TypeError once the level files are written.
  */
  function RunFileAsWritten(prep: Result<Option<Prepared>, FileError>, env: Settings): FileRun
    requires PreparedWellFormed(prep)
  {
    match prep
    case Err(e) => Failed([], e)
    case Ok(None) => SkippedFile
    case Ok(Some(p)) => Failed(LevelPlan(p.frames, p.base, LevelOutput(env), |LevelDirs|), GasCallRejected)
  }

  /** The body of the file loop (lines 59-210), with the gas calls as evidently meant. */
  function ProcessFile(w: Workbook, env: Settings): FileRun
    requires TableWellFormed(w.table)
  {
    RunFile(Prepare(w, env), env)
  }

  /** The body of the file loop as written. */
  function ProcessFileAsWritten(w: Workbook, env: Settings): FileRun
    requires TableWellFormed(w.table)
  {
    RunFileAsWritten(Prepare(w, env), env)
  }

  /** What a prepared workbook writes: the level plan, then the gas files; as written, the level plan only. */
  lemma RunFileWritten(p: Prepared, env: Settings)
    requires PreparedWellFormed(Ok(Some(p)))
    ensures JobsWellFormed(GasPlan(p.frames, env.outputFolder, CountryName(env), p.base, |GasNames|))
    ensures Written(RunFile(Ok(Some(p)), env))
         == LevelPlan(p.frames, p.base, LevelOutput(env), |LevelDirs|)
            + RunGasJobs(GasPlan(p.frames, env.outputFolder, CountryName(env), p.base, |GasNames|)).0
    ensures Written(RunFileAsWritten(Ok(Some(p)), env)) == LevelPlan(p.frames, p.base, LevelOutput(env), |LevelDirs|)
  {
    var levels := LevelPlan(p.frames, p.base, LevelOutput(env), |LevelDirs|);
    var jobs := GasPlan(p.frames, env.outputFolder, CountryName(env), p.base, |GasNames|);
    GasPlanWellFormed(p.frames, env.outputFolder, CountryName(env), p.base, |GasNames|);
    assert RunFile(Ok(Some(p)), env) == FinishFile(levels, RunGasJobs(jobs));
  }

  /** A workbook is skipped exactly when its sheet cleans but its file name has no key; a cleaning error is passed on. */
  lemma PrepareOutcome(w: Workbook, env: Settings)
    requires TableWellFormed(w.table)
    ensures Prepare(w, env) == Ok(None) <==> CleanSheet(w, env).Ok? && FileKey(w.path).None?
    ensures CleanSheet(w, env).Err? ==> Prepare(w, env) == Err(CleanSheet(w, env).error)
  {
  }

  /** Nothing is written before an error unless it is a gas call that failed; a skip writes nothing. */
  lemma RunFileOutcome(prep: Result<Option<Prepared>, FileError>, env: Settings)
    requires PreparedWellFormed(prep)
    ensures RunFile(prep, env).SkippedFile? <==> prep == Ok(None)
    ensures prep.Err? ==> RunFile(prep, env) == Failed([], prep.error)
    ensures RunFile(prep, env).Failed? && RunFile(prep, env).done != [] ==> RunFile(prep, env).error.GasFailed?
  {
  }

  /** Every non-empty prepared frame is written at its level's path, as Parquet and, when asked, as CSV. */
  lemma RunFileWritesLevels(p: Prepared, env: Settings, s: nat)
    requires PreparedWellFormed(Ok(Some(p))) && s < |LevelDirs| && !Empty(p.frames[s])
    ensures var out := LevelOutput(env);
            && ParquetFile(LevelPath(out.parquet, LevelDirs[s], p.base, ".parquet"), p.frames[s]) in Written(RunFile(Ok(Some(p)), env))
            && (env.saveCsv ==> CsvFile(LevelPath(out.csv, LevelDirs[s], p.base, ".csv"), p.frames[s]) in Written(RunFile(Ok(Some(p)), env)))
  {
    RunFileWritten(p, env);
    LevelPlanComplete(p.frames, p.base, LevelOutput(env), |LevelDirs|, s);
  }

  /** Everything written is a planned level file or a table one of the gas calls saved; CSV copies only when asked. */
  lemma RunFileWritesOnlyPlanned(prep: Result<Option<Prepared>, FileError>, env: Settings, x: Write)
    requires PreparedWellFormed(prep)
    ensures x in Written(RunFile(prep, env)) ==>
              && prep.Ok? && prep.value.Some?
              && var p := prep.value.value;
                 var jobs := GasPlan(p.frames, env.outputFolder, CountryName(env), p.base, |GasNames|);
                 && JobsWellFormed(jobs)
                 && (x.GasFile? ==> exists i :: 0 <= i < |jobs| && GasCall(jobs[i]) == Ok(Saved(x.path, x.table)))
                 && (x.CsvFile? ==> env.saveCsv)
  {
    if x in Written(RunFile(prep, env)) {
      var p := prep.value.value;
      var jobs := GasPlan(p.frames, env.outputFolder, CountryName(env), p.base, |GasNames|);
      GasPlanWellFormed(p.frames, env.outputFolder, CountryName(env), p.base, |GasNames|);
      var levels := LevelPlan(p.frames, p.base, LevelOutput(env), |LevelDirs|);
      LevelPlanSound(p.frames, p.base, LevelOutput(env), |LevelDirs|, x);
      assert x in levels || x in RunGasJobs(jobs).0;
      if x !in levels {
        RunCallsSound(Results(jobs), x);
        var i :| 0 <= i < |jobs| && Results(jobs)[i] == Ok(Saved(x.path, x.table));
      }
    }
  }

  // ---------------------------------------------------------------- the gas calls as written and as meant

  /** As written, no workbook completes and no gas file is written; a prepared workbook always fails on the gas call. */
  lemma AsWrittenWritesNoGasFiles(prep: Result<Option<Prepared>, FileError>, env: Settings)
    requires PreparedWellFormed(prep)
    ensures !RunFileAsWritten(prep, env).Done?
    ensures forall x :: x in Written(RunFileAsWritten(prep, env)) ==> !x.GasFile?
    ensures prep.Ok? && prep.value.Some? ==> RunFileAsWritten(prep, env).error == GasCallRejected
  {
    if prep.Ok? && prep.value.Some? {
      var p := prep.value.value;
      forall x | x in Written(RunFileAsWritten(prep, env)) ensures !x.GasFile? {
        LevelPlanSound(p.frames, p.base, LevelOutput(env), |LevelDirs|, x);
      }
    }
  }

  /** The evident fix only adds files: the run as written writes a prefix of what the corrected run writes. */
  lemma CorrectedExtendsAsWritten(prep: Result<Option<Prepared>, FileError>, env: Settings)
    requires PreparedWellFormed(prep)
    ensures Written(RunFileAsWritten(prep, env)) <= Written(RunFile(prep, env))
    ensures !(prep.Ok? && prep.value.Some?) ==> RunFileAsWritten(prep, env) == RunFile(prep, env)
  {
    if prep.Ok? && prep.value.Some? {
      RunFileWritten(prep.value.value, env);
    }
  }

  /**
    When the first call (CO₂ at the total level) saves a table, the corrected run writes that gas file
    and the run as written does not.
  */
  lemma CorrectedWritesGasFiles(p: Prepared, env: Settings)
    requires PreparedWellFormed(Ok(Some(p)))
    ensures var first := GasJobsOfGas(p.frames, env.outputFolder, CountryName(env), p.base, 0)[0];
            var call := GasCall(first);
            call.Ok? && call.value.Saved? ==>
              && GasFile(call.value.path, call.value.table) in Written(RunFile(Ok(Some(p)), env))
              && GasFile(call.value.path, call.value.table) !in Written(RunFileAsWritten(Ok(Some(p)), env))
  {
    var jobs := GasPlan(p.frames, env.outputFolder, CountryName(env), p.base, |GasNames|);
    var first := GasJobsOfGas(p.frames, env.outputFolder, CountryName(env), p.base, 0)[0];
    var call := GasCall(first);
    RunFileWritten(p, env);
    if call.Ok? && call.value.Saved? {
      var x := GasFile(call.value.path, call.value.table);
      assert jobs[0] == first by {
        GasPlanPrefix(p.frames, env.outputFolder, CountryName(env), p.base, 1, |GasNames|);
        assert GasPlan(p.frames, env.outputFolder, CountryName(env), p.base, 1)[0] == first;
      }
      assert Results(jobs)[0] == call;
      FirstSavedWritten(Results(jobs));
      AsWrittenWritesNoGasFiles(Ok(Some(p)), env);
    }
  }

  /** A frame with the three columns the call reads, whatever its values: the corrected call saves a table from it. */
  lemma GasCallSavesExample(amount: int, year: int)
    ensures var f := Frame(["CO₂ (kt)", "Year", "Label"], [[Some(Num(amount)), Some(Num(year)), Some(Str("Total"))]]);
            var r := SaveGasLevel(f, "CO₂ (kt)", "au/total.parquet", "Year", "Label", None);
            r.Ok? && r.value.Saved?
  {
    var f := Frame(["CO₂ (kt)", "Year", "Label"], [[Some(Num(amount)), Some(Num(year)), Some(Str("Total"))]]);
    assert FirstToken("CO₂ (kt)").Some? by {
      GasNameToken(0);
      assert "CO₂ (kt)" == GasNames[0];
    }
    assert "Year" in f.columns && "Label" in f.columns && "CO₂ (kt)" in f.columns by {
      assert f.columns[1] == "Year" && f.columns[2] == "Label" && f.columns[0] == "CO₂ (kt)";
    }
    assert Dirname("au/total.parquet") != [];
    SaveGasLevelSaves(f, "CO₂ (kt)", "au/total.parquet", "Year", "Label");
  }

  // ---------------------------------------------------------------- the loops, step by step

  /** Lines 62-111 as the source runs them: the header search, the renaming loop and the category loop. */
  method CleanSheetSteps(w: Workbook, env: Settings) returns (r: Result<Frame, FileError>)
    requires TableWellFormed(w.table)
    ensures r == CleanSheet(w, env)
  {
    var rows := DetectHeaderRowsLoop(w.grid, Some(SummaryAnchor), None, DefaultLookahead);
    if rows.Err? {
      return Err(HeaderNotFound);
    }
    var read := ReadWithDetectedHeader(w.table, true, env.pandasName);
    var names := RenameColumns(read.columns);
    var f := Frame(names, read.rows);
    assert f == ReadRenamed(w, env);
    var c := FindCategoryColumn(f.columns);
    if c.None? {
      return Err(CategoryNotFound);
    }
    r := CleanFrame(f, c.value, env.numeric);
  }

  /** Lines 62-154 step by step. */
  method PrepareSteps(w: Workbook, env: Settings) returns (prep: Result<Option<Prepared>, FileError>)
    requires TableWellFormed(w.table)
    ensures prep == Prepare(w, env)
  {
    var cleaned := CleanSheetSteps(w, env);
    if cleaned.Err? {
      return Err(cleaned.error);
    }
    var key := FileKey(w.path);
    if key.None? {
      return Ok(None);
    }
    var stamped := Stamp(cleaned.value, env.sheet, Upper(CountryName(env)), key.value.1);
    var leveled := BuildHierarchy(stamped);
    if leveled.Err? {
      return Err(HierarchyFailed(leveled.error));
    }
    LeveledWellFormed(stamped);
    prep := Ok(Some(Prepared(FramesToWrite(leveled.value), BaseFileName(key.value.0, env.sheet, key.value.1))));
  }

  /** Lines 139-205: the level loop, then the gas loops. */
  method WriteSteps(prep: Result<Option<Prepared>, FileError>, env: Settings) returns (run: FileRun)
    requires PreparedWellFormed(prep)
    ensures run == RunFile(prep, env)
  {
    match prep {
      case Err(e) => run := Failed([], e);
      case Ok(None) => run := SkippedFile;
      case Ok(Some(p)) =>
        var levels := SaveLevels(p.frames, p.base, LevelOutput(env));
        var gas, error := SaveGasFiles(p.frames, env.outputFolder, CountryName(env), p.base);
        if error.None? {
          run := Done(levels + gas);
        } else {
          run := Failed(levels + gas, GasFailed(error.value));
        }
    }
  }

  /** One workbook: the body of the file loop, its exceptions caught as the handler of line 209 does. */
  method ProcessSheetFile(w: Workbook, env: Settings) returns (run: FileRun)
    requires TableWellFormed(w.table)
    ensures run == ProcessFile(w, env)
  {
    var prep := PrepareSteps(w, env);
    run := WriteSteps(prep, env);
  }

  /** Every workbook of the folder has a table with rows as wide as its header. */
  predicate FolderWellFormed(files: seq<Workbook>) {
    forall i :: 0 <= i < |files| ==> TableWellFormed(files[i].table)
  }

  /** The runs of the file loop over `files`, one per workbook, in order. */
  function ProcessAll(files: seq<Workbook>, env: Settings): (runs: seq<FileRun>)
    requires FolderWellFormed(files)
    ensures |runs| == |files|
  {
    if files == [] then []
    else ProcessAll(files[..|files| - 1], env) + [ProcessFile(files[|files| - 1], env)]
  }

  /** Each workbook's run is its own: no file's outcome depends on another's. */
  lemma {:induction false} ProcessAllEach(files: seq<Workbook>, env: Settings, i: nat)
    requires FolderWellFormed(files) && i < |files|
    ensures ProcessAll(files, env)[i] == ProcessFile(files[i], env)
    decreases |files|
  {
    var init := files[..|files| - 1];
    assert FolderWellFormed(init) by {
      assert forall j :: 0 <= j < |init| ==> init[j] == files[j];
    }
    if i < |files| - 1 {
      ProcessAllEach(init, env, i);
      assert files[i] == init[i];
    }
  }

  /** `process_summary_sheet` over the workbooks of the folder, in the order the glob lists them. */
  method ProcessFolder(files: seq<Workbook>, env: Settings) returns (runs: seq<FileRun>)
    requires FolderWellFormed(files)
    ensures runs == ProcessAll(files, env)
  {
    runs := [];
    var i := 0;
    while i < |files|
      invariant 0 <= i <= |files|
      invariant FolderWellFormed(files[..i])
      invariant runs == ProcessAll(files[..i], env)
    {
      var run := ProcessSheetFile(files[i], env);
      ProcessAllStep(files, env, i);
      runs := runs + [run];
      i := i + 1;
    }
    assert files[..i] == files;
  }

  lemma ProcessAllStep(files: seq<Workbook>, env: Settings, i: nat)
    requires FolderWellFormed(files) && i < |files|
    ensures FolderWellFormed(files[..i]) && FolderWellFormed(files[..i + 1])
    ensures ProcessAll(files[..i + 1], env) == ProcessAll(files[..i], env) + [ProcessFile(files[i], env)]
  {
    assert files[..i + 1][..i] == files[..i];
    assert FolderWellFormed(files[..i + 1]) by {
      assert forall j :: 0 <= j < i + 1 ==> files[..i + 1][j] == files[j];
    }
    assert FolderWellFormed(files[..i]) by {
      assert forall j :: 0 <= j < i ==> files[..i][j] == files[j];
    }
  }
}
