/**
  The older `process_summary_sheet` (process_summary_by_hiearchy.py): exact-match renaming of a
  few ASCII gas names, the same category-column search, a keyword filter with ASCII formulas, the
  same file-name skip, and CSV output of the five frames of the older hierarchy builder.
*/
module SummaryLegacy {
  import opened Wrappers
  import opened Text
  import opened Paths
  import opened Tables
  import opened LegacyHierarchy
  import opened HeaderDetector
  import opened CrtReader
  import opened SheetProcessor

  // ---------------------------------------------------------------- exact-match renaming (lines 16-28)

  /** The name a column gets: the comparison is on the name as read, with no stripping. */
  function LegacyName(col: string): (name: string)
    ensures col == "CO2" || col == "CO2 (kt)" || col == "Net CO2 (kt)" <==> name == "Net CO2 emissions/removals (kt)" && col != name
    ensures col == "CH4" || col == "CH4 (kt)" ==> name == "CH4 (kt)"
    ensures col == "N2O" || col == "N2O (kt)" ==> name == "N2O (kt)"
    ensures col !in ["CO2", "CO2 (kt)", "Net CO2 (kt)", "CH4", "CH4 (kt)", "N2O", "N2O (kt)"] ==> name == col
  {
    if col == "CO2" || col == "CO2 (kt)" || col == "Net CO2 (kt)" then "Net CO2 emissions/removals (kt)"
    else if col == "CH4" || col == "CH4 (kt)" then "CH4 (kt)"
    else if col == "N2O" || col == "N2O (kt)" then "N2O (kt)"
    else col
  }

  /** Renaming twice gives the same names as renaming once. */
  lemma LegacyNameIdempotent(col: string)
    ensures LegacyName(LegacyName(col)) == LegacyName(col)
  {
  }

  /** Without stripping, a padded name is not recognised, where the newer renaming strips it first. */
  lemma LegacyNameNoStrip()
    ensures LegacyName(" CO2") == " CO2"
    ensures StandardName(" CO2") == "CO₂ (kt)"
  {
    StripLeadingSpace(' ', "CO2");
    assert [' '] + "CO2" == " CO2";
    assert Find(GasKeys, "CO2") == Some(1) by {
      assert GasKeys[0] != "CO2" && GasKeys[1] == "CO2";
    }
  }

  /** `df.columns = new_columns`: one name per column, in column order. */
  function LegacyNames(columns: seq<string>): (names: seq<string>)
    ensures |names| == |columns|
    ensures forall j :: 0 <= j < |columns| ==> names[j] == LegacyName(columns[j])
  {
    Images(LegacyName, columns)
  }

  /** The renaming loop. */
  method RenameColumnsLegacy(columns: seq<string>) returns (names: seq<string>)
    ensures names == LegacyNames(columns)
  {
    names := [];
    var i := 0;
    while i < |columns|
      invariant 0 <= i <= |columns| && names == Images(LegacyName, columns[..i])
    {
      var col := columns[i];
      var name := col;
      if col == "CO2" || col == "CO2 (kt)" || col == "Net CO2 (kt)" {
        name := "Net CO2 emissions/removals (kt)";
      } else if col == "CH4" || col == "CH4 (kt)" {
        name := "CH4 (kt)";
      } else if col == "N2O" || col == "N2O (kt)" {
        name := "N2O (kt)";
      }
      ImagesSnoc(LegacyName, columns[..i], col);
      assert columns[..i + 1] == columns[..i] + [col];
      names := names + [name];
      i := i + 1;
    }
    assert columns[..i] == columns;
  }

  /** The renaming never makes or breaks a category column. */
  lemma LegacyRenamingKeepsCategory(col: string)
    ensures Contains(LegacyName(col), CategoryPhrase) <==> Contains(col, CategoryPhrase)
  {
    if LegacyName(col) != col {
      ContainsTooLong(LegacyName(col), CategoryPhrase);
      ContainsTooLong(col, CategoryPhrase);
    }
  }

  // ---------------------------------------------------------------- the keyword filter (lines 55-64)

  /** The gas keywords of the older filter: ASCII formulas, no NF3. */
  const LegacyGasKeywords: seq<string> :=
    ["CO2", "CH4", "N2O", "SF6", "HFC", "PFC", "Base year (1)", "Change from base to latest"]

  function LegacyKeywords(): seq<string> {
    LegacyGasKeywords + YearKeywords()
  }

  /** `any(k in col for k in ghg_keywords)`. */
  predicate LegacyKeywordColumn(col: string) {
    exists k :: 0 <= k < |LegacyKeywords()| && Contains(col, LegacyKeywords()[k])
  }

  /** A name holding one of the older gas keywords passes the older filter. */
  lemma LegacyKeywordInside(before: string, m: nat, after: string)
    requires m < |LegacyGasKeywords|
    ensures LegacyKeywordColumn(before + LegacyGasKeywords[m] + after)
  {
    var k := LegacyGasKeywords[m];
    PrefixContained(k + after, k);
    ContainsInRight(before, k + after, k);
    assert before + k + after == before + (k + after);
    assert LegacyKeywords()[m] == k;
  }

  /** The name the renaming gives the carbon dioxide column passes the older filter. */
  lemma NetCarbonKept()
    ensures LegacyKeywordColumn("Net CO2 emissions/removals (kt)")
  {
    var name := "Net CO2 emissions/removals (kt)";
    assert name == "Net " + LegacyGasKeywords[0] + " emissions/removals (kt)" by {
      assert LegacyGasKeywords[0] == "CO2";
    }
    LegacyKeywordInside("Net ", 0, " emissions/removals (kt)");
  }

  /** A renamed single-gas column passes the older filter. */
  lemma GasKiloTonnesKept(m: nat)
    requires m < |LegacyGasKeywords|
    ensures LegacyKeywordColumn(LegacyGasKeywords[m] + " (kt)")
  {
    LegacyKeywordInside("", m, " (kt)");
    assert "" + LegacyGasKeywords[m] + " (kt)" == LegacyGasKeywords[m] + " (kt)";
  }

  /** The three names the renaming produces all pass the older filter. */
  lemma LegacyNamesKept()
    ensures LegacyKeywordColumn("Net CO2 emissions/removals (kt)")
    ensures LegacyKeywordColumn("CH4 (kt)") && LegacyKeywordColumn("N2O (kt)")
  {
    NetCarbonKept();
    GasKiloTonnesKept(1);
    assert LegacyGasKeywords[1] + " (kt)" == "CH4 (kt)";
    GasKiloTonnesKept(2);
    assert LegacyGasKeywords[2] + " (kt)" == "N2O (kt)";
  }

  /** A year column passes the older filter too. */
  lemma LegacyYearColumnKept(col: string, year: int)
    requires 1990 <= year <= 2023 && Contains(col, IntToString(year))
    ensures LegacyKeywordColumn(col)
  {
    assert LegacyKeywords()[8 + year - 1990] == YearKeywords()[year - 1990] == IntToString(year);
  }

  /** `df[[category_col] + matching columns]`, a KeyError when the category column was dropped. */
  function LegacyKeepColumns(g: Frame, category: string): (r: Result<Frame, FileError>)
    requires WellFormed(g)
    ensures r.Err? <==> category !in g.columns
    ensures r.Err? ==> r.error == CategoryColumnDropped
    ensures r.Ok? ==> WellFormed(r.value) && |r.value.rows| == |g.rows|
                      && r.value.columns == [category] + Filter(g.columns, LegacyKeywordColumn)
  {
    if category !in g.columns then Err(CategoryColumnDropped)
    else Ok(ColumnsByName(g, [category] + Filter(g.columns, LegacyKeywordColumn)))
  }

  /** The category column, then in their original order exactly the columns that hold an older keyword. */
  lemma LegacyKeptColumns(g: Frame, category: string)
    requires WellFormed(g) && category in g.columns
    ensures var cols := LegacyKeepColumns(g, category).value.columns;
            && cols[0] == category
            && (forall x :: x in cols[1..] ==> x in g.columns && LegacyKeywordColumn(x))
            && (forall j :: 0 <= j < |g.columns| && LegacyKeywordColumn(g.columns[j]) ==> g.columns[j] in cols[1..])
            && Subsequence(cols[1..], g.columns)
  {
    var cols := LegacyKeepColumns(g, category).value.columns;
    assert cols[1..] == Filter(g.columns, LegacyKeywordColumn);
    FilterSubsequence(g.columns, LegacyKeywordColumn);
  }

  /** Read as 'NF3 (kt)', a nitrogen trifluoride column passes neither gas list of the older filter. */
  lemma LegacyDropsNitrogenTrifluoride()
    ensures !LegacyKeywordColumn("NF3 (kt)")
  {
    var col := "NF3 (kt)";
    forall k | 0 <= k < |LegacyKeywords()| ensures !Contains(col, LegacyKeywords()[k]) {
      if k < |LegacyGasKeywords| {
        LegacyGasNotInNitrogen(k);
      } else {
        YearNotInNitrogen(k - |LegacyGasKeywords|);
      }
    }
  }

  lemma LegacyGasNotInNitrogen(k: nat)
    requires k < |LegacyGasKeywords|
    ensures !Contains("NF3 (kt)", LegacyGasKeywords[k])
  {
    var c := ['C', 'C', '2', 'S', 'C', 'C', 'B', 'C'][k];
    assert c in LegacyGasKeywords[k];
    NotContainsMissingChar("NF3 (kt)", LegacyGasKeywords[k], c);
  }

  lemma YearNotInNitrogen(k: nat)
    requires k < 34
    ensures !Contains("NF3 (kt)", YearKeywords()[k])
  {
    var col := "NF3 (kt)";
    var n := 1990 + k;
    var t := YearKeywords()[k];
    assert t == NatToString(n / 10) + [DigitChar(n % 10)];
    assert |t| >= 2 && IsDigit(t[0]) && IsDigit(t[1]);
    if Contains(col, t) {
      ContainsWitness(col, t);
      var i :| OccursAt(col, t, i);
      assert col[i] == t[0] && col[i + 1] == t[1];
      NoTwoDigits(i);
    }
  }

  lemma NoTwoDigits(i: nat)
    ensures i + 1 < |"NF3 (kt)"| ==> !(IsDigit("NF3 (kt)"[i]) && IsDigit("NF3 (kt)"[i + 1]))
  {
    var col := "NF3 (kt)";
    if i + 1 < |col| {
      assert i == 0 || i == 1 || i == 2 || i == 3 || i == 4 || i == 5 || i == 6;
    }
  }

  /** Lines 31-64 on the frame as read: rename, find the category column, coerce, drop, filter. */
  function LegacyClean(f: Frame, numeric: Value -> Cell): (r: Result<Frame, FileError>)
    requires WellFormed(f)
    ensures r == Err(CategoryNotFound) <==> forall j :: 0 <= j < |f.columns| ==> !Contains(f.columns[j], CategoryPhrase)
    ensures r.Ok? ==> WellFormed(r.value) && r.value.columns != [] && Contains(r.value.columns[0], CategoryPhrase)
    ensures r.Ok? ==> forall j :: 1 <= j < |r.value.columns| ==> LegacyKeywordColumn(r.value.columns[j])
  {
    var g := Frame(LegacyNames(f.columns), f.rows);
    assert forall j :: 0 <= j < |f.columns| ==> (Contains(g.columns[j], CategoryPhrase) <==> Contains(f.columns[j], CategoryPhrase)) by {
      forall j | 0 <= j < |f.columns| ensures Contains(g.columns[j], CategoryPhrase) <==> Contains(f.columns[j], CategoryPhrase) {
        LegacyRenamingKeepsCategory(f.columns[j]);
      }
    }
    match CategoryColumnIndex(g.columns)
    case None => Err(CategoryNotFound)
    case Some(c) => LegacyCleanFrame(g, c, numeric)
  }

  function LegacyCleanFrame(g: Frame, c: nat, numeric: Value -> Cell): (r: Result<Frame, FileError>)
    requires WellFormed(g) && c < |g.columns|
    ensures r.Err? ==> r.error == CategoryColumnDropped
    ensures r.Ok? ==> WellFormed(r.value) && r.value.columns != [] && r.value.columns[0] == g.columns[c]
    ensures r.Ok? ==> forall j :: 1 <= j < |r.value.columns| ==> LegacyKeywordColumn(r.value.columns[j])
  {
    var r := LegacyKeepColumns(DropEmptyColumns(DropEmptyRows(Coerce(g, c, numeric))), g.columns[c]);
    assert r.Ok? ==> forall j :: 1 <= j < |r.value.columns| ==> r.value.columns[j] in r.value.columns[1..];
    r
  }

  // ---------------------------------------------------------------- CSV output naming (lines 76-121)

  /** The five output directories, in the order the older hierarchy builder returns its frames. */
  const LegacyLevelDirs: seq<string> := ["total", "sectors", "subsectors", "sub_subsectors", "memo_items"]

  /** `country_output = os.path.join(output_folder, country_name)` with the lower-cased folder name. */
  function LegacyCountryOutput(folderPath: string, outputFolder: string): string {
    PathJoin(outputFolder, Lower(Basename(folderPath)))
  }

  /** The four level frames, then the memo frame. */
  function LegacyFramesToWrite(l: LegacyLeveled): (frames: seq<Frame>)
    ensures |frames| == |l.frames| + 1 && frames[|l.frames|] == l.memo
  {
    l.frames + [l.memo]
  }

  /** The CSV writes of the first `n` frames: one file per non-empty frame. */
  function LegacyPlan(frames: seq<Frame>, base: string, root: string, n: nat): seq<Write>
    requires |frames| == |LegacyLevelDirs| && n <= |LegacyLevelDirs|
  {
    if n == 0 then []
    else LegacyPlan(frames, base, root, n - 1)
         + (if Empty(frames[n - 1]) then [] else [CsvFile(LevelPath(root, LegacyLevelDirs[n - 1], base, ".csv"), frames[n - 1])])
  }

  /** A non-empty frame is written, at `{root}/{level}/{base}_{level}.csv`. */
  lemma {:induction false} LegacyPlanComplete(frames: seq<Frame>, base: string, root: string, n: nat, s: nat)
    requires |frames| == |LegacyLevelDirs| && s < n <= |LegacyLevelDirs|
    ensures !Empty(frames[s]) ==> CsvFile(LevelPath(root, LegacyLevelDirs[s], base, ".csv"), frames[s]) in LegacyPlan(frames, base, root, n)
  {
    if s < n - 1 {
      LegacyPlanComplete(frames, base, root, n - 1, s);
    }
  }

  /** An empty frame is not written: no write has the file name of its level. */
  lemma LegacyPlanSkipsEmpty(frames: seq<Frame>, base: string, root: string, s: nat, x: Write)
    requires |frames| == |LegacyLevelDirs| && s < |LegacyLevelDirs| && '/' !in base && Empty(frames[s])
    ensures x in LegacyPlan(frames, base, root, |LegacyLevelDirs|) ==> x.path != LevelPath(root, LegacyLevelDirs[s], base, ".csv")
  {
    LegacyPlanSound(frames, base, root, |LegacyLevelDirs|, x);
    if x in LegacyPlan(frames, base, root, |LegacyLevelDirs|) {
      var t :| 0 <= t < |LegacyLevelDirs| && !Empty(frames[t])
        && x == CsvFile(LevelPath(root, LegacyLevelDirs[t], base, ".csv"), frames[t]);
      if t < s {
        LegacyPathsDistinct(root, base, t, s);
      } else if s < t {
        LegacyPathsDistinct(root, base, s, t);
      }
    }
  }

  /** Every write is the CSV file of a non-empty frame at its level's path. */
  lemma {:induction false} LegacyPlanSound(frames: seq<Frame>, base: string, root: string, n: nat, x: Write)
    requires |frames| == |LegacyLevelDirs| && n <= |LegacyLevelDirs|
    ensures x in LegacyPlan(frames, base, root, n) ==>
              exists s :: 0 <= s < n && !Empty(frames[s])
                && x == CsvFile(LevelPath(root, LegacyLevelDirs[s], base, ".csv"), frames[s])
  {
    if n > 0 && x in LegacyPlan(frames, base, root, n) && x !in LegacyPlan(frames, base, root, n - 1) {
      assert !Empty(frames[n - 1]);
    } else if n > 0 {
      LegacyPlanSound(frames, base, root, n - 1, x);
    }
  }

  /** Different levels give different file names when the base name has no '/'. */
  lemma LegacyPathsDistinct(root: string, base: string, s: nat, t: nat)
    requires s < t < |LegacyLevelDirs|
    ensures '/' !in base ==> LevelPath(root, LegacyLevelDirs[s], base, ".csv") != LevelPath(root, LegacyLevelDirs[t], base, ".csv")
  {
    if '/' !in base {
      LegacyLevelDirPlain(s);
      LegacyLevelDirPlain(t);
      assert LegacyLevelDirs[s] != LegacyLevelDirs[t] by {
        assert |LegacyLevelDirs[s]| != |LegacyLevelDirs[t]| || LegacyLevelDirs[s][0] != LegacyLevelDirs[t][0];
      }
      LevelPathsDiffer(root, base, LegacyLevelDirs[s], LegacyLevelDirs[t], ".csv");
    }
  }

  lemma LegacyLevelDirPlain(s: nat)
    requires s < |LegacyLevelDirs|
    ensures '/' !in LegacyLevelDirs[s]
  {
    var d := LegacyLevelDirs[s];
    forall i | 0 <= i < |d| ensures 'a' <= d[i] <= 'z' || d[i] == '_' {
    }
  }

  /** The `Country` column holds the same upper-cased name as in the newer pipeline, although the folder name is lower-cased first. */
  lemma LegacyCountryColumn(folderName: string)
    ensures Upper(Lower(folderName)) == Upper(folderName)
  {
    var l := Lower(folderName);
    forall i | 0 <= i < |folderName| ensures Upper(l)[i] == Upper(folderName)[i] {
      assert l[i] == LowerChar(folderName[i]);
    }
  }

  // ---------------------------------------------------------------- one workbook (lines 11-126)

  /** The anchor the older code reads the summary sheet with. */
  const LegacyAnchor: string := "GREENHOUSE GAS SOURCE AND"

  function LegacyHeaderSearch(w: Workbook): Result<seq<nat>, HeaderError> {
    DetectHeaderRows(w.grid, Some(LegacyAnchor), None, DefaultLookahead)
  }

  /** Lines 13-64: read with the detected header of the neighbouring read_crt_format.py, then clean. */
  function LegacyCleanSheet(w: Workbook, env: Settings): (r: Result<Frame, FileError>)
    requires TableWellFormed(w.table)
    ensures r == Err(HeaderNotFound) <==> LegacyHeaderSearch(w).Err?
    ensures r.Ok? ==> WellFormed(r.value) && r.value.columns != [] && Contains(r.value.columns[0], CategoryPhrase)
  {
    if LegacyHeaderSearch(w).Err? then Err(HeaderNotFound)
    else LegacyClean(OldReadWithDetectedHeader(w.table, true, env.pandasName), env.numeric)
  }

  /**
    The outcome of one workbook: an error (caught and reported by the handler at lines 125-126),
    `None` when the file name gives no code or year, or the CSV files written.
  */
  function LegacySummaryFile(w: Workbook, env: Settings): Result<Option<seq<Write>>, FileError>
    requires TableWellFormed(w.table)
  {
    match LegacyCleanSheet(w, env)
    case Err(e) => Err(e)
    case Ok(g) => LegacySummaryCleaned(g, w.path, env)
  }

  /** The older builder's steps after cleaning: stamp, build the levels, plan the CSV files. */
  function LegacySummaryCleaned(g: Frame, path: string, env: Settings): Result<Option<seq<Write>>, FileError>
    requires WellFormed(g)
  {
    match FileKey(path)
    case None => Ok(None)
    case Some(key) =>
      var stamped := Stamp(g, env.sheet, Upper(Lower(CountryName(env))), key.1);
      match ProcessLegacy(stamped)
      case Err(e) => Err(HierarchyFailed(e))
      case Ok(l) =>
        Ok(Some(LegacyPlan(LegacyFramesToWrite(l), BaseFileName(key.0, env.sheet, key.1),
                           LegacyCountryOutput(env.folderPath, env.outputFolder), |LegacyLevelDirs|)))
  }

  /**
    A workbook is skipped iff it is cleaned and its name gives no code or year; the older
    builder never fails, since the cleaned frame keeps its category column first.
  */
  lemma LegacySummaryFileOutcome(w: Workbook, env: Settings)
    requires TableWellFormed(w.table)
    ensures LegacySummaryFile(w, env) == Ok(None) <==> LegacyCleanSheet(w, env).Ok? && FileKey(w.path).None?
    ensures LegacyCleanSheet(w, env).Err? ==> LegacySummaryFile(w, env) == Err(LegacyCleanSheet(w, env).error)
    ensures LegacyCleanSheet(w, env).Ok? && FileKey(w.path).Some? ==> LegacySummaryFile(w, env).Ok?
  {
    var r := LegacyCleanSheet(w, env);
    if r.Ok? && FileKey(w.path).Some? {
      var key := FileKey(w.path).value;
      var stamped := Stamp(r.value, env.sheet, Upper(Lower(CountryName(env))), key.1);
      StampColumns(r.value, env.sheet, Upper(Lower(CountryName(env))), key.1);
      assert stamped.columns[0] == r.value.columns[0];
      assert CategoryColumnIndex(stamped.columns).Some?;
    }
  }

  /**
    Every file written is the CSV file, at `{country_output}/{level}/{base}_{level}.csv`, of a
    non-empty frame of the older builder, under the lower-cased folder name.
  */
  lemma LegacyWritesSound(w: Workbook, env: Settings, x: Write)
    requires TableWellFormed(w.table)
    requires LegacySummaryFile(w, env).Ok? && LegacySummaryFile(w, env).value.Some?
    ensures x in LegacySummaryFile(w, env).value.value ==>
              exists s, f :: 0 <= s < |LegacyLevelDirs| && !Empty(f) && x.CsvFile? && x.frame == f
                && x.path == LevelPath(LegacyCountryOutput(env.folderPath, env.outputFolder), LegacyLevelDirs[s],
                                       BaseFileName(FileKey(w.path).value.0, env.sheet, FileKey(w.path).value.1), ".csv")
  {
    var g := LegacyCleanSheet(w, env).value;
    var key := FileKey(w.path).value;
    var stamped := Stamp(g, env.sheet, Upper(Lower(CountryName(env))), key.1);
    var l := ProcessLegacy(stamped).value;
    var base := BaseFileName(key.0, env.sheet, key.1);
    var root := LegacyCountryOutput(env.folderPath, env.outputFolder);
    LegacyPlanSound(LegacyFramesToWrite(l), base, root, |LegacyLevelDirs|, x);
  }
}
