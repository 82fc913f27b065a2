/**
  `save_gas_level_parquet` without the write: the gas name, the output path and the
  year-by-label table that `pivot_table(..., aggfunc='first').sort_index()` builds.
*/
module GasPivot {
  import opened Wrappers
  import opened Text
  import opened Paths
  import opened Tables

  // ---------------------------------------------------------------- orders

  /** Python's `<` on strings: code-point lexicographic order. */
  predicate StrLess(a: string, b: string)
    decreases |a|
  {
    if a == [] then b != []
    else b != [] && (a[0] < b[0] || (a[0] == b[0] && StrLess(a[1..], b[1..])))
  }

  lemma {:induction false} StrLessIrreflexive(a: string)
    ensures !StrLess(a, a)
    decreases |a|
  {
    if a != [] {
      StrLessIrreflexive(a[1..]);
    }
  }

  lemma {:induction false} StrLessTransitive(a: string, b: string, c: string)
    requires StrLess(a, b) && StrLess(b, c)
    ensures StrLess(a, c)
    decreases |a|
  {
    if a != [] && a[0] == b[0] && b[0] == c[0] {
      StrLessTransitive(a[1..], b[1..], c[1..]);
    }
  }

  lemma {:induction false} StrLessTotal(a: string, b: string)
    requires a != b
    ensures StrLess(a, b) || StrLess(b, a)
    decreases |a|
  {
    if a != [] && b != [] && a[0] == b[0] {
      StrLessTotal(a[1..], b[1..]);
    }
  }

  /** Ascending without repeats. */
  predicate IntsAscending(s: seq<int>) {
    forall i, j :: 0 <= i < j < |s| ==> s[i] < s[j]
  }

  predicate StrsAscending(s: seq<string>) {
    forall i, j :: 0 <= i < j < |s| ==> StrLess(s[i], s[j])
  }

  function InsertInt(s: seq<int>, x: int): (r: seq<int>)
    requires IntsAscending(s)
    ensures IntsAscending(r) && forall z :: z in r <==> z in s || z == x
    ensures r != [] && (s != [] ==> r[0] == x || r[0] == s[0])
  {
    if s == [] then [x]
    else if x == s[0] then s
    else if x < s[0] then [x] + s
    else
      var rest := InsertInt(s[1..], x);
      assert forall z :: z in s <==> z == s[0] || z in s[1..] by { assert s == [s[0]] + s[1..]; }
      [s[0]] + rest
  }

  function InsertStr(s: seq<string>, x: string): (r: seq<string>)
    requires StrsAscending(s)
    ensures StrsAscending(r) && forall z :: z in r <==> z in s || z == x
    ensures r != [] && (s != [] ==> r[0] == x || r[0] == s[0])
  {
    if s == [] then [x]
    else if x == s[0] then s
    else if StrLess(x, s[0]) then
      assert StrsAscending([x] + s) by {
        forall j | 0 < j < |s| ensures StrLess(x, s[j]) {
          StrLessTransitive(x, s[0], s[j]);
        }
      }
      [x] + s
    else
      StrLessTotal(x, s[0]);
      var rest := InsertStr(s[1..], x);
      assert forall z :: z in s <==> z == s[0] || z in s[1..] by { assert s == [s[0]] + s[1..]; }
      assert StrsAscending([s[0]] + rest) by {
        forall j | 0 <= j < |rest| ensures StrLess(s[0], rest[j]) {
          assert rest[j] in s[1..] || rest[j] == x;
          if rest[j] != x {
            var k :| 0 <= k < |s[1..]| && s[1..][k] == rest[j];
            assert s[k + 1] == rest[j];
          }
        }
      }
      [s[0]] + rest
  }

  /** The distinct values of `xs`, ascending (the sorted index of the pivot). */
  function SortedInts(xs: seq<int>): (r: seq<int>)
    ensures IntsAscending(r) && forall z :: z in r <==> z in xs
  {
    if xs == [] then []
    else
      assert forall z :: z in xs <==> z in xs[..|xs| - 1] || z == xs[|xs| - 1] by {
        assert xs == xs[..|xs| - 1] + [xs[|xs| - 1]];
      }
      InsertInt(SortedInts(xs[..|xs| - 1]), xs[|xs| - 1])
  }

  /** The distinct values of `xs`, ascending (the sorted columns of the pivot). */
  function SortedStrs(xs: seq<string>): (r: seq<string>)
    ensures StrsAscending(r) && forall z :: z in r <==> z in xs
  {
    if xs == [] then []
    else
      assert forall z :: z in xs <==> z in xs[..|xs| - 1] || z == xs[|xs| - 1] by {
        assert xs == xs[..|xs| - 1] + [xs[|xs| - 1]];
      }
      InsertStr(SortedStrs(xs[..|xs| - 1]), xs[|xs| - 1])
  }

  // ---------------------------------------------------------------- the pivot

  /** One row of the long table that takes part in the pivot: a year, a label and a value. */
  datatype Entry = Entry(year: int, column: string, value: Value)

  /**
    The rows of the three selected columns that the pivot groups: NaN keys and NaN values
    drop out, as `pivot_table` drops NaN group keys and `first` skips NaN values.
  */
  predicate Usable(year: Cell, heading: Cell, value: Cell) {
    year.Some? && year.value.Num? && heading.Some? && heading.value.Str? && value.Some?
  }

  function Entries(f: Frame, yi: nat, li: nat, vi: nat): (es: seq<Entry>)
    requires WellFormed(f) && yi < |f.columns| && li < |f.columns| && vi < |f.columns|
    ensures |es| <= |f.rows|
    ensures forall e :: e in es <==> exists r :: 0 <= r < |f.rows| && Usable(f.rows[r][yi], f.rows[r][li], f.rows[r][vi])
                                              && e == Entry(f.rows[r][yi].value.n, f.rows[r][li].value.s, f.rows[r][vi].value)
    decreases |f.rows|
  {
    if f.rows == [] then []
    else
      var last := f.rows[|f.rows| - 1];
      var init := Frame(f.columns, f.rows[..|f.rows| - 1]);
      var head := Entries(init, yi, li, vi);
      if Usable(last[yi], last[li], last[vi])
      then head + [Entry(last[yi].value.n, last[li].value.s, last[vi].value)]
      else head
  }

  /** The first value of year `y` and label `l` in table order (`aggfunc='first'`). */
  function FirstValue(es: seq<Entry>, y: int, l: string): (v: Option<Value>)
    ensures v.None? <==> forall i :: 0 <= i < |es| ==> es[i].year != y || es[i].column != l
    ensures v.Some? ==> exists i :: 0 <= i < |es| && es[i] == Entry(y, l, v.value)
                                    && forall k :: 0 <= k < i ==> es[k].year != y || es[k].column != l
  {
    if es == [] then None
    else if es[0].year == y && es[0].column == l then Some(es[0].value)
    else match FirstValue(es[1..], y, l)
      case None => None
      case Some(x) =>
        var i :| 0 <= i < |es[1..]| && es[1..][i] == Entry(y, l, x)
                 && forall k :: 0 <= k < i ==> es[1..][k].year != y || es[1..][k].column != l;
        assert es[i + 1] == Entry(y, l, x);
        Some(x)
  }

  function Years(es: seq<Entry>): (ys: seq<int>)
    ensures |ys| == |es| && forall i :: 0 <= i < |es| ==> ys[i] == es[i].year
  {
    seq(|es|, i requires 0 <= i < |es| => es[i].year)
  }

  function Labels(es: seq<Entry>): (ls: seq<string>)
    ensures |ls| == |es| && forall i :: 0 <= i < |es| ==> ls[i] == es[i].column
  {
    seq(|es|, i requires 0 <= i < |es| => es[i].column)
  }

  /** The wide table: sorted years down, sorted labels across, the first value in each cell. */
  datatype PivotTable = PivotTable(years: seq<int>, labels: seq<string>, cells: seq<seq<Option<Value>>>)

  function Pivot(es: seq<Entry>): (t: PivotTable)
    ensures IntsAscending(t.years) && forall y :: y in t.years <==> exists i :: 0 <= i < |es| && es[i].year == y
    ensures StrsAscending(t.labels) && forall l :: l in t.labels <==> exists i :: 0 <= i < |es| && es[i].column == l
    ensures |t.cells| == |t.years|
    ensures forall r :: 0 <= r < |t.years| ==>
              |t.cells[r]| == |t.labels|
              && (forall c :: 0 <= c < |t.labels| ==> t.cells[r][c] == FirstValue(es, t.years[r], t.labels[c]))
  {
    var ys := SortedInts(Years(es));
    var ls := SortedStrs(Labels(es));
    assert forall y :: y in Years(es) <==> exists i :: 0 <= i < |es| && es[i].year == y by {
      forall y | y in Years(es) ensures exists i :: 0 <= i < |es| && es[i].year == y {
        var i :| 0 <= i < |Years(es)| && Years(es)[i] == y;
      }
    }
    assert forall l :: l in Labels(es) <==> exists i :: 0 <= i < |es| && es[i].column == l by {
      forall l | l in Labels(es) ensures exists i :: 0 <= i < |es| && es[i].column == l {
        var i :| 0 <= i < |Labels(es)| && Labels(es)[i] == l;
      }
    }
    PivotTable(ys, ls, seq(|ys|, r requires 0 <= r < |ys| => seq(|ls|, c requires 0 <= c < |ls| => FirstValue(es, ys[r], ls[c]))))
  }

  /** Later rows never override a cell that an earlier row has filled. */
  lemma {:induction false} FirstValueWins(es: seq<Entry>, more: seq<Entry>, y: int, l: string)
    requires FirstValue(es, y, l).Some?
    ensures FirstValue(es + more, y, l) == FirstValue(es, y, l)
  {
    if es[0].year == y && es[0].column == l {
      assert (es + more)[0] == es[0];
    } else {
      assert (es + more)[1..] == es[1..] + more;
      FirstValueWins(es[1..], more, y, l);
    }
  }

  /** The pivot is order-dependent: the same two rows in the other order can give another cell. */
  lemma OrderMatters(y: int, l: string, a: Value, b: Value)
    requires a != b
    ensures FirstValue([Entry(y, l, a), Entry(y, l, b)], y, l) == Some(a)
    ensures FirstValue([Entry(y, l, b), Entry(y, l, a)], y, l) == Some(b)
  {
  }

  // ---------------------------------------------------------------- naming

  /** The keys of `gas_type_mapping`: subscript formulas in upper case. */
  const GasTypeKeys: seq<string> := ["CO₂", "CH₄", "N₂O", "SF₆"]
  const GasTypeValues: seq<string> := ["co2", "ch4", "n2o", "sf6"]

  /** `gas_type_mapping.get(name, name)`. */
  function GasType(name: string): (t: string)
    ensures name !in GasTypeKeys ==> t == name
  {
    match Find(GasTypeKeys, name)
    case None => name
    case Some(i) => GasTypeValues[i]
  }

  /** Every key has an upper-case ASCII letter, which a lower-cased name never has: the lookup always misses. */
  lemma GasTypeAlwaysMisses(token: string)
    ensures GasType(Lower(token)) == Lower(token)
  {
    var n := Lower(token);
    forall k | 0 <= k < |GasTypeKeys| ensures GasTypeKeys[k] != n {
      assert 'A' <= GasTypeKeys[k][0] <= 'Z';
    }
  }

  /** `os.path.join(dirname(p), f"{splitext(basename(p))[0]}_{gas}.parquet")`. */
  function OutputPath(outputPath: string, gasType: string): string {
    var stem := StripExtension(Basename(outputPath));
    PathJoin(Dirname(outputPath), stem + "_" + gasType + ".parquet")
  }

  lemma StripExtensionPrefix(p: string)
    ensures StripExtension(p) <= p
  {
  }

  /** The file lands next to `output_path`, named after its stem and the gas. */
  lemma OutputPathShape(outputPath: string, gasType: string)
    requires '/' !in gasType
    ensures var name := StripExtension(Basename(outputPath)) + "_" + gasType + ".parquet";
            Dirname(OutputPath(outputPath, gasType)) == Dirname(outputPath)
            && Basename(OutputPath(outputPath, gasType)) == name
  {
    var b := Basename(outputPath);
    var stem := StripExtension(b);
    StripExtensionPrefix(b);
    assert '/' !in stem;
    var name := stem + "_" + gasType + ".parquet";
    assert '/' !in name;
    JoinOntoDirname(outputPath, name);
  }

  // ---------------------------------------------------------------- the whole call

  datatype GasError =
    | NoGasToken          // `gas_col.split()[0]` on a blank name raises IndexError
    | NoDirectory         // `os.makedirs('')` raises FileNotFoundError
    | MissingColumn(name: string)  // a KeyError from the column selection or from `values=`

  datatype GasOutcome =
    | Skipped             // the gas column is absent; nothing is written
    | Saved(path: string, table: PivotTable)

  /** `value_col`, which defaults to the gas column. */
  function ValueColumn(gasCol: string, valueCol: Option<string>): string {
    if valueCol.None? then gasCol else valueCol.value
  }

  /** `save_gas_level_parquet(df, gas_col, output_path, index_col, column_col, value_col)`, up to the write. */
  function SaveGasLevel(f: Frame, gasCol: string, outputPath: string, indexCol: string, columnCol: string, valueCol: Option<string>): (r: Result<GasOutcome, GasError>)
    requires WellFormed(f)
    ensures gasCol !in f.columns <==> r == Ok(Skipped)
    ensures r.Ok? && r.value.Saved? ==> indexCol in f.columns && columnCol in f.columns && HasNonSpace(gasCol)
    ensures r.Ok? && r.value.Saved? ==> r.value.path == OutputPath(outputPath, Lower(FirstToken(gasCol).value))
    ensures r.Ok? && r.value.Saved? ==>
              && ValueColumn(gasCol, valueCol) in f.columns
              && r.value.table == Pivot(Entries(f, Find(f.columns, indexCol).value, Find(f.columns, columnCol).value,
                                                Find(f.columns, ValueColumn(gasCol, valueCol)).value))
  {
    var value := ValueColumn(gasCol, valueCol);
    if gasCol !in f.columns then Ok(Skipped)
    else match FirstToken(gasCol)
      case None => Err(NoGasToken)
      case Some(token) =>
        var gasType := GasType(Lower(token));
        GasTypeAlwaysMisses(token);
        if Dirname(outputPath) == [] then Err(NoDirectory)
        else if indexCol !in f.columns then Err(MissingColumn(indexCol))
        else if columnCol !in f.columns then Err(MissingColumn(columnCol))
        else if value !in [indexCol, columnCol, gasCol] then Err(MissingColumn(value))
        else
          var yi, li, vi := Find(f.columns, indexCol).value, Find(f.columns, columnCol).value, Find(f.columns, value).value;
          Ok(Saved(OutputPath(outputPath, gasType), Pivot(Entries(f, yi, li, vi))))
  }

  /** Without `value_col` the call saves a table exactly when the gas, index and label columns exist, the gas name has a token and the path a directory. */
  lemma SaveGasLevelSaves(f: Frame, gasCol: string, outputPath: string, indexCol: string, columnCol: string)
    requires WellFormed(f)
    ensures var r := SaveGasLevel(f, gasCol, outputPath, indexCol, columnCol, None);
            r.Ok? && r.value.Saved?
            <==> && gasCol in f.columns && FirstToken(gasCol).Some? && Dirname(outputPath) != []
                 && indexCol in f.columns && columnCol in f.columns
  {
    assert gasCol in [indexCol, columnCol, gasCol];
  }

  /** Omitting `value_col` is the same as passing `gas_col`. */
  lemma ValueColumnDefault(f: Frame, gasCol: string, outputPath: string, indexCol: string, columnCol: string)
    requires WellFormed(f)
    ensures SaveGasLevel(f, gasCol, outputPath, indexCol, columnCol, None)
         == SaveGasLevel(f, gasCol, outputPath, indexCol, columnCol, Some(gasCol))
  {
  }

  /** Only the index, label and value columns are read: frames that agree on them give the same table. */
  lemma {:induction false} EntriesReadThreeColumns(f: Frame, g: Frame, yi: nat, li: nat, vi: nat)
    requires WellFormed(f) && WellFormed(g) && |f.columns| == |g.columns| && |f.rows| == |g.rows|
    requires yi < |f.columns| && li < |f.columns| && vi < |f.columns|
    requires forall r :: 0 <= r < |f.rows| ==> f.rows[r][yi] == g.rows[r][yi] && f.rows[r][li] == g.rows[r][li] && f.rows[r][vi] == g.rows[r][vi]
    ensures Entries(f, yi, li, vi) == Entries(g, yi, li, vi)
    decreases |f.rows|
  {
    if f.rows != [] {
      var n := |f.rows| - 1;
      EntriesReadThreeColumns(Frame(f.columns, f.rows[..n]), Frame(g.columns, g.rows[..n]), yi, li, vi);
    }
  }
}
