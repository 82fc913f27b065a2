/**
  The dashboard's small selectors: the CO₂ column and the other gas columns of a frame
  (helper/utils.py), and the hierarchy-level row filter (app.py).
*/
module Dashboard {
  import opened Wrappers
  import opened Text
  import opened Tables
  import opened SheetProcessor

  // ---------------------------------------------------------------- gas columns (helper/utils.py)

  const CarbonDioxide: string := "CO₂"

  predicate IsCo2Column(col: string) {
    Contains(col, CarbonDioxide)
  }

  /** `get_co2_column`: the first column, in column order, whose name contains 'CO₂'; None when there is none. */
  function Co2Column(columns: seq<string>): (r: Option<string>)
    ensures r.None? <==> forall j :: 0 <= j < |columns| ==> !IsCo2Column(columns[j])
    ensures r.Some? ==> exists i :: 0 <= i < |columns| && columns[i] == r.value && IsCo2Column(columns[i])
                                    && forall j :: 0 <= j < i ==> !IsCo2Column(columns[j])
  {
    var hits := Filter(columns, IsCo2Column);
    FilterFirst(columns, IsCo2Column);
    if hits == [] then None else Some(hits[0])
  }

  /** The gases `get_other_gas_columns` looks for. */
  const OtherGases: seq<string> := ["CH₄", "N₂O", "SF₆", "HFCs", "PFCs"]

  predicate OtherGasColumn(col: string) {
    exists g :: 0 <= g < |OtherGases| && Contains(col, OtherGases[g])
  }

  /** `get_other_gas_columns`: the columns that name one of the other gases, in column order. */
  function OtherGasColumns(columns: seq<string>): (r: seq<string>)
    ensures forall x :: x in r ==> x in columns && OtherGasColumn(x)
    ensures forall j :: 0 <= j < |columns| && OtherGasColumn(columns[j]) ==> columns[j] in r
    ensures Subsequence(r, columns)
  {
    FilterSubsequence(columns, OtherGasColumn);
    Filter(columns, OtherGasColumn)
  }

  /** On the standard names, the CO₂ column is the carbon dioxide total. */
  lemma Co2ColumnOfStandardNames()
    ensures Co2Column(GasNames) == Some("CO₂ (kt)")
  {
    PrefixContained(GasNames[0], CarbonDioxide);
    assert Filter(GasNames, IsCo2Column) == [GasNames[0]] + Filter(GasNames[1..], IsCo2Column);
  }

  /**
    Among the standard names, exactly the methane, nitrous oxide, SF₆, HFCs and PFCs columns
    are other gas columns: 'CO₂ (kt)', 'HFC+PFC Mix (kt)' and 'NF₃ (kt)' never are.
  */
  lemma OtherGasStandardNames(k: nat)
    requires k < |GasNames|
    ensures OtherGasColumn(GasNames[k]) <==> k in {2, 3, 4, 5, 7}
  {
    var name := GasNames[k];
    if k in {2, 3, 4, 5, 7} {
      var g := [0, 0, 0, 1, 3, 4, 0, 2, 0][k];
      assert StartsWith(name, OtherGases[g]);
      PrefixContained(name, OtherGases[g]);
    } else {
      forall g | 0 <= g < |OtherGases| ensures !Contains(name, OtherGases[g]) {
        MissingOtherGas(k, g);
      }
    }
  }

  lemma MissingOtherGas(k: nat, g: nat)
    requires k in {0, 1, 6, 8} && g < |OtherGases|
    ensures !Contains(GasNames[k], OtherGases[g])
  {
    var c := if g == 1 then (if k == 8 then '₂' else 'N') else ['₄', 'N', '₆', 's', 's'][g];
    assert c in OtherGases[g] && c !in GasNames[k];
    NotContainsMissingChar(GasNames[k], OtherGases[g], c);
  }

  // ---------------------------------------------------------------- the hierarchy filter (app.py)

  const MainSectorsOnly: string := "Main Sectors Only"
  const IncludeSubsectors: string := "Include Subsectors"

  /** A null (NaN) cell in column `c` of every row. */
  function NullMask(f: Frame, c: nat): (keep: seq<bool>)
    requires WellFormed(f) && c < |f.columns|
    ensures |keep| == |f.rows| && forall i :: 0 <= i < |f.rows| ==> keep[i] == f.rows[i][c].None?
  {
    seq(|f.rows|, i requires 0 <= i < |f.rows| => f.rows[i][c].None?)
  }

  /** Row by row, the disjunction of two masks. */
  function Either(a: seq<bool>, b: seq<bool>): (keep: seq<bool>)
    requires |a| == |b|
    ensures |keep| == |a| && forall i :: 0 <= i < |a| ==> keep[i] == (a[i] || b[i])
  {
    seq(|a|, i requires 0 <= i < |a| => a[i] || b[i])
  }

  /** `filter_by_hierarchy`; None is the KeyError of a missing column. */
  function FilterByHierarchy(f: Frame, level: string): Option<Frame>
    requires WellFormed(f)
  {
    if level == MainSectorsOnly then
      match Find(f.columns, "Detail_Category")
      case None => None
      case Some(d) => Some(Mask(f, NullMask(f, d)))
    else if level == IncludeSubsectors then
      match Find(f.columns, "Detail_Category")
      case None => None
      case Some(d) =>
        match Find(f.columns, "Sub_Category")
        case None => None
        case Some(s) => Some(Mask(f, Either(NullMask(f, d), NullMask(f, s))))
    else Some(f)
  }

  /** The row filter fails exactly when a column its level reads is missing; any other level returns the frame itself. */
  lemma FilterByHierarchyOutcome(f: Frame, level: string)
    requires WellFormed(f)
    ensures FilterByHierarchy(f, level).None? <==>
              (level == MainSectorsOnly && "Detail_Category" !in f.columns)
              || (level == IncludeSubsectors && ("Detail_Category" !in f.columns || "Sub_Category" !in f.columns))
    ensures FilterByHierarchy(f, level).Some? ==> FilterByHierarchy(f, level).value.columns == f.columns
    ensures level != MainSectorsOnly && level != IncludeSubsectors ==> FilterByHierarchy(f, level) == Some(f)
  {
  }

  /** Selecting with a mask keeps exactly the rows whose mask entry is true, in their order. */
  lemma MaskRows(f: Frame, keep: seq<bool>, row: seq<Cell>)
    requires WellFormed(f) && |keep| == |f.rows|
    ensures row in Mask(f, keep).rows <==> exists i :: 0 <= i < |f.rows| && keep[i] && f.rows[i] == row
    ensures Subsequence(Mask(f, keep).rows, f.rows)
  {
    if row in Mask(f, keep).rows {
      SelectMember(f.rows, keep, row);
    }
    if exists i :: 0 <= i < |f.rows| && keep[i] && f.rows[i] == row {
      var i :| 0 <= i < |f.rows| && keep[i] && f.rows[i] == row;
      SelectKeeps(f.rows, keep, i);
    }
    SelectSubsequence(f.rows, keep);
  }

  /** "Main Sectors Only" keeps exactly the rows with a null Detail_Category, in their order. */
  lemma MainSectorsRows(f: Frame, row: seq<Cell>)
    requires WellFormed(f) && "Detail_Category" in f.columns
    ensures var d := Find(f.columns, "Detail_Category").value;
            var r := FilterByHierarchy(f, MainSectorsOnly);
            && r.Some? && Subsequence(r.value.rows, f.rows)
            && (row in r.value.rows <==> row in f.rows && row[d].None?)
  {
    var d := Find(f.columns, "Detail_Category").value;
    MaskRows(f, NullMask(f, d), row);
  }

  /** "Include Subsectors" keeps exactly the rows with a null Detail_Category or a null Sub_Category, in their order. */
  lemma IncludeSubsectorsRows(f: Frame, row: seq<Cell>)
    requires WellFormed(f) && "Detail_Category" in f.columns && "Sub_Category" in f.columns
    ensures var d := Find(f.columns, "Detail_Category").value;
            var s := Find(f.columns, "Sub_Category").value;
            var r := FilterByHierarchy(f, IncludeSubsectors);
            && r.Some? && Subsequence(r.value.rows, f.rows)
            && (row in r.value.rows <==> row in f.rows && (row[d].None? || row[s].None?))
  {
    var d := Find(f.columns, "Detail_Category").value;
    var s := Find(f.columns, "Sub_Category").value;
    MaskRows(f, Either(NullMask(f, d), NullMask(f, s)), row);
  }

  /** The main sectors are a subsequence of the rows kept with the subsectors. */
  lemma MainWithinInclude(f: Frame)
    requires WellFormed(f) && "Detail_Category" in f.columns && "Sub_Category" in f.columns
    ensures Subsequence(FilterByHierarchy(f, MainSectorsOnly).value.rows, FilterByHierarchy(f, IncludeSubsectors).value.rows)
  {
    var d := Find(f.columns, "Detail_Category").value;
    var s := Find(f.columns, "Sub_Category").value;
    SelectMonotone(f.rows, NullMask(f, d), Either(NullMask(f, d), NullMask(f, s)));
  }
}
