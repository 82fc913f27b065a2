/**
  The older CRT reader: the same header search and file-name parser as the newer one,
  a thirteen-entry allowlist for flattening the header with no fallback, and no unit step.
*/
module CrtReader {
  import opened Text
  import opened Tables
  import opened HeaderDetector

  /** The allowlist of the older `clean_column`, entry for entry. */
  const OldKeywords: seq<string> := [
    "SINK CATEGORIES", "CO2", "CH4", "N2O", "SF6",
    "HFC", "PFC", "(kt)", "NF", "NO", "NMVOC", "CO", "SO"
  ]

  predicate OldRelevant(p: string) {
    exists k :: 0 <= k < |OldKeywords| && Contains(p, OldKeywords[k])
  }

  /** The older `clean_column`: the relevant parts joined by spaces, "" when none is relevant. */
  function OldCleanColumn(col: seq<Cell>): string {
    Strip(Join(Filter(Parts(col), OldRelevant), " "))
  }

  function OldCleanedNames(headers: seq<seq<Cell>>): (names: seq<string>)
    ensures |names| == |headers| && forall j :: 0 <= j < |headers| ==> names[j] == OldCleanColumn(headers[j])
  {
    seq(|headers|, j requires 0 <= j < |headers| => OldCleanColumn(headers[j]))
  }

  /**
    The older `read_excel_with_detected_header` after the read: the header is flattened when
    asked and multi-level, and the data rows are returned as read.
  */
  function OldReadWithDetectedHeader(t: HeaderTable, flatten: bool, pandasName: seq<Cell> -> string): (f: Frame)
    requires TableWellFormed(t)
    ensures WellFormed(f) && f.rows == t.rows && |f.columns| == |t.headers|
    ensures flatten && t.multiLevel ==> f.columns == OldCleanedNames(t.headers)
    ensures !(flatten && t.multiLevel) ==> forall j :: 0 <= j < |t.headers| ==> f.columns[j] == pandasName(t.headers[j])
  {
    var names := if flatten && t.multiLevel
                 then OldCleanedNames(t.headers)
                 else seq(|t.headers|, j requires 0 <= j < |t.headers| => pandasName(t.headers[j]));
    Frame(names, t.rows)
  }

  /** Every older keyword is also a keyword of the newer list. */
  lemma OldKeywordsKept(k: nat)
    requires k < |OldKeywords|
    ensures OldKeywords[k] in RelevantKeywords
  {
    assert OldKeywords[k] in CategoryKeywords + GasKeywords + FactorKeywords;
  }

  lemma OldRelevantIsRelevant(p: string)
    requires OldRelevant(p)
    ensures Relevant(p)
  {
    var k :| 0 <= k < |OldKeywords| && Contains(p, OldKeywords[k]);
    OldKeywordsKept(k);
    var m :| 0 <= m < |RelevantKeywords| && RelevantKeywords[m] == OldKeywords[k];
  }

  /** The older reader keeps, in order, a selection of the parts the newer one keeps. */
  lemma OldKeepsFewerParts(col: seq<Cell>)
    ensures Subsequence(Filter(Parts(col), OldRelevant), Filter(Parts(col), Relevant))
  {
    forall x | x in Parts(col) && OldRelevant(x) ensures Relevant(x) {
      OldRelevantIsRelevant(x);
    }
    FilterMonotone(Parts(col), OldRelevant, Relevant);
  }

  /** Without a fallback, a header with no relevant part flattens to "", while the newer reader keeps its visible text. */
  lemma OldLosesUnmatchedName(col: seq<Cell>, j: nat)
    requires j < |col| && col[j].Some? && HasNonSpace(CellText(col[j]))
    requires forall k :: 0 <= k < |Parts(col)| ==> !OldRelevant(Parts(col)[k])
    ensures OldCleanColumn(col) == [] && CleanColumn(col) != []
  {
    FilterNone(Parts(col), OldRelevant);
    CleanColumnNonEmpty(col, j);
  }

  /** When every part carries an older keyword, both readers flatten the header to the same name. */
  lemma OldAgreesWhenAllMatch(col: seq<Cell>)
    requires Parts(col) != [] && forall k :: 0 <= k < |Parts(col)| ==> OldRelevant(Parts(col)[k])
    ensures OldCleanColumn(col) == CleanColumn(col)
  {
    var parts := Parts(col);
    FilterAll(parts, OldRelevant);
    forall k | 0 <= k < |parts| ensures Relevant(parts[k]) {
      OldRelevantIsRelevant(parts[k]);
    }
    FilterAll(parts, Relevant);
  }
}
