# GHG dashboard: UNFCCC summary-sheet pipeline in Dafny

This project models the part of the GHG dashboard that turns UNFCCC Common Reporting Tables (CRT)
workbooks into per-level emission tables, together with the two dashboard selectors that read them.
It covers these parts of the pipeline:

- **Header detection** (`HeaderDetector`, header.dfy). This models `ghg_processing/unfccc/header_detector.py`.
  - It finds the first two-row header by anchor text or keywords, using the nested search loop.
  - It flattens each column's header tuple by keyword filtering, with the fallback to the joined parts.
  - It folds a first data row of units into the column names.
  - It reads the country code and the year from a CRT file name.
- **The older reader** (`CrtReader`, crt_reader.dfy). This models `read_crt_format.py`.
  - Its header search and its file-name parser are textually the same as the newer ones, so they are the same members.
  - Its column cleaning has a shorter keyword list and no fallback, and it does not absorb a unit row.
- **Category parsing** (`Category`, category.dfy). This models `get_category` in
  `ghg_processing/unfccc/process_hierarchy.py`: Total rows, memo items, and numbered codes split
  into their segments.
- **The hierarchy builder** (`Hierarchy`, hierarchy.dfy). This models `process_hierarchical_data` in the same file.
  - Context propagation runs in place over an array.
  - The level-column names come from a loop.
  - Each row is classified into Total, Level-1..Level-8 or Unknown.
  - The rows are partitioned into nine level frames and a memo frame.
- **The legacy hierarchy builder** (`LegacyHierarchy`, legacy_hierarchy.dfy). This models `process_hierachical.py`.
  - Its category parser scans for the first character that is not a code character.
  - It has four fixed levels.
- **Per-gas pivot** (`GasPivot`, gas_pivot.dfy). This models `save_gas_level_parquet` in `ghg_processing/unfccc/save_gases.py`.
  - It keeps the first non-null value per (Year, Label) pair.
  - Years and labels come out sorted.
  - It also models the gas-type suffix and the output path.
- **Summary-sheet processing** (`SheetProcessor`, sheets.dfy). This models `process_summary_sheet` in
  `ghg_processing/unfccc/process_sheets.py`.
  - One workbook goes through the steps: read, rename to the standard gas names, move the category
    column first, coerce to numbers, drop empty rows and columns, keep the keyword columns, stamp
    Sheet/Country/Year, build the hierarchy, plan the level files, then run the per-gas jobs.
  - The folder loop runs this over every workbook.
- **The legacy summary script** (`SummaryLegacy`, summary_legacy.dfy). This models
  `process_summary_by_hiearchy.py`.
  - Its renaming matches exactly with no stripping.
  - It uses its own keyword list, without NF₃.
  - It reads with the older reader, uses the legacy hierarchy and writes CSV files only.
- **Dashboard selectors** (`Dashboard`, dashboard.dfy). This models `get_co2_column` and
  `get_other_gas_columns` in `helper/utils.py`, and `filter_by_hierarchy` in `app.py`.

Shared modules:

- `Text` holds the Python string primitives the code relies on: `strip`, `split`, `in`, `lower`,
  `int()` and `str()`.
- `Paths` holds `os.path.basename`, `dirname`, `join` and `splitext`.
- `Tables` holds the data-frame model:
  - a `Frame` is column names plus rows of optional cells;
  - `CellText` is `str()`, with a missing value printed as `nan`;
  - boolean masks, column selection, and the category-column search loop that four of the scripts share.

File writes are values (`Write`) that the operations return; nothing touches a file system.

Where the documented behaviour and the code differ, the model follows the code:

- **Header search.**
  - The search tests the anchor and the keywords on each cell in one pass.
  - A keyword row can therefore win over a later anchor row (`HeaderDetector.KeywordRowWins`).
  - A row is not found by the anchor "first" and by the keywords only as a fallback.
- **Numbered memo rows.**
  - A numbered memo row ("Memo items" under a code) is an anchor for the context of the rows after it.
  - This is because `process_hierarchy.py:105-116` tests only `levels`.
- **Code without a dot.**
  - A code without a dot ("1 Energy") is not treated as numbered.
  - Such a row keeps the whole text as its label (`Category.ParseUnnumberedExample`).
- **Gas-type mapping.**
  - The mapping in `save_gases.py:38-46` has upper-case keys, but it is applied to a lower-cased token.
  - So it never changes the suffix (`GasPivot.GasTypeAlwaysMisses`).
  - Parquet files are therefore named `..._co₂.parquet` rather than `..._co2.parquet`.
  - This agrees with the gas directory names `process_sheets.py:179` builds, so the model keeps it as it is.

## Model

| member | source | states |
|---|---|---|
| Tables.CategoryColumnIndex | ghg_processing/unfccc/process_sheets.py:77-84 | the category column is the first column whose name contains "GREENHOUSE GAS SOURCE AND SINK CATEGORIES"; None exactly when no column does |
| Tables.FindCategoryColumn | ghg_processing/unfccc/process_hierarchy.py:91-97 | the search loop with its early `break` returns the first matching column, as `CategoryColumnIndex` specifies |
| HeaderDetector.Preview | ghg_processing/unfccc/header_detector.py:20 | the preview holds the first `lookahead` rows of the sheet, or all of them when the sheet is shorter |
| HeaderDetector.FirstHit | ghg_processing/unfccc/header_detector.py:24-45 | the first row, top-down, that has a hitting cell; None exactly when no row hits |
| HeaderDetector.FirstHitAt | ghg_processing/unfccc/header_detector.py:24-45 | a row that hits with no hitting row above it is the one the search returns |
| HeaderDetector.TestCell | ghg_processing/unfccc/header_detector.py:27-42 | one cell's test: a missing cell is skipped; the lower-cased text is tested for the anchor, then for any keyword |
| HeaderDetector.ScanRow | ghg_processing/unfccc/header_detector.py:26-43 | the inner loop with its `break` finds a hit in the row exactly when some cell hits |
| HeaderDetector.DetectHeaderRows | ghg_processing/unfccc/header_detector.py:5-51 | ValueError exactly when no preview row hits; otherwise the header rows are [t, t+1] for the first hitting row t |
| HeaderDetector.DetectHeaderRowsLoop | ghg_processing/unfccc/header_detector.py:20-51 | the nested loop with both breaks and the final raise computes `DetectHeaderRows` |
| HeaderDetector.DetectHeaderRowsAt | ghg_processing/unfccc/header_detector.py:20-51 | when preview row i is the first row that hits, the header rows are [i, i+1] |
| HeaderDetector.NoCriteriaRaises | ghg_processing/unfccc/header_detector.py:35-48 | with neither an anchor nor keywords, every sheet raises "No header row detected" |
| HeaderDetector.KeywordRowWins | ghg_processing/unfccc/header_detector.py:24-45 | when row i has a keyword cell and no anchor cell and a later row j has an anchor cell, row i still decides the header (one pass, not anchor-first) |
| HeaderDetector.CaseInsensitive | ghg_processing/unfccc/header_detector.py:32-40 | anchor and keyword matching ignore the case of the cell |
| HeaderDetector.Parts | ghg_processing/unfccc/header_detector.py:88 | the header parts are stripped, and there are no more of them than header levels |
| HeaderDetector.MergedEntry | ghg_processing/unfccc/header_detector.py:100-103 | the missing comma fuses 'NCV/GCV (5)' and '(kt)' into the single keyword 'NCV/GCV (5)(kt)' |
| HeaderDetector.LetterTKeeps | ghg_processing/unfccc/header_detector.py:91-123 | because the keyword list contains 't', every part that contains a 't' is kept |
| HeaderDetector.CleanColumnKeeps | ghg_processing/unfccc/header_detector.py:123-129 | when some part is relevant, the name is the stripped join of exactly the relevant parts, in their order |
| HeaderDetector.CleanColumnNonEmpty | ghg_processing/unfccc/header_detector.py:123-129 | a header with any visible text never cleans to an empty name (the fallback to all parts) |
| HeaderDetector.CleanedNames | ghg_processing/unfccc/header_detector.py:132 | every column is renamed by `clean_column`, and the column count is kept |
| HeaderDetector.AbsorbUnits | ghg_processing/unfccc/header_detector.py:148-166 | one new name per column, each computed from that column's first-row text |
| HeaderDetector.UnitName | ghg_processing/unfccc/header_detector.py:150-161 | the method computes one column's new name as `AbsorbName` specifies |
| HeaderDetector.AbsorbUnitsLoop | ghg_processing/unfccc/header_detector.py:148-166 | the loop over the columns computes `AbsorbUnits` |
| HeaderDetector.BlankKeepsName | ghg_processing/unfccc/header_detector.py:157 | a blank-like first-row text ('NaN', '', 'nan') never changes the name |
| HeaderDetector.NaNKeepsName | ghg_processing/unfccc/header_detector.py:150-157 | a missing first-row cell (text 'nan') never changes the name |
| HeaderDetector.RenamedHadUnit | ghg_processing/unfccc/header_detector.py:148-161 | a renamed column had a present first-row cell that looks like a unit and is not blank-like |
| HeaderDetector.HandleUnits | ghg_processing/unfccc/header_detector.py:134-177 | the column count is kept; on a non-empty frame every column becomes `AbsorbUnits` of the first row's texts (' ' + unit appended iff the cell is unit-like and not blank), whether or not the row is dropped; the first data row is dropped exactly when it is a units row |
| HeaderDetector.AllNaNRowDropped | ghg_processing/unfccc/header_detector.py:168-177 | an all-missing first row counts as a units row and is dropped |
| HeaderDetector.BlankTextIsUnitButNotAbsorbed | ghg_processing/unfccc/header_detector.py:157-174 | a blank-like text counts for dropping the row but is never appended to a name |
| HeaderDetector.ReadWithDetectedHeader | ghg_processing/unfccc/header_detector.py:54-179 | a well-formed frame with one name per header; when data rows exist, the first is dropped exactly when `FirstRowIsUnits` holds of it, and a flattened multi-level header gives `AbsorbUnits(CleanedNames(headers), texts of the first row)`; with no data rows the flattened names are the cleaned ones |
| HeaderDetector.FlattenedBlankFirstRow | ghg_processing/unfccc/header_detector.py:77-177 | with flattening and a blank first row, the columns are the cleaned headers and that row is dropped |
| HeaderDetector.ExtractYear | ghg_processing/unfccc/header_detector.py:182-210 | a key exactly when the name without extension has at least five '-' fields and the fifth is an integer; the code is the first field and the year is `int` of the fifth |
| HeaderDetector.ExtractYearOfCrtName | ghg_processing/unfccc/header_detector.py:182-204 | a name joined from '-'-free fields, the first not starting with a dot, plus one extension yields its first field and the year of its fifth; dotted versions such as `V1.0` are allowed (a round trip with the name's construction) |
| HeaderDetector.ExtractYearGbrExample | ghg_processing/unfccc/header_detector.py:182-186 | the documented 'GBR-CRT-2025-V0.6-1990-20250415-091720.xlsx' gives ('GBR', 1990) |
| CrtReader.OldCleanedNames | read_crt_format.py:75-96 | the older reader renames each column by its own `clean_column` |
| CrtReader.OldReadWithDetectedHeader | read_crt_format.py:51-98 | the older read keeps every data row (no unit absorption) and flattens with the older cleaning |
| CrtReader.OldKeywordsKept | read_crt_format.py:88-90 | every older keyword is also a newer keyword |
| CrtReader.OldRelevantIsRelevant | read_crt_format.py:88-90 | a part the older reader keeps is also kept by the newer one |
| CrtReader.OldKeepsFewerParts | read_crt_format.py:85-93 | the older kept parts are a subsequence of the newer kept parts |
| CrtReader.OldLosesUnmatchedName | read_crt_format.py:85-93 | with no matching part, the older reader yields an empty name where the newer one falls back to the text |
| CrtReader.OldAgreesWhenAllMatch | read_crt_format.py:85-93 | when every part matches, both readers give the same name |
| Category.ParseCategory | ghg_processing/unfccc/process_hierarchy.py:5-71 | a numbered node has at least one level and its first level starts with a digit; an unnumbered node has no levels |
| Category.ParseTotal | ghg_processing/unfccc/process_hierarchy.py:22-31 | a text starting with 'Total' gives no levels, its stripped label, and neither memo nor numbered |
| Category.ParseMemo | ghg_processing/unfccc/process_hierarchy.py:34-38 | outside Total rows, a node is a memo exactly when its stripped text starts with one of the five memo prefixes |
| Category.ParseNumbered | ghg_processing/unfccc/process_hierarchy.py:41-71 | numbered exactly when the stripped text starts with a digit and contains a '.'; otherwise no levels and the whole text is the label |
| Category.ParseNumberedShape | ghg_processing/unfccc/process_hierarchy.py:41-61 | the levels are the dot segments of the code with its edge dots stripped; the label is the stripped text after the first space, or the whole text when there is none |
| Category.WrittenCode | ghg_processing/unfccc/process_hierarchy.py:41-54 | a code written from segments starts with a digit, has a dot and no space, and has no edge dots |
| Category.CodeSplits | ghg_processing/unfccc/process_hierarchy.py:54 | splitting a dot-joined code on '.' gives back its segments |
| Category.ParseRoundTrip | ghg_processing/unfccc/process_hierarchy.py:41-61 | parsing "seg1.seg2... label" gives back exactly the segments and the label |
| Category.ParseDeepExample | ghg_processing/unfccc/process_hierarchy.py:44-58 | "1.A.2.a Manufacturing" gives levels [1, A, 2, a] and the label "Manufacturing" |
| Category.ParseTrailingDot | ghg_processing/unfccc/process_hierarchy.py:54 | "1. label" gives the single level "1" (the trailing dot is stripped) |
| Category.ParseUnnumberedExample | ghg_processing/unfccc/process_hierarchy.py:41-71 | "1 Energy" has no dot, so it is unnumbered and keeps "1 Energy" as its label |
| Hierarchy.Propagate | ghg_processing/unfccc/process_hierarchy.py:102-116 | context assignment keeps one node per row |
| Hierarchy.PropagateAt | ghg_processing/unfccc/process_hierarchy.py:105-116 | the node at row i is assigned from the context left by rows 0..i-1 |
| Hierarchy.AssignContext | ghg_processing/unfccc/process_hierarchy.py:102-116 | the in-place loop over the parsed array leaves exactly `Propagate([], old contents)` |
| Hierarchy.PropagateKeeps | ghg_processing/unfccc/process_hierarchy.py:105-116 | label and flags never change; only prose rows (not numbered, not Total, not memo) get new levels |
| Hierarchy.PropagateOrderMatters | ghg_processing/unfccc/process_hierarchy.py:108-116 | prose after an anchor goes one level under it ('child'); prose before any anchor gets ['1'] |
| Hierarchy.MaxDepth | ghg_processing/unfccc/process_hierarchy.py:120 | the greatest level count among nodes with levels; None when no node has a level (the `max` of an empty sequence) |
| Hierarchy.NoLevelsIff | ghg_processing/unfccc/process_hierarchy.py:105-120 | after propagation no node has levels exactly when every row is an unnumbered Total or memo row |
| Hierarchy.DepthNames | ghg_processing/unfccc/process_hierarchy.py:123-127 | the eight fixed names, then Level_9..Level_n when the depth passes eight |
| Hierarchy.LevelNames | ghg_processing/unfccc/process_hierarchy.py:123-127 | the appending loop computes `DepthNames` |
| Hierarchy.DepthNamesDistinct | ghg_processing/unfccc/process_hierarchy.py:123-135 | the depth column names are pairwise distinct and never clash with Label, Is_Memo or Level |
| Hierarchy.DepthNamesPattern | ghg_processing/unfccc/process_hierarchy.py:123-127 | from the fifth name on, name i is "Level_(i+1)" |
| Hierarchy.Classify | ghg_processing/unfccc/process_hierarchy.py:139-160 | a depth tag is one of the eight depths |
| Hierarchy.ClassifyTotal | ghg_processing/unfccc/process_hierarchy.py:141-142 | Total exactly when the label starts with 'Total' |
| Hierarchy.ClassifyDepth | ghg_processing/unfccc/process_hierarchy.py:143-158 | depth k exactly when the row is not Total, level k is the first truthy level without a truthy successor, and no smaller depth qualifies |
| Hierarchy.ClassifyUnknown | ghg_processing/unfccc/process_hierarchy.py:159-160 | Unknown exactly when the row is not Total and none of its eight levels is truthy |
| Hierarchy.DeepPathIsLevel8 | ghg_processing/unfccc/process_hierarchy.py:157-158 | a path of eight or more non-empty levels is tagged Level-8 |
| Hierarchy.ClassifyRows | ghg_processing/unfccc/process_hierarchy.py:138-162 | the row loop tags every row with `Classify` |
| Hierarchy.NonMemoNeverUnknown | ghg_processing/unfccc/process_hierarchy.py:105-160 | after context propagation, no non-memo row is tagged Unknown |
| Hierarchy.AddDepthColumns | ghg_processing/unfccc/process_hierarchy.py:131-132 | the column loop sets every depth column in turn |
| Hierarchy.DepthColumnCells | ghg_processing/unfccc/process_hierarchy.py:131-132 | depth column k holds level k of each row's node, or None past its depth |
| Hierarchy.DecorateCells | ghg_processing/unfccc/process_hierarchy.py:134-162 | Label, Is_Memo and Level hold each row's label, memo flag and tag |
| Hierarchy.LevelMask | ghg_processing/unfccc/process_hierarchy.py:169-177 | a row is selected exactly when its Level equals the frame's name |
| Hierarchy.LevelFrames | ghg_processing/unfccc/process_hierarchy.py:169-177 | the nine level frames are the non-memo rows masked by Total, Sector, ..., Level-8 |
| Hierarchy.SplitLevels | ghg_processing/unfccc/process_hierarchy.py:165-177 | the split yields nine level frames and the memo frame |
| Hierarchy.SplitLevelsContents | ghg_processing/unfccc/process_hierarchy.py:165-177 | each level frame holds, in order, the non-memo rows with that Level; the memo frame holds, in order, the memo rows |
| Hierarchy.SplitLevelsComplete | ghg_processing/unfccc/process_hierarchy.py:165-177 | when every non-memo row has a named level, memo rows plus level-frame rows account for every row |
| Hierarchy.FinishHierarchy | ghg_processing/unfccc/process_hierarchy.py:123-177 | naming, decoration and the split together give `SplitLevels(Decorate(...))` |
| Hierarchy.BuildHierarchy | ghg_processing/unfccc/process_hierarchy.py:74-239 | the imperative builder computes the specification `ProcessHierarchy` |
| Hierarchy.HierarchyMissingColumn | ghg_processing/unfccc/process_hierarchy.py:91-97 | "Category column not found" exactly when no column contains the category phrase |
| Hierarchy.HierarchyNoLevels | ghg_processing/unfccc/process_hierarchy.py:100-120 | the empty `max` fails exactly when every row is an unnumbered Total or memo row |
| Hierarchy.DecoratedLevelsNamed | ghg_processing/unfccc/process_hierarchy.py:105-162 | every row has a Boolean Is_Memo, and every non-memo row has one of the nine frame names as its Level |
| Hierarchy.HierarchyPartition | ghg_processing/unfccc/process_hierarchy.py:165-177 | on success the memo frame and the nine level frames together hold every input row |
| LegacyHierarchy.Boundary | process_hierachical.py:48-53 | the first position holding neither a digit, nor '.', nor 'A'; None exactly when every character is one of those |
| LegacyHierarchy.FindBoundary | process_hierachical.py:48-53 | the scan loop with its `break` computes `Boundary` |
| LegacyHierarchy.FieldsOf | process_hierachical.py:60-64 | a non-Total legacy node always has a sector field |
| LegacyHierarchy.GetCategory | process_hierachical.py:1-83 | the method, with its scan loop, computes the specification `ParseLegacy` |
| LegacyHierarchy.LegacyTotal | process_hierachical.py:23-31 | a 'Total' text gives no fields and its stripped label |
| LegacyHierarchy.LegacyHasSector | process_hierachical.py:40-73 | every non-Total text gets a sector, possibly an empty one |
| LegacyHierarchy.MemoAgrees | process_hierachical.py:34-38 | the legacy memo flag equals the newer parser's memo flag |
| LegacyHierarchy.LegacySpaceSplit | process_hierachical.py:42-71 | with a space, the code is the text before the first space; its first four dot segments are the fields and the rest is the label |
| LegacyHierarchy.LegacyForm | process_hierachical.py:40-73 | a non-Total text is parsed as the fields of its code and its label |
| LegacyHierarchy.LegacyWordSector | process_hierachical.py:42-73 | "Word rest" makes Word the sector and rest the label |
| LegacyHierarchy.EnergySectorExample | process_hierachical.py:42-73 | "Energy sector" becomes sector "Energy" with label "sector" |
| LegacyHierarchy.LegacyWordNoSpace | process_hierachical.py:47-57 | a spaceless text starting with a non-code character gets the empty sector and the whole text as its label |
| LegacyHierarchy.LegacyRoundTrip | process_hierachical.py:42-73 | parsing "seg1.seg2... label" gives back the first four segments as fields and the label |
| LegacyHierarchy.LegacyDropsDeep | process_hierachical.py:60-64 | codes that agree on four segments parse alike, while the newer parser tells them apart |
| LegacyHierarchy.LegacyAgreesOnNumbered | process_hierachical.py:42-73 | on numbered texts with a space, the legacy fields are the newer parser's first four levels, with the same label and memo flag |
| LegacyHierarchy.LegacyDiffersWithoutSpace | process_hierachical.py:47-57 | on a spaceless numbered text, the newer parser keeps the whole text as the label while the legacy one cuts it at the boundary |
| LegacyHierarchy.ClassifyLegacyDepth | process_hierachical.py:134-143 | the level is Sector, Subsector or Sub-subsector by how many fields are filled, and Unknown with none |
| LegacyHierarchy.ClassifyAgrees | process_hierachical.py:134-143 | the legacy tag is the newer tag with depths of two and more merged into Sub-subsector |
| LegacyHierarchy.LegacyProseUnknown | process_hierachical.py:47-143 | a prose row without a space is tagged Unknown, because the empty sector is falsy |
| LegacyHierarchy.EmptySectorUnknown | process_hierachical.py:136-143 | a node with an empty sector is Unknown |
| LegacyHierarchy.LegacyTags | process_hierachical.py:133-143 | one tag per row |
| LegacyHierarchy.LegacyDecorateCells | process_hierachical.py:146-153 | Is_Memo and Level hold each row's memo flag and legacy tag |
| LegacyHierarchy.LegacyFrames | process_hierachical.py:160-163 | the four level frames are the non-memo rows masked by Total, Sector, Subsector and Sub-subsector |
| LegacyHierarchy.ParseAndTag | process_hierachical.py:122-143 | the row loop parses and tags every row |
| LegacyHierarchy.ProcessLegacy | process_hierachical.py:86-208 | a successful build yields four level frames |
| LegacyHierarchy.BuildLegacy | process_hierachical.py:86-208 | the imperative builder computes `ProcessLegacy` |
| LegacyHierarchy.LegacyMissingColumn | process_hierachical.py:103-109 | the build fails exactly when no column contains the category phrase |
| LegacyHierarchy.LegacyRowLocal | process_hierachical.py:122-143 | unlike the newer builder there is no context: rows with equal text get equal nodes and tags |
| LegacyHierarchy.LegacyPlacement | process_hierachical.py:155-163 | a row is in the memo frame exactly when it is a memo row, and in level frame s exactly when it is non-memo with that level |
| LegacyHierarchy.UnknownPlacement | process_hierachical.py:155-163 | a non-memo Unknown row lands in no frame at all |
| LegacyHierarchy.LegacyUnknownDropped | process_hierachical.py:122-163 | every non-memo row the legacy parser tags Unknown is missing from the output |
| GasPivot.SortedInts | ghg_processing/unfccc/save_gases.py:59-61 | pivot rows: the distinct years, ascending |
| GasPivot.SortedStrs | ghg_processing/unfccc/save_gases.py:59-61 | pivot columns: the distinct labels, in ascending code-point order |
| GasPivot.Entries | ghg_processing/unfccc/save_gases.py:59-60 | the pivot reads exactly the rows with an integer year, a text label and a present value |
| GasPivot.FirstValue | ghg_processing/unfccc/save_gases.py:60 | `aggfunc='first'`: the value of the first entry with that year and label; None when there is none |
| GasPivot.Pivot | ghg_processing/unfccc/save_gases.py:59-61 | years and labels sorted and exactly those that occur; each cell is the first value for its year and label |
| GasPivot.FirstValueWins | ghg_processing/unfccc/save_gases.py:60 | later entries never change a cell that already has a value |
| GasPivot.OrderMatters | ghg_processing/unfccc/save_gases.py:60 | with two different values for one cell, whichever comes first wins |
| GasPivot.GasType | ghg_processing/unfccc/save_gases.py:38-46 | a name that is not one of the mapping's keys is returned unchanged |
| GasPivot.GasTypeAlwaysMisses | ghg_processing/unfccc/save_gases.py:35-46 | the mapping never applies to a lower-cased token, so the suffix is the lower-cased token |
| GasPivot.OutputPathShape | ghg_processing/unfccc/save_gases.py:49-53 | the file lands in the given directory, named `<stem>_<gas type>.parquet` |
| GasPivot.SaveGasLevel | ghg_processing/unfccc/save_gases.py:5-65 | skipped exactly when the gas column is missing; a save needs the index and column columns, writes to `OutputPath` with the lower-cased first token, and saves the `Pivot` of the entries read from the index, column and value columns |
| SheetProcessor.GasCallTable | ghg_processing/unfccc/save_gases.py:58-61 | a table a gas call saves is the Year × Label pivot of its level frame over its gas column |
| GasPivot.SaveGasLevelSaves | ghg_processing/unfccc/save_gases.py:26-64 | with the default value column, a table is saved exactly when the gas, index and column columns are present, the gas name has a first token and the path has a directory part |
| GasPivot.ValueColumnDefault | ghg_processing/unfccc/save_gases.py:26-27 | leaving `value_col` out means the gas column |
| GasPivot.EntriesReadThreeColumns | ghg_processing/unfccc/save_gases.py:59 | the pivot depends only on the year, label and value columns |
| SheetProcessor.StandardNameCases | ghg_processing/unfccc/process_sheets.py:66-74 | a stripped name found in the mapping becomes a different standard name; any other name is unchanged |
| SheetProcessor.StandardNames | ghg_processing/unfccc/process_sheets.py:66-74 | one standard name per column |
| SheetProcessor.RenameColumn | ghg_processing/unfccc/process_sheets.py:69-73 | the method computes `StandardName` |
| SheetProcessor.RenameColumns | ghg_processing/unfccc/process_sheets.py:66-74 | the renaming loop computes `StandardNames` |
| SheetProcessor.GasNameIsStandard | ghg_processing/unfccc/process_sheets.py:29-39 | standard names are stripped and are not keys themselves |
| SheetProcessor.StandardNameIdempotent | ghg_processing/unfccc/process_sheets.py:66-74 | renaming twice equals renaming once |
| SheetProcessor.TwoKeysForCarbonDioxide | ghg_processing/unfccc/process_sheets.py:30-31 | both CO2 spellings map to 'CO₂ (kt)' |
| SheetProcessor.RenamingKeepsCategory | ghg_processing/unfccc/process_sheets.py:66-84 | renaming never creates or removes the category phrase, so the category search sees the same columns |
| SheetProcessor.KeyLacksCategory | ghg_processing/unfccc/process_sheets.py:29-39 | no gas key or standard name contains the category phrase |
| SheetProcessor.ToNumeric | ghg_processing/unfccc/process_sheets.py:90 | `errors='coerce'`: a missing cell stays missing |
| SheetProcessor.CoerceRow | ghg_processing/unfccc/process_sheets.py:87-93 | the category cell moves to the front; every other cell is coerced |
| SheetProcessor.Coerce | ghg_processing/unfccc/process_sheets.py:87-93 | the category column is moved first, and every row is coerced |
| SheetProcessor.DropEmptyRows | ghg_processing/unfccc/process_sheets.py:96 | keeps, in order, exactly the rows with a present non-category value |
| SheetProcessor.CoercedHasData | ghg_processing/unfccc/process_sheets.py:90-96 | a coerced row has data exactly when some non-category cell is numeric |
| SheetProcessor.RowKeptIff | ghg_processing/unfccc/process_sheets.py:90-96 | a row survives exactly when some non-category cell converts to a number |
| SheetProcessor.ColumnMask | ghg_processing/unfccc/process_sheets.py:99 | a column is kept exactly when some row has a value in it |
| SheetProcessor.DropEmptyColumnsNames | ghg_processing/unfccc/process_sheets.py:99 | the kept columns are exactly the columns with data; with no rows, every column is dropped |
| SheetProcessor.YearKeywords | ghg_processing/unfccc/process_sheets.py:102 | the year keywords are "1990" to "2023" |
| SheetProcessor.YearColumnKept | ghg_processing/unfccc/process_sheets.py:102-109 | a column naming a year from 1990 to 2023 is kept |
| SheetProcessor.StandardNamesKept | ghg_processing/unfccc/process_sheets.py:104-109 | every standard gas name passes the keyword filter |
| SheetProcessor.ColumnsByName | ghg_processing/unfccc/process_sheets.py:111 | selecting columns by name gives those columns in that order, cell by cell |
| SheetProcessor.KeepColumns | ghg_processing/unfccc/process_sheets.py:108-111 | a KeyError exactly when the category column was dropped; otherwise the category column, then the keyword columns in order |
| SheetProcessor.KeptColumns | ghg_processing/unfccc/process_sheets.py:108-111 | the kept columns after the first are exactly the keyword columns, in their order |
| SheetProcessor.ReadRenamed | ghg_processing/unfccc/process_sheets.py:62-74 | the sheet read with header detection, with the columns renamed to the standard names |
| SheetProcessor.CleanSheet | ghg_processing/unfccc/process_sheets.py:62-111 | without the header anchor it fails; without a category column it is "Category column not found"; otherwise the category column comes first, followed only by keyword columns |
| SheetProcessor.CleanFrame | ghg_processing/unfccc/process_sheets.py:87-111 | the only possible failure is the category column being dropped; success puts it first, then keyword columns |
| SheetProcessor.CategoryNotFoundIff | ghg_processing/unfccc/process_sheets.py:66-84 | "Category column not found" exactly when no read column contains the phrase |
| SheetProcessor.NoDataRowsFails | ghg_processing/unfccc/process_sheets.py:96-111 | a sheet without data rows always fails, because the category column is dropped with the empty columns |
| SheetProcessor.FileKey | ghg_processing/unfccc/process_sheets.py:114-117 | a key exactly when the base name has a non-empty code and a non-zero integer year in the fifth field |
| SheetProcessor.CrtFileKey | ghg_processing/unfccc/process_sheets.py:114-117 | a CRT file name in any directory, dotted version field included, yields its code and a non-zero year |
| SheetProcessor.StampColumns | ghg_processing/unfccc/process_sheets.py:120-122 | stamping keeps the existing columns as a prefix |
| SheetProcessor.StampCells | ghg_processing/unfccc/process_sheets.py:120-122 | every row holds the sheet name, the country and the file's year |
| SheetProcessor.BaseFileNamePlain | ghg_processing/unfccc/process_sheets.py:139 | the base name has no '/' or '.' when its parts have none |
| SheetProcessor.LevelPathName | ghg_processing/unfccc/process_sheets.py:159-173 | a level file is named `<base>_<level><ext>` |
| SheetProcessor.LevelPathsDiffer | ghg_processing/unfccc/process_sheets.py:159-173 | two different level directories give two different file paths |
| SheetProcessor.SaveLevels | ghg_processing/unfccc/process_sheets.py:157-174 | the level loop produces the level plan |
| SheetProcessor.LevelPlanSound | ghg_processing/unfccc/process_sheets.py:157-174 | every planned write is a parquet or (with `save_csv`) a CSV file of a non-empty level frame at its path |
| SheetProcessor.LevelPlanComplete | ghg_processing/unfccc/process_sheets.py:157-174 | every non-empty level frame is written as parquet, and also as CSV with `save_csv` |
| SheetProcessor.GasNameToken | ghg_processing/unfccc/process_sheets.py:179 | the first token of each standard name is its gas formula |
| SheetProcessor.GasDirNames | ghg_processing/unfccc/process_sheets.py:179 | the gas directories are the lower-cased formulas (co₂, ch₄, ...) |
| SheetProcessor.GasJobsOfGas | ghg_processing/unfccc/process_sheets.py:182-205 | one job per level frame for a gas, with its path under the gas directory |
| SheetProcessor.GasPlan | ghg_processing/unfccc/process_sheets.py:178-205 | the gas jobs for the first n gases, one per gas and level, over the level frames |
| SheetProcessor.GasPlanPrefix | ghg_processing/unfccc/process_sheets.py:178-205 | the jobs for fewer gases are a prefix of the jobs for more |
| SheetProcessor.GasGroups | ghg_processing/unfccc/process_sheets.py:178-193 | group k holds the ten jobs of the k-th gas of the mapping |
| SheetProcessor.GasPlanConcat | ghg_processing/unfccc/process_sheets.py:178-205 | the plan for n gases is the first n groups, one after the other |
| SheetProcessor.RunCallsSnoc | ghg_processing/unfccc/process_sheets.py:196-210 | each call extends the run by one step; after an error nothing further runs (the shared `try`) |
| SheetProcessor.RunCallsAfterError | ghg_processing/unfccc/process_sheets.py:196-210 | once a call has raised, the calls after it change nothing |
| SheetProcessor.RunCallsNoError | ghg_processing/unfccc/process_sheets.py:196-210 | no error exactly when every call succeeds |
| SheetProcessor.RunCallsSound | ghg_processing/unfccc/process_sheets.py:196-205 | every gas file written is a table one of the calls saved, at the path that call chose |
| SheetProcessor.RunCallsWritesAll | ghg_processing/unfccc/process_sheets.py:196-205 | without an error, the table of every call that saved one is written |
| SheetProcessor.RunCallsAppend | ghg_processing/unfccc/process_sheets.py:196-210 | two batches of calls, the first without error: the writes of both and the outcome of the second |
| SheetProcessor.RunCallsGrows | ghg_processing/unfccc/process_sheets.py:196-205 | later calls only append to what is written |
| SheetProcessor.RunJobsAppend | ghg_processing/unfccc/process_sheets.py:178-205 | the jobs of one plan and then another, the first without error: the writes of both and the outcome of the second |
| SheetProcessor.RunJobsPrefixStopped | ghg_processing/unfccc/process_sheets.py:178-210 | once a prefix of the jobs has raised, the whole plan ends as that prefix did |
| SheetProcessor.RunJobs | ghg_processing/unfccc/process_sheets.py:196-205 | the ten calls of one gas, made in order until one raises, compute `RunGasJobs` of them |
| SheetProcessor.RunGroups | ghg_processing/unfccc/process_sheets.py:178-205 | the gas loop over the groups, each run by `RunJobs`, computes `RunGasJobs` of all the groups one after the other |
| SheetProcessor.SaveGasFiles | ghg_processing/unfccc/process_sheets.py:178-205 | the nested gas/level loop runs the whole gas plan |
| SheetProcessor.PrepareCleaned | ghg_processing/unfccc/process_sheets.py:113-154 | after cleaning, a file is skipped exactly when its name has no key; a prepared file has one well-formed frame per level |
| SheetProcessor.StampedFindsCategory | ghg_processing/unfccc/process_sheets.py:120-127 | stamping keeps the category column first, so the hierarchy builder finds it |
| SheetProcessor.Prepare | ghg_processing/unfccc/process_sheets.py:62-154 | a prepared file has one well-formed frame per level directory |
| SheetProcessor.PrepareFindsCategory | ghg_processing/unfccc/process_sheets.py:76-127 | the hierarchy step never fails for a missing category column, because cleaning put it first |
| SheetProcessor.PrepareOutcome | ghg_processing/unfccc/process_sheets.py:62-117 | a file is skipped exactly when it cleans but its name has no key; cleaning errors pass through |
| SheetProcessor.RunFileOutcome | ghg_processing/unfccc/process_sheets.py:59-210 | a skip exactly for a skipped file; a preparation error writes nothing; a failure after writes is a gas-stage failure |
| SheetProcessor.RunFileWritten | ghg_processing/unfccc/process_sheets.py:157-205 | the corrected file's writes are the level plan followed by the gas writes; as written, they are the level plan alone |
| SheetProcessor.FinishFile | ghg_processing/unfccc/process_sheets.py:157-210 | the writes are the level files, then the gas files; the file is done exactly when no gas call raised, and fails with that error otherwise |
| SheetProcessor.RunFileWritesLevels | ghg_processing/unfccc/process_sheets.py:157-174 | every non-empty level frame of a prepared file is written |
| SheetProcessor.RunFileWritesOnlyPlanned | ghg_processing/unfccc/process_sheets.py:157-205 | every write comes from a prepared file; gas files come from planned jobs and CSV files only with `save_csv` |
| SheetProcessor.FirstSavedWritten | ghg_processing/unfccc/process_sheets.py:196 | a table saved by the first call is written whatever the later calls do |
| SheetProcessor.GasFileName | ghg_processing/unfccc/process_sheets.py:183-205 | a gas file is named `<base>_<level>_<gas>.parquet` in its job's directory |
| SheetProcessor.AsWrittenWritesNoGasFiles | ghg_processing/unfccc/process_sheets.py:196-210 | as written, no file finishes, no gas file is written, and every prepared file fails with the rejected keyword |
| SheetProcessor.CorrectedExtendsAsWritten | ghg_processing/unfccc/process_sheets.py:196-205 | the corrected run writes everything the as-written run writes, and the two agree when there is no prepared file |
| SheetProcessor.CorrectedWritesGasFiles | ghg_processing/unfccc/process_sheets.py:196 | a gas file the first job saves is written by the corrected run and missing from the as-written run |
| SheetProcessor.GasCallSavesExample | ghg_processing/unfccc/save_gases.py:49-64 | a Total frame with 'CO₂ (kt)', 'Year' and 'Label' does produce a save |
| SheetProcessor.CleanSheetSteps | ghg_processing/unfccc/process_sheets.py:62-111 | the step-by-step method computes `CleanSheet` |
| SheetProcessor.PrepareSteps | ghg_processing/unfccc/process_sheets.py:62-154 | the step-by-step method computes `Prepare` |
| SheetProcessor.WriteSteps | ghg_processing/unfccc/process_sheets.py:139-210 | the writing stage computes `RunFile` |
| SheetProcessor.ProcessSheetFile | ghg_processing/unfccc/process_sheets.py:61-210 | one workbook is processed as `ProcessFile` specifies |
| SheetProcessor.ProcessFolder | ghg_processing/unfccc/process_sheets.py:58-210 | the glob loop processes every workbook independently, each as `ProcessFile` |
| SheetProcessor.ProcessAll | ghg_processing/unfccc/process_sheets.py:58-210 | one run per workbook |
| SheetProcessor.ProcessAllEach | ghg_processing/unfccc/process_sheets.py:58-210 | the run of the i-th workbook is that workbook processed on its own |
| SummaryLegacy.LegacyName | process_summary_by_hiearchy.py:16-28 | the three CO2 spellings, and only they, become 'Net CO2 emissions/removals (kt)'; the CH4 and N2O spellings become '(kt)' names; anything else is unchanged |
| SummaryLegacy.LegacyNameIdempotent | process_summary_by_hiearchy.py:16-28 | renaming twice equals renaming once |
| SummaryLegacy.LegacyNameNoStrip | process_summary_by_hiearchy.py:20 | exact matching: " CO2" is not renamed here, while the newer script renames it |
| SummaryLegacy.LegacyNames | process_summary_by_hiearchy.py:16-28 | one new name per column |
| SummaryLegacy.RenameColumnsLegacy | process_summary_by_hiearchy.py:16-28 | the renaming loop computes `LegacyNames` |
| SummaryLegacy.LegacyRenamingKeepsCategory | process_summary_by_hiearchy.py:16-38 | renaming never affects the category column search |
| SummaryLegacy.LegacyNamesKept | process_summary_by_hiearchy.py:16-64 | the renamed CO2, CH4 and N2O columns pass the keyword filter |
| SummaryLegacy.LegacyKeywordInside | process_summary_by_hiearchy.py:57-62 | a name holding one of the gas keywords anywhere passes the keyword filter |
| SummaryLegacy.NetCarbonKept | process_summary_by_hiearchy.py:57-62 | the new CO2 name contains the keyword CO2, so the column is kept |
| SummaryLegacy.GasKiloTonnesKept | process_summary_by_hiearchy.py:57-62 | a gas keyword followed by " (kt)" passes the keyword filter |
| SummaryLegacy.LegacyYearColumnKept | process_summary_by_hiearchy.py:56-64 | a column naming a year from 1990 to 2023 is kept |
| SummaryLegacy.LegacyDropsNitrogenTrifluoride | process_summary_by_hiearchy.py:56-64 | 'NF3 (kt)' matches no keyword and is dropped |
| SummaryLegacy.LegacyKeepColumns | process_summary_by_hiearchy.py:61-64 | a KeyError exactly when the category column was dropped; otherwise the category column, then the keyword columns |
| SummaryLegacy.LegacyKeptColumns | process_summary_by_hiearchy.py:61-64 | the kept columns after the first are exactly the keyword columns, in their order |
| SummaryLegacy.LegacyClean | process_summary_by_hiearchy.py:31-64 | "Category column not found" exactly when no column contains the phrase; success puts it first, then keyword columns |
| SummaryLegacy.LegacyCleanFrame | process_summary_by_hiearchy.py:41-64 | the only failure is the category column being dropped |
| SummaryLegacy.LegacyFramesToWrite | process_summary_by_hiearchy.py:93-121 | the four level frames and then the memo frame are written |
| SummaryLegacy.LegacyPlanComplete | process_summary_by_hiearchy.py:93-121 | each non-empty frame is written as CSV under its level directory |
| SummaryLegacy.LegacyPlanSkipsEmpty | process_summary_by_hiearchy.py:93-121 | no file is written at the path of an empty frame |
| SummaryLegacy.LegacyPlanSound | process_summary_by_hiearchy.py:93-121 | every write is the CSV of a non-empty frame at its level path |
| SummaryLegacy.LegacyPathsDistinct | process_summary_by_hiearchy.py:93-121 | the five output paths are distinct |
| SummaryLegacy.LegacyCountryColumn | process_summary_by_hiearchy.py:8-83 | the Country column is the upper-cased folder name, whatever its original case |
| SummaryLegacy.LegacyCleanSheet | process_summary_by_hiearchy.py:13-64 | fails for the header exactly when the longer anchor 'GREENHOUSE GAS SOURCE AND' is not found; success puts the category column first |
| SummaryLegacy.LegacySummaryFileOutcome | process_summary_by_hiearchy.py:11-126 | a file is skipped exactly when it cleans but has no key; cleaning errors pass through; otherwise the file is processed |
| SummaryLegacy.LegacyWritesSound | process_summary_by_hiearchy.py:76-121 | every write is the CSV of a non-empty frame under the lower-cased country folder, named from the code, sheet and year |
| Dashboard.Co2Column | helper/utils.py:98-101 | the first column with 'CO₂' in it; None exactly when there is none |
| Dashboard.OtherGasColumns | helper/utils.py:104-106 | exactly the columns naming CH₄, N₂O, SF₆, HFCs or PFCs, in their order |
| Dashboard.Co2ColumnOfStandardNames | helper/utils.py:98-101 | over the standard names, the CO₂ column is 'CO₂ (kt)' |
| Dashboard.OtherGasStandardNames | helper/utils.py:104-106 | among the standard names, CH₄, N₂O, HFCs, PFCs and SF₆ count as other gases, and CO₂, HFC+PFC and NF₃ do not |
| Dashboard.FilterByHierarchyOutcome | app.py:28-34 | a missing Detail_Category (or Sub_Category) column is an error for the two filtering levels; columns are kept; any other level returns the frame unchanged |
| Dashboard.MainSectorsRows | app.py:29-30 | "Main Sectors Only" keeps, in order, exactly the rows without a detail category |
| Dashboard.IncludeSubsectorsRows | app.py:31-32 | "Include Subsectors" keeps, in order, exactly the rows without a detail or without a sub category |
| Dashboard.MainWithinInclude | app.py:29-32 | the main-sector rows are a subsequence of the subsector rows |

## Left out

- Reading the workbook is an input, not modelled. The read gives a grid of optional cells for the header search and a header table (header tuples plus data rows) for the read itself. Whether the workbook exists, and the `openpyxl`/`pandas` reading, are not part of this model.
- pandas names columns on its own when a sheet is not flattened ("Unnamed: …" placeholders, tuples). This naming is a parameter `pandasName`. The forward fill of merged header cells is not modelled.
- `pd.to_numeric(errors='coerce')` is a parameter `numeric` that tells which texts convert. Numbers are integers; floating point and its rounding are left out.
- `str.lower`, `str.upper`, `str.isdigit` and `int()` are modelled on ASCII only; other characters pass through unchanged. `str.strip` uses Python's whitespace set.
- Files, directories and `glob` are left out: `os.makedirs`, the parquet and CSV writers, and the order `glob` lists files in. A write is a value naming its path and its frame. The folder loop takes its files as a list.
- Duplicate column names are not modelled. A frame's columns are looked up by their first occurrence, and pandas' duplicate-column selection is not part of the model.
- The diagnostic `print` output is left out: the processing summaries in `process_hierarchy.py:179-237` and the progress and error messages. Exception messages become error values.
- The combining step at `ghg_processing/unfccc/process_sheets.py:212-259` (concatenating the per-year gas files per country) is not part of this model.
- The loop at `ghg_processing/unfccc/process_sheets.py:131-135` computes a category column that is never used afterwards, so it is left out.
- Two parts of `process_hierachical.py` are left out: the loop at `process_hierachical.py:115-119` (an index that is never used), and the `except` branch at `process_hierachical.py:74-83`, which no string input reaches.
- `process_summary_by_hiearchy.py` imports nothing, so its calls are unbound names. The model binds them to the functions of its neighbours at the top level of the repository: `read_excel_with_detected_header` of `read_crt_format.py:51` (`CrtReader.OldReadWithDetectedHeader`, with its shorter keyword list and no unit step), `detect_header_rows` and `extract_year_from_filename` (textually the same in both readers), and `process_hierarchical_data` of `process_hierachical.py`.
- The pivot counts an entry only when its year is a number and its label is text; pandas keeps any key that is not NaN. The pipeline only ever feeds it frames whose `Year` is the integer stamped at `ghg_processing/unfccc/process_sheets.py:122` and whose `Label` is the text label of the hierarchy builder, so the restriction changes nothing there.
- SheetProcessor.StampCells: the Sheet/Country/Year cells are proved for the stamped frame only. That they are carried through the hierarchy into every level frame is not stated.
- Dashboard.FilterByHierarchyOutcome: the `KeyError` that pandas raises for a missing column is modelled as `None`.
- The Streamlit pages, the loading in `helper/data_loader.py`, the sidebars and the plotting are not part of this model. Neither are the `data_content` texts, the climate-impact scripts and the build scripts.
- `read_crt_format.py`'s `detect_header_rows` and `extract_year_from_filename` are textually the same as those in `header_detector.py`. They are modelled once, by `HeaderDetector.DetectHeaderRows` and `HeaderDetector.ExtractYear`.

## Findings

| source | as written | input that shows it | evidently intended | confidence | as-written member | corrected member |
|---|---|---|---|---|---|---|
| ghg_processing/unfccc/process_sheets.py:196-205 | every per-gas call passes `save_csv=…` to `save_gas_level_parquet`, which has no such parameter (`save_gases.py:5`). Each call raises `TypeError`, which is caught at line 209. So no gas file is ever written, and the rest of the workbook's gas loop is abandoned. | any workbook that reaches the gas stage, e.g. one whose Total frame has the columns 'CO₂ (kt)', 'Year' and 'Label' with one data row | call `save_gas_level_parquet` without `save_csv`, so that each level frame's pivot per gas is saved | not executed | SheetProcessor.AsWrittenWritesNoGasFiles | SheetProcessor.CorrectedWritesGasFiles |
