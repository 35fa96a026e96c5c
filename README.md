# Template decisions for a product-data workbook

This project models the core of a generator for supplier product-data templates (Excel
workbooks). A supplier answers a short questionnaire: the product type, the GS1 mode, whether
every article is orderable, staffel pricing, chemicals, and the institutions concerned. The
generator turns the answers into a set of context labels. A catalog of fields maps each field to a
column letter with visibility, mandatory and dependency rules. From these the engine decides, per
field, whether its column is visible and whether it is mandatory, and writes notes for the
header. The Excel processor applies those decisions to the template sheet: it hides columns,
colours and bolds mandatory headers, and adds comments. It always forces columns AA and AB
hidden, through a column hider that knows several ways to hide a column. An auditor scans a
workbook for structures that keep such columns from staying hidden: tables, validations, named
ranges, column XML, merged cells, conditional formats and print areas. A legacy download helper
picks numbered columns to hide from two answers.

Modules, one per component:

- `ContextModel`: the questionnaire context, its labels, validation, template name and preset code.
- `Mapping`: the field catalog and its validation, normalisation and lookups.
- `Engine`: the per-field decisions.
- `Sheets`: the worksheet as a state of column records and cells.
- `Hiding`: the column hider.
- `Excel`: the template processor.
- `Audit`: the workbook auditor.
- `Legacy`: the legacy column selection.
- `Wrappers`, `Values`, `Sequences`, `Text`: shared helpers. They cover Option/Result, JSON-like
  values with Python truthiness, `==`, and `in` where Python answers rather than raising, list
  folds, and `join`/`split`/`in` on strings.

Exceptions raised by the spreadsheet library are a parameter (`faults`). It is the set of
(column, step) pairs that raise, where a step is an attribute write or a cell read. So every
error branch of the hider is reachable and stated.

## Model

| member | source | states |
|---|---|---|
| ContextModel.Labels | src/context.py:53-85 | the product type, every institution, gs1 or none, gs1_only, staffel, the orderable label and chemicals are labels, and nothing else is |
| ContextModel.LabelsExactlyWhen | src/context.py:60-83 | when no answer collides with a reserved label, each flag label is present exactly when its answer holds (both directions) |
| ContextModel.LabelsExample | tests/test_engine.py:200-220 | the label set of the engine tests' GS1-only lab context with two institutions |
| ContextModel.Validate | src/context.py:87-109 | no errors exactly when all institutions are known, gs1_only implies all orderable, and staffel excludes gs1_only; one error per violated rule, each present iff its rule fails |
| ContextModel.TemplateBasename | src/context.py:157-169 | staffel template iff staffel; order-unit template iff not staffel and all orderable; packaging-unit template otherwise |
| ContextModel.PresetCode | src/context.py:171-208 | a code exists exactly for the four known product types (an unknown one raises in the source) |
| ContextModel.PresetPartsShape | src/context.py:178-208 | the segments are type, GS1 mode, ORDER/PACK, then STAFF and CHEM exactly when those answers hold; no segment contains '-' |
| ContextModel.PresetCodeSegments | src/context.py:178-208 | splitting the joined code on '-' gives back segments of that shape |
| ContextModel.ToDict | src/context.py:144-155 | the dictionary has exactly the eight context keys |
| ContextModel.ToDictInjective | src/context.py:144-155 | different contexts give different dictionaries, so the stamp identifies the context |
| Mapping.ListifyShape | src/mapping.py:132-144 | the rewrite is idempotent, keeps a missing key missing, and yields a list exactly when the value was a string or already a list |
| Mapping.DependencyItemErrorsEmptyIff | src/mapping.py:147-155 | no depends_on item error exactly when every item is a dictionary with a 'field' key |
| Mapping.FieldErrorsEmptyIff | src/mapping.py:85-165 | a field reports no error exactly when its normalised configuration is valid |
| Mapping.NormalizeKeepsValid | src/mapping.py:132-144 | normalising a valid configuration changes nothing |
| Mapping.NormalizeAll | src/mapping.py:76-80 | same length, and each entry keeps its name with its configuration normalised |
| Mapping.AllFieldErrorsEmptyIff | src/mapping.py:76-83 | the catalog reports no error exactly when every normalised entry is valid |
| Mapping.NormalizeAllNames | src/mapping.py:76-80 | normalisation keeps the set of field names and their distinctness |
| Mapping.GetField | src/mapping.py:167-183 | found iff the name is in the catalog, and then it is that entry's configuration; otherwise a KeyError for the name |
| Mapping.GetColumns | src/mapping.py:194-201 | exactly the col values present, and no more of them than fields |
| Mapping.ColumnsBound | src/mapping.py:194-201 | the set of columns is no larger than the catalog |
| Mapping.DuplicateColumnsAccepted | src/mapping.py:85-165 | two fields on the same column both validate, and the column set then counts the column once |
| Mapping.EntryDependencyErrorsEmptyIff | src/mapping.py:232-241 | an entry reports no dependency error exactly when all its depends_on fields and triggers name catalog fields |
| Mapping.DependencyErrorsEmptyIff | src/mapping.py:229-243 | the catalog reports no dependency error exactly when every reference resolves |
| Mapping.FieldMapping.Init | src/mapping.py:33-40 | the mapping holds the given fields |
| Mapping.FieldMapping.ValidateField | src/mapping.py:85-165 | returns that field's errors and rewrites its single-string mandatory lists in place, leaving other fields alone |
| Mapping.FieldMapping.CheckMandatory | src/mapping.py:129-144 | the mandatory errors and the normalised configuration |
| Mapping.FieldMapping.CheckDependencyItems | src/mapping.py:150-155 | one error per depends_on item that is not a dictionary with 'field', in order |
| Mapping.FieldMapping.ValidateStructure | src/mapping.py:69-83 | all fields' errors in catalog order; the catalog ends normalised |
| Mapping.FieldMapping.Load | src/mapping.py:33-42 | a mapping exists iff the catalog has no error; otherwise the error list; a loaded mapping is normalised and valid |
| Mapping.FieldMapping.GetAllFields | src/mapping.py:185-192 | the whole catalog, in insertion order |
| Mapping.FieldMapping.GetFieldByColumn | src/mapping.py:203-220 | the first field whose col is the column; a KeyError iff no field has it |
| Mapping.FieldMapping.ValidateDependencies | src/mapping.py:222-243 | the dependency errors, empty iff every reference resolves |
| Mapping.FieldMapping.FindUnknownDependencies | src/mapping.py:234-236 | one error per depends_on item naming an unknown field, in order |
| Mapping.FieldMapping.FindUnknownTriggers | src/mapping.py:239-241 | one error per trigger naming an unknown field, in order |
| Engine.VisibleOnlyDecidesAlone | src/engine.py:120-129 | once visible_only is present, visible and visible_except do not matter |
| Engine.EmptyVisibleOnlyHides | src/engine.py:120-122 | an empty visible_only list hides the field |
| Engine.LabelMonotonicity | src/engine.py:110-150 | more labels can only show an only-rule field and only hide an except-rule field; the same holds for mandatory |
| Engine.ConditionWeakening | src/engine.py:193-213 | removing any check other than `field` from a condition that holds keeps it holding |
| Engine.ConditionLocality | src/engine.py:187-191 | two rows that agree on the named field give the same outcome |
| Engine.InListMembership | src/engine.py:208-211 | an `in` check against a list holds exactly when the row value equals one of its items |
| Engine.NotEmptyRejectsBlank | src/engine.py:194-198 | a missing or blank value fails not_empty |
| Engine.IsTrueIgnoresFlag | src/engine.py:204-206 | is_true tests the value's truthiness whatever the flag says |
| Engine.NoteTags | src/engine.py:228-244 | the hidden tag iff not visible, the required tag iff visible and mandatory, never both, and the unmet tag iff dependencies exist and fail |
| Engine.Notes | src/engine.py:215-244 | without tags the notes are the configured notes; otherwise the configured notes, then " \| " when they are non-empty, then the tags joined by " \| " |
| Engine.Matching | src/engine.py:262-278 | exactly the listed labels present in the context |
| Engine.MatchingAppend | src/engine.py:262-267 | matching splits over concatenation, so it keeps the list's order and repetitions |
| Engine.MatchingIsFilter | src/engine.py:262-267 | matching is the order-keeping filter with the label test |
| Engine.MachineNotes | src/engine.py:246-288 | one to three parts; a mandatory part iff visible; a dependency part iff dependencies exist |
| Engine.MachineNotesExplainVisibility | src/engine.py:261-269 | the visibility trace shows a match exactly when visible_only made the field visible, and no forbidden label exactly when visible_except did |
| Engine.Decide | src/engine.py:71-108 | the decision's visibility is the visibility rule, mandatory only if visible and the mandatory rule holds, and satisfied iff the dependencies hold |
| Engine.DecisionIgnoresRow | src/engine.py:86-94 | the row data never changes visibility or mandatory |
| Engine.DecideAllIndex | src/engine.py:63-69 | one decision per catalog entry, in order, each that entry's decision |
| Engine.DecisionsByColumnKeys | src/engine.py:290-300 | the by-column map has exactly the decisions' columns |
| Engine.DecisionsByColumnLastWins | src/engine.py:300 | each column maps to the last decision for it |
| Engine.MandatoryColumnsOfDecisions | src/engine.py:302-324 | mandatory columns are visible, and a column is mandatory iff some field on it is visible and mandatory |
| Engine.SharedColumnLastWins | src/engine.py:290-312 | for two fields on one column, the by-column map holds only the later field's decision, while the column counts as visible iff either field is visible |
| Engine.LaterDecisionWins | src/engine.py:300-312 | of two decisions for one column, the map keeps the second, and the column is visible iff one of them is |
| Engine.TemplateEngine.constructor | src/engine.py:41-51 | the engine keeps its context and mapping and computes the labels once |
| Engine.TemplateEngine.DepsSatisfied | src/engine.py:152-174 | satisfied exactly when every depends_on item is a condition that holds |
| Engine.TemplateEngine.ProcessField | src/engine.py:71-108 | the field's decision |
| Engine.TemplateEngine.ProcessAllFields | src/engine.py:53-69 | one decision per catalog field for the given row, or for an empty row |
| Engine.TemplateEngine.DecideEach | src/engine.py:63-69 | the decisions of all fields, in catalog order |
| Engine.StaffelFieldIsMandatory | tests/test_engine.py:148-167 | the Staffel field is visible and mandatory in a staffel context |
| Engine.TaalCodeVisible | tests/test_engine.py:67-100 | the language-code field is visible in a GS1 context |
| Engine.TaalCodeEmptyRow | tests/test_engine.py:169-198 | its not_empty dependency fails on an empty row |
| Engine.TaalCodeNotes | tests/test_engine.py:169-198 | its note then ends with the unmet-dependency tag |
| Engine.TaalCodeFilledRow | tests/test_engine.py:169-198 | the dependency holds once the description is filled in |
| Engine.ChemicalsFieldHidden | tests/test_engine.py:96-97 | the CAS field is hidden in the GS1 medical context without chemicals |
| Engine.ChemicalsFieldVisible | tests/test_engine.py:128-146 | the CAS field is visible in the lab context with chemicals |
| Hiding.MethodFromValue | enhanced_column_hiding.py:18-26 | a value is recognised only if it is some method's value |
| Hiding.MethodValueRoundTrip | enhanced_column_hiding.py:18-26 | every method is recognised from its own value |
| Hiding.RunStepsOk | enhanced_column_hiding.py:107-145 | a sequence of attribute writes succeeds iff none of them faults |
| Hiding.MethodAttributes | enhanced_column_hiding.py:107-136 | without faults each method sets exactly its attributes: hidden, width 0, both, outline and collapse, all four, or none |
| Hiding.AllMethodsHides | enhanced_column_hiding.py:126-136 | all methods succeeds iff hidden, width and outline can be written, and then the column is hidden, of width 0 and outline 1; a failing collapse is ignored |
| Hiding.CountClearedIsRows | enhanced_column_hiding.py:153-176 | the count is the number of rows whose non-empty cell was cleared |
| Hiding.ClearedCellsFacts | enhanced_column_hiding.py:165-174 | reachable cells of the column in rows 1 to the limit become empty; other cells, and every cell's style, are kept |
| Hiding.ApplyHideSuccess | enhanced_column_hiding.py:79-151 | success iff the method's writes do not fault; a failure records one error action |
| Hiding.ApplyHideFrame | enhanced_column_hiding.py:79-151 | other columns' records and cells are unchanged |
| Hiding.SuccessCount | enhanced_column_hiding.py:70-71 | never more than the number of results |
| Hiding.HideAllResults | enhanced_column_hiding.py:60-75 | one result per column, in order, successful iff that column's writes do not fault |
| Hiding.HideAllFrame | enhanced_column_hiding.py:60-75 | columns not in the list keep their record and cells |
| Hiding.SetAttribute | enhanced_column_hiding.py:107-136 | one attribute write: applied iff it does not fault, cells untouched |
| Hiding.HideDimension | enhanced_column_hiding.py:107-136 | the column record and actions of the method's writes |
| Hiding.CollapseOutline | enhanced_column_hiding.py:120-124 | the outline-collapse writes |
| Hiding.ApplyAllMethods | enhanced_column_hiding.py:126-136 | the four writes of all methods, the collapse guarded on its own |
| Hiding.ClearColumnContent | enhanced_column_hiding.py:153-176 | the cleared cells and their count, with the records unchanged |
| Hiding.ClearedCellsStep | enhanced_column_hiding.py:165-174 | clearing up to a row extends clearing up to the row before by that one cell |
| Hiding.ApplyHideMethod | enhanced_column_hiding.py:79-151 | the sheet and the result of hiding one column |
| Hiding.HideColumns | enhanced_column_hiding.py:36-77 | the sheet after hiding every column, and the report with its results and success count |
| Hiding.SuccessRates | enhanced_column_hiding.py:247-252 | the rates are exactly the rates of the runs without error, and there are no more of them than runs |
| Hiding.SuccessRatesAppend | enhanced_column_hiding.py:247-252 | the rates split over concatenation: each error-free run contributes its rate in its own place |
| Hiding.BestIndex | enhanced_column_hiding.py:254-255 | a highest rate, the first one among equals |
| Hiding.RateOfFound | enhanced_column_hiding.py:263-266 | a method's rate is found iff that method has a rate |
| Hiding.SpecificAdviceIff | enhanced_column_hiding.py:263-268 | all-methods advice iff all methods ran at 80% or more; combined advice iff not that and combined did |
| Hiding.RateOfUnique | enhanced_column_hiding.py:247-252 | with distinct methods, the rate found is the one that method achieved |
| Hiding.BestIsFirst | enhanced_column_hiding.py:254-255 | the rate `max` picks belongs to the first run whose count no earlier run reaches |
| Hiding.BestMethodAdvice | enhanced_column_hiding.py:254-262 | three items: the first method with the largest count, which no method beat, and perfect compatibility iff it hid every column |
| Hiding.GenerateRecommendations | enhanced_column_hiding.py:241-273 | the recommendations for the test results |
| Excel.StripHashes | src/excel.py:35-44 | the colour with all leading '#' removed, and nothing else changed |
| Excel.ColumnOrder | src/excel.py:78 | each decided column once, in first-occurrence order: every occurrence of a later column comes after an occurrence of each earlier one |
| Excel.ColumnOrderKeys | src/excel.py:78 | the order lists exactly the by-column map's keys |
| Excel.ApplyInOrderPointwise | src/excel.py:100-114 | each listed column's hidden flag is the negated visibility, its header styled as its decision says, and every other record and cell is unchanged |
| Excel.DecisionsAppliedFacts | src/excel.py:100-114 | hidden iff not visible; hidden headers untouched; visible mandatory headers filled and bold; visible notes become the header comment; undecided columns unchanged |
| Excel.FallbackHideFrame | src/excel.py:324-332 | the fallback touches only the listed columns' records, and no cells |
| Excel.ForcedColumnsHidden | src/excel.py:116-117 | AA and AB end hidden whatever their decisions, with width 0 and outline 1 when the hider is used |
| Excel.DecisionsSurviveForcedHide | src/excel.py:100-117 | for any column other than AA and AB, the hidden flag and header left by its decision survive the forced hide |
| Excel.ExcelProcessor.constructor | src/excel.py:25-47 | the fills use the colours without their leading '#' |
| Excel.ExcelProcessor.ApplyMandatoryStyling | src/excel.py:119-140 | the header gets the mandatory fill and bold text; nothing else changes |
| Excel.ExcelProcessor.AddHeaderComment | src/excel.py:142-159 | the header gets the comment; nothing else changes |
| Excel.ExcelProcessor.ApplyDecisionTo | src/excel.py:100-114 | the sheet after applying one column's decision |
| Excel.ExcelProcessor.HideColumnsPermanently | src/excel.py:299-336 | the hider with the named method; an unknown method changes nothing; without the hider, hidden and width 0 per column |
| Excel.ExcelProcessor.ApplyColumnDecisions | src/excel.py:92-117 | the sheet after all decisions and the forced hiding of AA and AB |
| Excel.ExcelProcessor.ProcessTemplate | src/excel.py:49-90 | an error iff the sheet is missing (header cells addressed as (column, 1), see "## Left out"); otherwise the sheet ends as the decisions by column, then the forced hide, leave it |
| Excel.DefaultFills | src/excel.py:22-23 | the default colours give fills FFF2CC and EEEEEE |
| Audit.IndexToLetters | excel_template_audit.py:489-496 | the name is empty exactly for indices of zero or less |
| Audit.IndexToLettersIsName | excel_template_audit.py:489-496 | the name is made of capital letters only |
| Audit.LetterValuePositive | excel_template_audit.py:482-487 | a non-empty column name has index at least 1 |
| Audit.IndexRoundTrip | excel_template_audit.py:482-496 | the letters of a non-negative index read back as that index |
| Audit.LetterRoundTrip | excel_template_audit.py:482-496 | a capital-letter name survives reading it as an index and writing it back |
| Audit.LetterExamples | excel_template_audit.py:482-496 | A is 1, Z 26, AA 27, AB 28, and back |
| Audit.ColLetterToIndex | excel_template_audit.py:482-487 | the loop computes the base-26 value of the letters |
| Audit.ColIndexToLetter | excel_template_audit.py:489-496 | the loop computes the column name of the index |
| Audit.LetterValueNonNegative | excel_template_audit.py:482-487 | letters, upper or lower case, never give a negative index |
| Audit.ParseRangeNonNegative | excel_template_audit.py:498-516 | both columns of a parsed range are at least 0, since only letters are read |
| Audit.ParseRangeFails | excel_template_audit.py:498-511 | parsing fails exactly when the range has two or more ':' |
| Audit.ParseRangeParts | excel_template_audit.py:498-511 | a single reference is its own start and end; "a:b" gives the column and row of a and of b |
| Audit.ExtractRowWithoutDigits | excel_template_audit.py:518-521 | a reference without digits is row 1 |
| Audit.Indices | excel_template_audit.py:46 | the target columns' indices, pointwise |
| Audit.Letters | excel_template_audit.py:532-538 | the names of the indices, pointwise |
| Audit.Span | excel_template_audit.py:532-538 | the consecutive indices from start to end, empty if the end comes first |
| Audit.RangeContainsTargetsIff | excel_template_audit.py:523-530 | a parsable range contains targets iff some target index lies between its columns; an unparsable one iff some target name occurs in its text |
| Audit.SpanLetters | excel_template_audit.py:532-538 | the k-th name of a span reads back as start plus k |
| Audit.ColumnsInRangeAscending | excel_template_audit.py:532-538 | the columns of a range are its start to end column names, in ascending order |
| Audit.Within | excel_template_audit.py:115-118 | the target indices between the two columns |
| Audit.ColumnsWithin | excel_template_audit.py:115-118 | the target names whose index lies between the two columns |
| Audit.WithinLetters | excel_template_audit.py:115-118 | naming the overlapping indices gives the overlapping target names |
| Audit.WithinNonEmpty | excel_template_audit.py:115-120 | some target overlaps iff the overlap list is non-empty |
| Audit.TableConflictIff | excel_template_audit.py:112-133 | a table conflicts iff its span covers a target; the conflict is single, HIGH, and lists exactly the covered targets |
| Audit.FormulaConflicts | excel_template_audit.py:150-171 | every conflict is MEDIUM and names one target column that occurs in the formula, and every such column has its conflict |
| Audit.FormulaConflictsInOrder | excel_template_audit.py:155-171 | as many conflicts as target columns in the formula; the k-th names the k-th such column, in target order |
| Audit.AmongTargets | excel_template_audit.py:320-322 | a column is kept iff it is among the range's columns and is a target |
| Audit.AmongTargetsAscending | excel_template_audit.py:320-322 | keeping only the target columns of an ascending column list keeps it ascending |
| Audit.RangeOverlap | excel_template_audit.py:523-538 | the targets among a span's names are exactly those whose index lies in the span, in ascending order |
| Audit.RangeConflictIff | excel_template_audit.py:309-343 | a merged range (and likewise a named range, conditional format or print area, lines 198-200, 359-361, 393-395) conflicts iff its range contains a target; then one conflict of its kind, sheet and fixed severity, listing the targets among the range's columns |
| Audit.RangeConflictColumns | excel_template_audit.py:523-538 | a parsed range lists exactly the targets whose index lies in it, ascending; an unparsable range lists none |
| Audit.XmlConflictIff | excel_template_audit.py:265-307 | a `<col>` record conflicts iff some target index lies in [min, max]; then one conflict listing exactly those targets, HIGH iff the record is not hidden |
| Audit.TableScanFixed | excel_template_audit.py:121-133 | table conflicts carry the severity of their kind |
| Audit.SeveritiesFixed | excel_template_audit.py:93-413 | every conflict's severity is the one its kind fixes (XML by hidden attribute) |
| Audit.SeverityCountsSum | excel_template_audit.py:422-429 | the HIGH, MEDIUM and LOW counts add up to the number of conflicts |
| Audit.TypeCountsKeys | excel_template_audit.py:421-451 | a type is counted iff some conflict has it |
| Audit.ReportFacts | excel_template_audit.py:415-478 | the total equals the list's length and the severity sum; "no structural conflicts" iff none; the table advice iff some table conflict |
| Audit.ScanStopsAt | excel_template_audit.py:84-91 | an unparsable table stops the scan, keeping the conflicts before it |
| Audit.ScanStaysFailed | excel_template_audit.py:84-91 | once the scan has failed, later tables add nothing |
| Audit.ExcelTemplateAuditor.constructor | excel_template_audit.py:38-49 | the targets are the columns with their indices, and no conflicts yet |
| Audit.ExcelTemplateAuditor.AuditStructuredTables | excel_template_audit.py:93-136 | appends the table conflicts, and reports whether every table parsed |
| Audit.ExcelTemplateAuditor.ScanItems | excel_template_audit.py:138-413 | appends each item's conflicts, in order |
| Audit.ExcelTemplateAuditor.GenerateReport | excel_template_audit.py:415-457 | the report of the collected conflicts |
| Audit.ExcelTemplateAuditor.AuditFile | excel_template_audit.py:51-91 | the conflicts are the audit's; the report is produced iff every scan completed, else the error result |
| Legacy.ColumnsToHide | test_template_download.py:77-120 | column numbers between 8 and 93, strictly increasing |
| Legacy.GetColumnsToHide | test_template_download.py:77-120 | the columns the selection promises |
| Legacy.OrderableFirst | test_template_download.py:87-90 | column 8 is hidden iff all articles are orderable, and then it comes first |
| Legacy.ProductTypeColumns | test_template_download.py:93-114 | each known product type adds its fixed columns after the orderable one; any other adds none |
| Legacy.OnlyTwoAnswersMatter | test_template_download.py:84-114 | answers that agree on orderable and product type get the same columns |
| Legacy.ColumnsToHideExample | test_template_download.py:93-103 | the facility columns, and just column 8 for an orderable answer |

## Left out

- Reading and writing files is not modelled: loading and saving workbooks, `from_json_file`,
  `from_file`, `extract_stamp`, `validate_template`, the stamp sheet and named range, and the
  auditor's ZIP/XML reading. Workbooks and XML column records are given as values instead.
- src/stamp.py and src/main.py are not part of this model. Neither are the web applications
  (app.py, backend_api.py, ghx_app.py, TemplateTree app.py) or `customize_template`.
- Printing and all message text are not modelled. Context and mapping errors, notes tags, trace
  parts, recommendations and conflict details are datatypes; only the notes string is built as text.
- `test_all_methods`, `integrate_with_excel_engine` and the scripts' `main` functions are not
  modelled. They are a test driver, a monkey patch and command-line entry points.
- Hiding.SuccessRates: rates are kept as success counts over a shared total, not as floating-point
  fractions; the 100% and 80% thresholds are compared by cross-multiplication.
- Hiding.HideColumns: the report's error list is always empty, because the per-column hide
  catches every exception itself.
- Excel.ExcelProcessor.constructor: the hidden fill is computed but never used by the source,
  and the comment font and size are not modelled.
- Excel.ExcelProcessor.ApplyMandatoryStyling: only the fill and the bold flag of the font are
  modelled. The source builds a new font from the old name, size, italic flag and colour, so
  every other font attribute (underline, strike and so on) goes back to its default; the
  model has no such attributes.
- Excel.ExcelProcessor.ApplyMandatoryStyling: the header is read as cell (column, 1). The source
  builds a cell name, `ws[f"{column}1"]` (src/excel.py:127), from a field's `col`, which
  validation only requires to be a non-empty string (src/mapping.py:101). For a `col` that is
  not a column name, the spreadsheet library's coordinate parsing raises (for example
  "Col 1"), addresses another cell ("A1" gives A11) or returns a whole row ("7" gives row 71).
  That parsing belongs to the library and is not part of this model.
- Excel.ExcelProcessor.AddHeaderComment: the same header addressing as the line above
  (src/excel.py:151).
- Excel.ExcelProcessor.ApplyDecisionTo: a visible decision that is mandatory or has notes
  inherits that header addressing, so for a `col` that is not a column name the model styles
  (column, 1) where the source raises or touches another cell.
- Excel.ExcelProcessor.ApplyColumnDecisions: inherits the same gap through ApplyDecisionTo
  (src/excel.py:100-114).
- Excel.ExcelProcessor.ProcessTemplate: returns an error only for a missing sheet. Where the
  source's header lookup raises for a `col` that is not a column name, `process_template`
  aborts, while the model returns success.
- Audit: letter tests use ASCII letters and digits, not Unicode `isalpha`/`isdigit`.
- Audit: the XML scan's per-sheet exception (a non-integer `min`/`max` attribute) is not
  modelled; column records hold integers.
- Audit.ExcelTemplateAuditor.AuditFile: on failure the error result carries no file name or
  message text, and any exception other than an unparsable table range is not modelled.
- Mapping.FieldMapping.Load: every catalog entry is a JSON object (`FieldConfig` has one
  optional value per key), and so is the catalog itself. In the source, an entry that is a
  number or null makes `"col" not in config` raise a TypeError (src/mapping.py:99). An entry
  that is a string or a list makes `config.keys()` raise an AttributeError (src/mapping.py:106).
  A catalog that is not an object fails at `self.fields.items()` (src/mapping.py:78). None of
  these can be represented, so "a mapping exists iff the catalog has no error" covers object
  entries only.
- Mapping.FieldMapping.GetAllFields / Mapping.FieldMapping.Load: aliasing is not modelled.
  The source keeps the caller's dictionary without copying it (src/mapping.py:39), rewrites its
  mandatory lists in place even when loading fails (src/mapping.py:132-144), and returns a
  shallow copy whose configurations are shared with the mapping (src/mapping.py:192). The model
  works on values, so none of these sharings is visible.
- Values.PyIn: `in` on a container that is not a list, string or dict, a non-string searched in
  a string, and a list or dict searched in a dict raise a TypeError in Python; the model answers
  false.
- Engine.EvaluateCondition: the `in` check inherits those cases, so a condition the source
  aborts on is reported as not holding.
- Engine.RowValue: a list or dict as the condition's field name is unhashable and raises in
  `row_data.get`; the model reads no value (None).
- Engine.LabelIn: a list or dict inside a visible/mandatory list is unhashable and raises in
  `label in context_labels`; the model treats it as absent. Any other non-string item (a
  number, a boolean, null) is looked up without error but then makes the machine notes raise
  (next line).
- Engine.MachineNotes: a non-string item in a visible_only, visible_except, mandatory_only or
  mandatory_except list makes `','.join` raise a TypeError (src/engine.py:264, 267, 275, 278).
  `_process_field` builds the machine notes for every field (src/engine.py:98), so
  `process_all_fields` aborts. The model keeps the trace as structured parts and still decides
  the field.
- Mapping.FieldMapping.FindUnknownDependencies / Mapping.FieldMapping.FindUnknownTriggers: a
  list or dict as a depends_on `field` or as a depends_trigger_for item is unhashable, so the
  test `not in all_field_names` raises a TypeError (src/mapping.py:230, 235, 240). The model
  reports an unknown-reference error for it instead.
- Mapping.FieldErrors: a list or dict as a `visible` or `mandatory` literal raises in the set
  membership test (src/mapping.py:112, 129); the model reports the validation error instead.
- Context and catalog values are JSON-like; floating-point numbers are not represented.
- Dictionaries keep insertion order: a catalog is a sequence of distinct names, and the
  by-column map is applied in first-occurrence order, as Python's dict comprehension does.
- Reading a header in the spreadsheet library creates the cell; the model reads a missing cell
  as the empty cell without creating it.
