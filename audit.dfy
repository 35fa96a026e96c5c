/**
 * The template auditor (`ExcelTemplateAuditor`): a read-only scan of a workbook for
 * structures that overlap the target columns (by default AA and AB) and so may make a
 * spreadsheet program show them again. The workbook is an abstract value holding what
 * the scans read; the scans append `ColumnConflict` records and a report counts them.
 */
module Audit {
  import opened Wrappers
  import opened Text
  import opened Sequences

  // Column letters and indices

  /** `ord(c) - ord('A') + 1`. */
  function Digit(c: char): int
  {
    c as int - 'A' as int + 1
  }

  /** `_col_letter_to_index`: the base-26 left fold its loop computes, digits A=1 .. Z=26. */
  function LetterValue(s: string): int
  {
    if |s| == 0 then 0 else LetterValue(s[..|s| - 1]) * 26 + Digit(s[|s| - 1])
  }

  predicate IsUpper(c: char)
  {
    'A' <= c <= 'Z'
  }

  /** A column name: upper-case letters only. */
  predicate IsColumnName(s: string)
  {
    forall k :: 0 <= k < |s| ==> IsUpper(s[k])
  }

  /** The letter for a digit 0 .. 25. */
  function LetterOf(d: int): char
    requires 0 <= d < 26
  {
    (d + 'A' as int) as char
  }

  /** `_col_index_to_letter`: bijective base 26; "" for an index below 1. */
  function IndexToLetters(n: int): (s: string)
    ensures s == [] <==> n <= 0
    decreases n
  {
    if n <= 0 then "" else IndexToLetters((n - 1) / 26) + [LetterOf((n - 1) % 26)]
  }

  /** The letters produced are upper-case letters only. */
  lemma {:induction false} IndexToLettersIsName(n: int)
    ensures IsColumnName(IndexToLetters(n))
    decreases n
  {
    if n > 0 {
      IndexToLettersIsName((n - 1) / 26);
    }
  }

  lemma {:induction false} LetterValuePositive(s: string)
    requires IsColumnName(s)
    ensures s == [] ==> LetterValue(s) == 0
    ensures s != [] ==> LetterValue(s) >= 1
  {
    if |s| > 0 {
      LetterValuePositive(s[..|s| - 1]);
    }
  }

  /** Euclidean division by 26 recovers a base-26 digit and the rest. */
  lemma DivMod26(q: int, d: int)
    requires 0 <= d < 26
    ensures (q * 26 + d) / 26 == q && (q * 26 + d) % 26 == d
  {
  }

  /** One step of the conversion: the last letter is the remainder, the rest the quotient. */
  lemma IndexStep(n: int)
    requires n > 0
    ensures IndexToLetters(n) == IndexToLetters((n - 1) / 26) + [LetterOf((n - 1) % 26)]
  {
  }

  /** Index to letters and back gives the index, for every index from 0. */
  lemma {:induction false} IndexRoundTrip(n: int)
    requires n >= 0
    ensures LetterValue(IndexToLetters(n)) == n
    decreases n
  {
    if n > 0 {
      var q, d := (n - 1) / 26, (n - 1) % 26;
      IndexRoundTrip(q);
      var s := IndexToLetters(n);
      IndexStep(n);
      assert s[..|s| - 1] == IndexToLetters(q);
    }
  }

  /** Letters to index and back gives the letters, for every column name. */
  lemma {:induction false} LetterRoundTrip(s: string)
    requires IsColumnName(s)
    ensures IndexToLetters(LetterValue(s)) == s
  {
    if |s| > 0 {
      var p, c := s[..|s| - 1], s[|s| - 1];
      assert IsColumnName(p) && IsUpper(c);
      LetterRoundTrip(p);
      LetterValuePositive(p);
      var d := Digit(c) - 1;
      var v := LetterValue(s);
      assert v == LetterValue(p) * 26 + d + 1;
      DivMod26(LetterValue(p), d);
      IndexStep(v);
      assert LetterOf(d) == c;
      assert s == p + [c];
    }
  }

  lemma LetterExamples()
    ensures LetterValue("A") == 1 && LetterValue("Z") == 26 && LetterValue("AA") == 27 && LetterValue("AB") == 28
    ensures IndexToLetters(0) == "" && IndexToLetters(27) == "AA" && IndexToLetters(28) == "AB"
  {
    assert "AA"[..1] == "A" && "AB"[..1] == "A" && "A"[..0] == "";
    assert IndexToLetters(1) == "A";
    assert IndexToLetters(27) == IndexToLetters(1) + "A";
    assert IndexToLetters(28) == IndexToLetters(1) + "B";
  }

  /** `_col_letter_to_index`. */
  method ColLetterToIndex(s: string) returns (n: int)
    ensures n == LetterValue(s)
  {
    n := 0;
    for k := 0 to |s|
      invariant n == LetterValue(s[..k])
    {
      assert s[..k + 1][..k] == s[..k];
      n := n * 26 + (s[k] as int - 'A' as int + 1);
    }
    assert s[..|s|] == s;
  }

  /** `_col_index_to_letter`. */
  method ColIndexToLetter(index: int) returns (s: string)
    ensures s == IndexToLetters(index)
  {
    var i := index;
    s := "";
    while i > 0
      invariant IndexToLetters(index) == IndexToLetters(i) + s
      decreases i
    {
      ghost var before := i;
      i := i - 1;
      var c := (i % 26 + 'A' as int) as char;
      IndexStep(before);
      assert IndexToLetters(before) + s == IndexToLetters(i / 26) + ([c] + s);
      s := [c] + s;
      i := i / 26;
    }
  }

  // Cell references and ranges

  /** `str.isalpha()` on the characters a cell reference uses. */
  predicate IsAlpha(c: char)
  {
    'A' <= c <= 'Z' || 'a' <= c <= 'z'
  }

  predicate IsDigit(c: char)
  {
    '0' <= c <= '9'
  }

  /** `int(digits)` for a string of decimal digits. */
  function DecimalValue(ds: string): int
    requires forall k :: 0 <= k < |ds| ==> IsDigit(ds[k])
  {
    if |ds| == 0 then 0 else DecimalValue(ds[..|ds| - 1]) * 10 + (ds[|ds| - 1] as int - '0' as int)
  }

  /** `_extract_col_from_cell`: the letters of the reference, as a column index. */
  function ExtractCol(ref: string): int
  {
    LetterValue(Filter(IsAlpha, ref))
  }

  /** `_extract_row_from_cell`: the digits of the reference, or row 1 when there are none. */
  function ExtractRow(ref: string): int
  {
    var ds := Filter(IsDigit, ref);
    assert forall k :: 0 <= k < |ds| ==> ds[k] in ds;
    if ds == [] then 1 else DecimalValue(ds)
  }

  datatype CellRange = CellRange(startCol: int, startRow: int, endCol: int, endRow: int)

  /** `_parse_range`: None where unpacking `split(':')` into two names raises. */
  function ParseRange(s: string): Option<CellRange>
  {
    if ':' !in s then Some(CellRange(ExtractCol(s), ExtractRow(s), ExtractCol(s), ExtractRow(s)))
    else
      var parts := Split(s, ':');
      if |parts| == 2 then Some(CellRange(ExtractCol(parts[0]), ExtractRow(parts[0]), ExtractCol(parts[1]), ExtractRow(parts[1])))
      else None
  }

  /** Letters, upper or lower case, never give a negative index. */
  lemma {:induction false} LetterValueNonNegative(s: string)
    requires forall k :: 0 <= k < |s| ==> IsAlpha(s[k])
    ensures LetterValue(s) >= 0
  {
    if |s| > 0 {
      LetterValueNonNegative(s[..|s| - 1]);
    }
  }

  /** Both columns of a parsed range are at least 0. */
  lemma ParseRangeNonNegative(s: string)
    ensures ParseRange(s).Some? ==> ParseRange(s).value.startCol >= 0 && ParseRange(s).value.endCol >= 0
  {
    forall ref: string
      ensures ExtractCol(ref) >= 0
    {
      var letters := Filter(IsAlpha, ref);
      assert forall k :: 0 <= k < |letters| ==> letters[k] in letters;
      LetterValueNonNegative(letters);
    }
  }

  /** Parsing fails exactly for a string with two or more colons. */
  lemma ParseRangeFails(s: string)
    ensures ParseRange(s).None? <==> Occurrences(s, ':') >= 2
  {
    SplitCount(s, ':');
    OccurrencesPositive(s, ':');
  }

  /** A single reference is a one-cell range; "X:Y" has X's column and row as start and Y's as end. */
  lemma ParseRangeParts(a: string, b: string)
    requires ':' !in a && ':' !in b
    ensures ParseRange(a) == Some(CellRange(ExtractCol(a), ExtractRow(a), ExtractCol(a), ExtractRow(a)))
    ensures ParseRange(a + ":" + b) == Some(CellRange(ExtractCol(a), ExtractRow(a), ExtractCol(b), ExtractRow(b)))
  {
    var s := a + ":" + b;
    assert s == a + [':'] + b;
    assert s[|a|] == ':';
    SplitAfterPiece(a, ':', b);
    SplitWithoutSeparator(b, ':');
    var parts := Split(s, ':');
    assert parts == [a, b];
    assert ParseRange(s) == Some(CellRange(ExtractCol(parts[0]), ExtractRow(parts[0]), ExtractCol(parts[1]), ExtractRow(parts[1])));
  }

  /** A reference without digits is on row 1; the column is read from the letters alone. */
  lemma ExtractRowWithoutDigits(ref: string)
    requires forall k :: 0 <= k < |ref| ==> !IsDigit(ref[k])
    ensures ExtractRow(ref) == 1
  {
    var ds := Filter(IsDigit, ref);
    assert forall k :: 0 <= k < |ds| ==> ds[k] in ds;
  }

  /** The set of target columns and their indices. */
  datatype Targets = Targets(columns: seq<string>, indices: seq<int>)

  /** The index of every column, in order. */
  function Indices(columns: seq<string>): (r: seq<int>)
    ensures |r| == |columns|
    ensures forall i :: 0 <= i < |columns| ==> r[i] == LetterValue(columns[i])
  {
    if |columns| == 0 then []
    else
      var init := columns[..|columns| - 1];
      assert forall i :: 0 <= i < |init| ==> init[i] == columns[i];
      Indices(init) + [LetterValue(columns[|columns| - 1])]
  }

  /** The letters of every index, in order. */
  function Letters(indices: seq<int>): (r: seq<string>)
    ensures |r| == |indices|
    ensures forall i :: 0 <= i < |indices| ==> r[i] == IndexToLetters(indices[i])
  {
    if |indices| == 0 then []
    else
      var init := indices[..|indices| - 1];
      assert forall i :: 0 <= i < |init| ==> init[i] == indices[i];
      Letters(init) + [IndexToLetters(indices[|indices| - 1])]
  }

  /** The auditor's targets: `target_indices` holds the index of every target column. */
  function TargetsOf(columns: seq<string>): Targets
  {
    Targets(columns, Indices(columns))
  }

  /** `_range_contains_target_columns`: an inclusive overlap test, or a substring test where parsing raises. */
  predicate RangeContainsTargets(t: Targets, s: string)
  {
    match ParseRange(s)
    case Some(r) => exists k :: 0 <= k < |t.indices| && r.startCol <= t.indices[k] <= r.endCol
    case None => exists k :: 0 <= k < |t.columns| && Contains(s, t.columns[k])
  }

  /** The indices lo, lo + 1, .., hi. */
  function Span(lo: int, hi: int): (r: seq<int>)
    ensures |r| == if hi < lo then 0 else hi - lo + 1
    ensures forall k :: 0 <= k < |r| ==> r[k] == lo + k
    decreases hi - lo
  {
    if hi < lo then [] else Span(lo, hi - 1) + [hi]
  }

  /**
   * The overlap test over the target columns themselves: a parsed range overlaps when some
   * target's index lies in its inclusive column span; otherwise some target's letters occur in the text.
   */
  lemma RangeContainsTargetsIff(columns: seq<string>, s: string)
    ensures ParseRange(s).Some? ==>
      (RangeContainsTargets(TargetsOf(columns), s) <==>
         exists i :: 0 <= i < |columns| && ParseRange(s).value.startCol <= LetterValue(columns[i]) <= ParseRange(s).value.endCol)
    ensures ParseRange(s).None? ==>
      (RangeContainsTargets(TargetsOf(columns), s) <==> exists i :: 0 <= i < |columns| && Contains(s, columns[i]))
  {
  }

  /** `_get_columns_in_range`: the letters of start_col .. end_col, or none where parsing raises. */
  function ColumnsInRange(s: string): seq<string>
  {
    match ParseRange(s)
    case Some(r) => Letters(Span(r.startCol, r.endCol))
    case None => []
  }

  /** The letters of a span of indices from 0 up convert back to those indices, in ascending order. */
  lemma SpanLetters(lo: int, hi: int)
    requires lo >= 0
    ensures forall k :: 0 <= k < |Letters(Span(lo, hi))| ==> LetterValue(Letters(Span(lo, hi))[k]) == lo + k
  {
    var cols := Letters(Span(lo, hi));
    forall k | 0 <= k < |cols|
      ensures LetterValue(cols[k]) == lo + k
    {
      IndexRoundTrip(lo + k);
    }
  }

  /** The letters of a range come in ascending index order, one per column of the range. */
  lemma ColumnsInRangeAscending(s: string)
    requires ParseRange(s).Some?
    ensures var r := ParseRange(s).value;
      var cols := ColumnsInRange(s);
      && |cols| == (if r.endCol < r.startCol then 0 else r.endCol - r.startCol + 1)
      && forall k :: 0 <= k < |cols| ==> LetterValue(cols[k]) == r.startCol + k
  {
    var r := ParseRange(s).value;
    ParseRangeNonNegative(s);
    SpanLetters(r.startCol, r.endCol);
  }

  // Conflicts

  datatype Severity = High | Medium | Low

  /** The conflict kinds, each with its `technical_info`. */
  datatype ConflictKind =
    | StructuredTable(tableName: string, tableRange: string)
    | DataValidation(formula: string, affectedRanges: seq<string>)
    | NamedRange(rangeName: string, reference: string)
    | XmlColumnDefinition(minCol: int, maxCol: int, hidden: bool, width: string)
    | MergedCells(mergedRange: string)
    | ConditionalFormatting(formattingRange: string)
    | PrintArea(area: string)

  /** A conflict; the explanatory texts are not modelled. */
  datatype ColumnConflict = ColumnConflict(kind: ConflictKind, sheetName: string, severity: Severity, overlapping: seq<string>)

  /** The severity each scan assigns. */
  function SeverityOf(kind: ConflictKind): Severity
  {
    match kind
    case StructuredTable(_, _) => High
    case DataValidation(_, _) => Medium
    case NamedRange(_, _) => Medium
    case XmlColumnDefinition(_, _, hidden, _) => if hidden then Medium else High
    case MergedCells(_) => Medium
    case ConditionalFormatting(_) => Low
    case PrintArea(_) => Low
  }

  /** `conflict_type`. */
  function TypeName(kind: ConflictKind): string
  {
    match kind
    case StructuredTable(_, _) => "STRUCTURED_TABLE"
    case DataValidation(_, _) => "DATA_VALIDATION"
    case NamedRange(_, _) => "NAMED_RANGE"
    case XmlColumnDefinition(_, _, _, _) => "XML_COLUMN_DEFINITION"
    case MergedCells(_) => "MERGED_CELLS"
    case ConditionalFormatting(_) => "CONDITIONAL_FORMATTING"
    case PrintArea(_) => "PRINT_AREA"
  }

  // The workbook as the scans see it

  datatype Table = Table(name: string, ref: string)
  /** A data validation rule: `formula1` ("" when absent) and its `sqref` ranges. */
  datatype Validation = Validation(formula1: string, ranges: seq<string>)
  /**
   * A `<col>` record of a sheet's XML. `hidden` holds when the attribute, lower-cased, is
   * exactly "true" ("false" when absent): an OOXML `hidden="1"` counts as not hidden, and such
   * a record is reported HIGH.
   */
  datatype ColRecord = ColRecord(minCol: int, maxCol: int, hidden: bool, width: string)
  /** A sheet: its tables, validations, merged ranges, conditional-format range lists and print area ("" when unset). */
  datatype Sheet = Sheet(name: string, tables: seq<Table>, validations: seq<Validation>, mergedRanges: seq<string>,
                         conditionalRanges: seq<seq<string>>, printArea: string)
  /** The `<col>` records of one worksheet part, named after the part. */
  datatype XmlSheet = XmlSheet(name: string, cols: seq<ColRecord>)
  /** A workbook-level defined name with its (sheet title, range) destinations. */
  datatype DefinedName = DefinedName(name: string, destinations: seq<(string, string)>)
  datatype Workbook = Workbook(sheets: seq<Sheet>, definedNames: seq<DefinedName>, xmlSheets: seq<XmlSheet>)

  // Structured tables: the only scan whose parse error escapes

  /** The target indices within [lo, hi], in target order. */
  function Within(indices: seq<int>, lo: int, hi: int): (r: seq<int>)
    ensures forall x :: x in r <==> x in indices && lo <= x <= hi
  {
    if |indices| == 0 then []
    else
      var init, last := indices[..|indices| - 1], indices[|indices| - 1];
      assert indices == init + [last];
      Within(init, lo, hi) + if lo <= last <= hi then [last] else []
  }

  /** The check of one table: None where parsing its reference raises. */
  function TableCheck(t: Targets, sheetName: string, table: Table): Option<seq<ColumnConflict>>
  {
    match ParseRange(table.ref)
    case None => None
    case Some(r) =>
      var over := Within(t.indices, r.startCol, r.endCol);
      Some(if over == [] then []
           else [ColumnConflict(StructuredTable(table.name, table.ref), sheetName, High, Letters(over))])
  }

  function TablesOf(s: Sheet): seq<(string, Table)>
  {
    seq(|s.tables|, i requires 0 <= i < |s.tables| => (s.name, s.tables[i]))
  }

  /** Every table of every sheet, in order. */
  function AllTables(wb: Workbook): seq<(string, Table)>
  {
    ConcatMap(TablesOf, wb.sheets)
  }

  /** The conflicts found, and whether the scan got through all tables. */
  datatype Scan = Scan(found: seq<ColumnConflict>, ok: bool)

  /** `_audit_structured_tables`: table by table, stopping at the first reference that does not parse. */
  function TableScan(t: Targets, tables: seq<(string, Table)>): Scan
  {
    if |tables| == 0 then Scan([], true)
    else
      var before := TableScan(t, tables[..|tables| - 1]);
      var last := tables[|tables| - 1];
      if !before.ok then before
      else match TableCheck(t, last.0, last.1)
        case None => Scan(before.found, false)
        case Some(cs) => Scan(before.found + cs, true)
  }

  /** The target columns whose index lies within [lo, hi], in target order. */
  function ColumnsWithin(columns: seq<string>, lo: int, hi: int): (r: seq<string>)
    ensures forall c :: c in r <==> c in columns && lo <= LetterValue(c) <= hi
  {
    if |columns| == 0 then []
    else
      var init, last := columns[..|columns| - 1], columns[|columns| - 1];
      assert columns == init + [last];
      ColumnsWithin(init, lo, hi) + if lo <= LetterValue(last) <= hi then [last] else []
  }

  /** Filtering the indices and turning them back into letters gives the target columns themselves. */
  lemma {:induction false} WithinLetters(columns: seq<string>, lo: int, hi: int)
    requires forall i :: 0 <= i < |columns| ==> IsColumnName(columns[i])
    ensures Letters(Within(Indices(columns), lo, hi)) == ColumnsWithin(columns, lo, hi)
  {
    if |columns| > 0 {
      var init, last := columns[..|columns| - 1], columns[|columns| - 1];
      WithinLetters(init, lo, hi);
      var a, v := Indices(init), LetterValue(last);
      var idx := Indices(columns);
      assert idx == a + [v];
      assert idx[..|idx| - 1] == a && idx[|idx| - 1] == v;
      var rest := Within(a, lo, hi);
      if lo <= v <= hi {
        LetterRoundTrip(last);
        assert Within(idx, lo, hi) == rest + [v];
        assert (rest + [v])[..|rest|] == rest;
      } else {
        assert Within(idx, lo, hi) == rest;
      }
    }
  }

  /** Some target index lies in [lo, hi] exactly when some target column's index does. */
  lemma WithinNonEmpty(columns: seq<string>, lo: int, hi: int)
    requires forall i :: 0 <= i < |columns| ==> IsColumnName(columns[i])
    ensures Within(Indices(columns), lo, hi) != [] <==> exists i :: 0 <= i < |columns| && lo <= LetterValue(columns[i]) <= hi
  {
    var idx := Indices(columns);
    var over := Within(idx, lo, hi);
    if over != [] {
      assert over[0] in over && over[0] in idx;
      var i :| 0 <= i < |idx| && idx[i] == over[0];
      assert lo <= LetterValue(columns[i]) <= hi;
    }
    if exists i :: 0 <= i < |columns| && lo <= LetterValue(columns[i]) <= hi {
      var i :| 0 <= i < |columns| && lo <= LetterValue(columns[i]) <= hi;
      assert idx[i] in idx;
      assert idx[i] in over;
    }
  }

  /**
   * A table conflicts exactly when some target index lies in its column span, and then
   * its one HIGH conflict lists exactly those targets, in target order.
   */
  lemma TableConflictIff(columns: seq<string>, sheetName: string, table: Table)
    requires forall i :: 0 <= i < |columns| ==> IsColumnName(columns[i])
    requires ParseRange(table.ref).Some?
    ensures var r := ParseRange(table.ref).value;
      var cs := TableCheck(TargetsOf(columns), sheetName, table).value;
      && (cs != [] <==> exists i :: 0 <= i < |columns| && r.startCol <= LetterValue(columns[i]) <= r.endCol)
      && (cs != [] ==> |cs| == 1 && cs[0].severity == High && cs[0].overlapping == ColumnsWithin(columns, r.startCol, r.endCol))
  {
    var r := ParseRange(table.ref).value;
    var over := Within(Indices(columns), r.startCol, r.endCol);
    assert TableCheck(TargetsOf(columns), sheetName, table) ==
      Some(if over == [] then [] else [ColumnConflict(StructuredTable(table.name, table.ref), sheetName, High, Letters(over))]);
    WithinLetters(columns, r.startCol, r.endCol);
    WithinNonEmpty(columns, r.startCol, r.endCol);
  }

  // The other scans: each item contributes a list of conflicts

  /** Data validation: one MEDIUM conflict per target column occurring in the (non-empty) formula. */
  function FormulaConflicts(sheetName: string, v: Validation, columns: seq<string>): (r: seq<ColumnConflict>)
    ensures forall x :: x in r ==>
      && x == ColumnConflict(DataValidation(v.formula1, v.ranges), sheetName, Medium, x.overlapping)
      && |x.overlapping| == 1 && x.overlapping[0] in columns && Contains(v.formula1, x.overlapping[0])
    ensures forall c :: c in columns && Contains(v.formula1, c) ==>
      ColumnConflict(DataValidation(v.formula1, v.ranges), sheetName, Medium, [c]) in r
  {
    if |columns| == 0 then []
    else
      var init, last := columns[..|columns| - 1], columns[|columns| - 1];
      assert columns == init + [last];
      FormulaConflicts(sheetName, v, init)
      + if Contains(v.formula1, last) then [ColumnConflict(DataValidation(v.formula1, v.ranges), sheetName, Medium, [last])] else []
  }

  /**
   * The conflicts follow the target columns: the k-th conflict names the k-th target
   * column that occurs in the formula, one per such column, in target order.
   */
  lemma {:induction false} FormulaConflictsInOrder(sheetName: string, v: Validation, columns: seq<string>)
    ensures var hits := Filter((c: string) => Contains(v.formula1, c), columns);
      var r := FormulaConflicts(sheetName, v, columns);
      && |r| == |hits|
      && forall k :: 0 <= k < |r| ==> r[k] == ColumnConflict(DataValidation(v.formula1, v.ranges), sheetName, Medium, [hits[k]])
  {
    if |columns| > 0 {
      FormulaConflictsInOrder(sheetName, v, columns[..|columns| - 1]);
    }
  }

  /** `_audit_data_validation`: a rule without `formula1` is skipped. */
  function ValidationCheck(t: Targets): ((string, Validation)) -> seq<ColumnConflict>
  {
    (item: (string, Validation)) => if item.1.formula1 == "" then [] else FormulaConflicts(item.0, item.1, t.columns)
  }

  /** A range-based item: the conflict kind it would produce, the sheet it reports and the range. */
  datatype RangeItem = RangeItem(kind: ConflictKind, sheetName: string, range: string)

  /** `[col for col in columns if col in self.target_columns]`. */
  function AmongTargets(targets: seq<string>, cols: seq<string>): (r: seq<string>)
    ensures forall c :: c in r <==> c in cols && c in targets
  {
    if |cols| == 0 then []
    else
      var init, last := cols[..|cols| - 1], cols[|cols| - 1];
      assert cols == init + [last];
      AmongTargets(targets, init) + if last in targets then [last] else []
  }

  /** Column names in strictly ascending index order. */
  predicate LettersAscending(cols: seq<string>)
  {
    forall i, j :: 0 <= i < j < |cols| ==> LetterValue(cols[i]) < LetterValue(cols[j])
  }

  /** Keeping only the targets keeps an ascending list of columns ascending. */
  lemma {:induction false} AmongTargetsAscending(targets: seq<string>, cols: seq<string>)
    requires LettersAscending(cols)
    ensures LettersAscending(AmongTargets(targets, cols))
  {
    if |cols| > 0 {
      var init, last := cols[..|cols| - 1], cols[|cols| - 1];
      assert LettersAscending(init) by {
        assert forall i :: 0 <= i < |init| ==> init[i] == cols[i];
      }
      AmongTargetsAscending(targets, init);
      var front := AmongTargets(targets, init);
      assert LettersAscending(front);
      forall i | 0 <= i < |front|
        ensures LetterValue(front[i]) < LetterValue(last)
      {
        assert front[i] in front;
        var a :| 0 <= a < |init| && init[a] == front[i];
        assert cols[a] == init[a];
      }
      var r := AmongTargets(targets, cols);
      assert r == front + if last in targets then [last] else [];
      forall i, j | 0 <= i < j < |r|
        ensures LetterValue(r[i]) < LetterValue(r[j])
      {
        assert r[i] == front[i];
        if j < |front| {
          assert r[j] == front[j];
        } else {
          assert r[j] == last;
        }
      }
    }
  }

  /** For a span from 0 up, a column name is among the span's letters exactly when its index lies in the span. */
  lemma SpanLettersMember(lo: int, hi: int, c: string)
    requires lo >= 0 && IsColumnName(c)
    ensures c in Letters(Span(lo, hi)) <==> lo <= LetterValue(c) <= hi
  {
    var cols := Letters(Span(lo, hi));
    if c in cols {
      var k :| 0 <= k < |cols| && cols[k] == c;
      SpanLettersInRange(lo, hi, k);
    }
    if lo <= LetterValue(c) <= hi {
      SpanLettersHit(lo, hi, c);
    }
  }

  /** Every name of a span from 0 up reads back as an index inside the span. */
  lemma SpanLettersInRange(lo: int, hi: int, k: int)
    requires lo >= 0 && 0 <= k < |Letters(Span(lo, hi))|
    ensures lo <= LetterValue(Letters(Span(lo, hi))[k]) <= hi
  {
    SpanLetters(lo, hi);
  }

  /** The name of an index inside a span is among the span's names. */
  lemma SpanLettersAt(lo: int, hi: int, x: int)
    requires lo <= x <= hi
    ensures IndexToLetters(x) in Letters(Span(lo, hi))
  {
    var k := x - lo;
    assert Span(lo, hi)[k] == x;
    assert Letters(Span(lo, hi))[k] == IndexToLetters(x);
  }

  /** A column name whose index lies in a span from 0 up is among the span's names. */
  lemma SpanLettersHit(lo: int, hi: int, c: string)
    requires lo >= 0 && IsColumnName(c) && lo <= LetterValue(c) <= hi
    ensures c in Letters(Span(lo, hi))
  {
    SpanLettersAt(lo, hi, LetterValue(c));
    LetterRoundTrip(c);
  }

  /** The targets among the letters of a span from 0 up: exactly those whose index lies in the span, ascending. */
  lemma RangeOverlap(columns: seq<string>, lo: int, hi: int)
    requires lo >= 0
    requires forall i :: 0 <= i < |columns| ==> IsColumnName(columns[i])
    ensures var over := AmongTargets(columns, Letters(Span(lo, hi)));
      && (forall c :: c in over <==> c in columns && lo <= LetterValue(c) <= hi)
      && LettersAscending(over)
  {
    RangeOverlapAscending(columns, lo, hi);
    forall c
      ensures c in AmongTargets(columns, Letters(Span(lo, hi))) <==> c in columns && lo <= LetterValue(c) <= hi
    {
      RangeOverlapMember(columns, lo, hi, c);
    }
  }

  lemma RangeOverlapAscending(columns: seq<string>, lo: int, hi: int)
    requires lo >= 0
    ensures LettersAscending(AmongTargets(columns, Letters(Span(lo, hi))))
  {
    var cols := Letters(Span(lo, hi));
    assert LettersAscending(cols) by {
      SpanLetters(lo, hi);
    }
    AmongTargetsAscending(columns, cols);
  }

  lemma RangeOverlapMember(columns: seq<string>, lo: int, hi: int, c: string)
    requires lo >= 0
    requires forall i :: 0 <= i < |columns| ==> IsColumnName(columns[i])
    ensures c in AmongTargets(columns, Letters(Span(lo, hi))) <==> c in columns && lo <= LetterValue(c) <= hi
  {
    if c in columns {
      var i :| 0 <= i < |columns| && columns[i] == c;
      SpanLettersMember(lo, hi, c);
    }
  }

  /** Named ranges, merged cells, conditional formatting, print areas: one conflict per overlapping range. */
  function RangeCheck(t: Targets): RangeItem -> seq<ColumnConflict>
  {
    (item: RangeItem) =>
      if RangeContainsTargets(t, item.range)
      then [ColumnConflict(item.kind, item.sheetName, SeverityOf(item.kind),
                           AmongTargets(t.columns, ColumnsInRange(item.range)))]
      else []
  }

  /** A range item conflicts exactly when its range contains a target, with one conflict of the item's kind and fixed severity. */
  lemma RangeConflictIff(columns: seq<string>, item: RangeItem)
    ensures var t := TargetsOf(columns);
      var cs := RangeCheck(t)(item);
      && (cs != [] <==> RangeContainsTargets(t, item.range))
      && (cs != [] ==> |cs| == 1 && cs[0].kind == item.kind && cs[0].sheetName == item.sheetName
                       && cs[0].severity == SeverityOf(item.kind)
                       && cs[0].overlapping == AmongTargets(columns, ColumnsInRange(item.range)))
  {
    var t := TargetsOf(columns);
    var over := AmongTargets(columns, ColumnsInRange(item.range));
    assert RangeCheck(t)(item) ==
      if RangeContainsTargets(t, item.range) then [ColumnConflict(item.kind, item.sheetName, SeverityOf(item.kind), over)] else [];
  }

  /**
   * The columns a range conflict lists: for a parsed range, exactly the targets whose index
   * lies in the range, in ascending column order; for a range that does not parse (matched
   * by its text), none.
   */
  lemma RangeConflictColumns(columns: seq<string>, s: string)
    requires forall i :: 0 <= i < |columns| ==> IsColumnName(columns[i])
    ensures var over := AmongTargets(columns, ColumnsInRange(s));
      && (ParseRange(s).None? ==> over == [])
      && (ParseRange(s).Some? ==>
            var r := ParseRange(s).value;
            && (forall c :: c in over <==> c in columns && r.startCol <= LetterValue(c) <= r.endCol)
            && LettersAscending(over))
  {
    if ParseRange(s).Some? {
      var r := ParseRange(s).value;
      ParseRangeNonNegative(s);
      assert ColumnsInRange(s) == Letters(Span(r.startCol, r.endCol));
      RangeOverlap(columns, r.startCol, r.endCol);
    }
  }

  /** `_analyze_cols_xml`: a `<col>` record spanning a target index; HIGH unless it is hidden. */
  function XmlCheck(t: Targets): ((string, ColRecord)) -> seq<ColumnConflict>
  {
    (item: (string, ColRecord)) =>
      var rec := item.1;
      var over := Within(t.indices, rec.minCol, rec.maxCol);
      if over == [] then []
      else
        var kind := XmlColumnDefinition(rec.minCol, rec.maxCol, rec.hidden, rec.width);
        [ColumnConflict(kind, item.0, SeverityOf(kind), Letters(over))]
  }

  /**
   * A `<col>` record conflicts exactly when some target's index lies in [min, max]; the one
   * conflict lists exactly those targets, in target order, and is HIGH exactly when the
   * record is not marked hidden.
   */
  lemma XmlConflictIff(columns: seq<string>, sheetName: string, rec: ColRecord)
    requires forall i :: 0 <= i < |columns| ==> IsColumnName(columns[i])
    ensures var cs := XmlCheck(TargetsOf(columns))((sheetName, rec));
      && (cs != [] <==> exists i :: 0 <= i < |columns| && rec.minCol <= LetterValue(columns[i]) <= rec.maxCol)
      && (cs != [] ==> && |cs| == 1
                       && cs[0].kind == XmlColumnDefinition(rec.minCol, rec.maxCol, rec.hidden, rec.width)
                       && cs[0].sheetName == sheetName
                       && cs[0].overlapping == ColumnsWithin(columns, rec.minCol, rec.maxCol)
                       && (cs[0].severity == High <==> !rec.hidden))
  {
    var over := Within(Indices(columns), rec.minCol, rec.maxCol);
    var kind := XmlColumnDefinition(rec.minCol, rec.maxCol, rec.hidden, rec.width);
    assert XmlCheck(TargetsOf(columns))((sheetName, rec)) ==
      if over == [] then [] else [ColumnConflict(kind, sheetName, SeverityOf(kind), Letters(over))];
    WithinLetters(columns, rec.minCol, rec.maxCol);
    WithinNonEmpty(columns, rec.minCol, rec.maxCol);
  }

  function ValidationsOf(s: Sheet): seq<(string, Validation)>
  {
    seq(|s.validations|, i requires 0 <= i < |s.validations| => (s.name, s.validations[i]))
  }

  /** A destination's sheet, or "Workbook" when it has none. */
  function NamedItemsOf(d: DefinedName): seq<RangeItem>
  {
    seq(|d.destinations|, i requires 0 <= i < |d.destinations| =>
      RangeItem(NamedRange(d.name, d.destinations[i].1),
                if d.destinations[i].0 == "" then "Workbook" else d.destinations[i].0,
                d.destinations[i].1))
  }

  function XmlItemsOf(x: XmlSheet): seq<(string, ColRecord)>
  {
    seq(|x.cols|, i requires 0 <= i < |x.cols| => (x.name, x.cols[i]))
  }

  function MergedItemsOf(s: Sheet): seq<RangeItem>
  {
    seq(|s.mergedRanges|, i requires 0 <= i < |s.mergedRanges| => RangeItem(MergedCells(s.mergedRanges[i]), s.name, s.mergedRanges[i]))
  }

  function ConditionalItemsOf(s: Sheet): seq<RangeItem>
  {
    ConcatMap((ranges: seq<string>) =>
                seq(|ranges|, i requires 0 <= i < |ranges| => RangeItem(ConditionalFormatting(ranges[i]), s.name, ranges[i])),
              s.conditionalRanges)
  }

  function PrintItemsOf(s: Sheet): seq<RangeItem>
  {
    if s.printArea == "" then [] else [RangeItem(PrintArea(s.printArea), s.name, s.printArea)]
  }

  function ValidationConflicts(t: Targets, wb: Workbook): seq<ColumnConflict>
  {
    ConcatMap(ValidationCheck(t), ConcatMap(ValidationsOf, wb.sheets))
  }

  function NamedConflicts(t: Targets, wb: Workbook): seq<ColumnConflict>
  {
    ConcatMap(RangeCheck(t), ConcatMap(NamedItemsOf, wb.definedNames))
  }

  function XmlConflicts(t: Targets, wb: Workbook): seq<ColumnConflict>
  {
    ConcatMap(XmlCheck(t), ConcatMap(XmlItemsOf, wb.xmlSheets))
  }

  function MergedConflicts(t: Targets, wb: Workbook): seq<ColumnConflict>
  {
    ConcatMap(RangeCheck(t), ConcatMap(MergedItemsOf, wb.sheets))
  }

  function ConditionalConflicts(t: Targets, wb: Workbook): seq<ColumnConflict>
  {
    ConcatMap(RangeCheck(t), ConcatMap(ConditionalItemsOf, wb.sheets))
  }

  function PrintConflicts(t: Targets, wb: Workbook): seq<ColumnConflict>
  {
    ConcatMap(RangeCheck(t), ConcatMap(PrintItemsOf, wb.sheets))
  }

  /** `audit_file`'s result: the seven scans in order, or a failure where a table reference does not parse. */
  function AuditOf(t: Targets, wb: Workbook): Scan
  {
    var tables := TableScan(t, AllTables(wb));
    if !tables.ok then tables
    else Scan(tables.found + ValidationConflicts(t, wb) + NamedConflicts(t, wb) + XmlConflicts(t, wb)
              + MergedConflicts(t, wb) + ConditionalConflicts(t, wb) + PrintConflicts(t, wb), true)
  }

  lemma AuditOfUnfold(t: Targets, wb: Workbook)
    ensures !TableScan(t, AllTables(wb)).ok ==> AuditOf(t, wb) == TableScan(t, AllTables(wb))
    ensures TableScan(t, AllTables(wb)).ok ==> AuditOf(t, wb) == Scan(TableScan(t, AllTables(wb)).found + ValidationConflicts(t, wb) + NamedConflicts(t, wb)
                                   + XmlConflicts(t, wb) + MergedConflicts(t, wb) + ConditionalConflicts(t, wb)
                                   + PrintConflicts(t, wb), true)
  {
  }

  /** Every conflict carries the severity fixed for its kind. */
  predicate FixedSeverities(cs: seq<ColumnConflict>)
  {
    forall c :: c in cs ==> c.severity == SeverityOf(c.kind)
  }

  lemma ConcatMapFixed<A>(f: A -> seq<ColumnConflict>, xs: seq<A>)
    requires forall x :: FixedSeverities(f(x))
    ensures FixedSeverities(ConcatMap(f, xs))
  {
    forall c | c in ConcatMap(f, xs) ensures c.severity == SeverityOf(c.kind) {
      ConcatMapMember(f, xs, c);
    }
  }

  lemma {:induction false} TableScanFixed(t: Targets, tables: seq<(string, Table)>)
    ensures FixedSeverities(TableScan(t, tables).found)
  {
    if |tables| > 0 {
      TableScanFixed(t, tables[..|tables| - 1]);
    }
  }

  /** Severity is fixed per kind: HIGH tables, MEDIUM validations, names and merges, LOW formats and print areas, XML by `hidden`. */
  lemma SeveritiesFixed(t: Targets, wb: Workbook)
    ensures FixedSeverities(AuditOf(t, wb).found)
  {
    TableScanFixed(t, AllTables(wb));
    ConcatMapFixed(ValidationCheck(t), ConcatMap(ValidationsOf, wb.sheets));
    ConcatMapFixed(RangeCheck(t), ConcatMap(NamedItemsOf, wb.definedNames));
    ConcatMapFixed(XmlCheck(t), ConcatMap(XmlItemsOf, wb.xmlSheets));
    ConcatMapFixed(RangeCheck(t), ConcatMap(MergedItemsOf, wb.sheets));
    ConcatMapFixed(RangeCheck(t), ConcatMap(ConditionalItemsOf, wb.sheets));
    ConcatMapFixed(RangeCheck(t), ConcatMap(PrintItemsOf, wb.sheets));
  }

  // The report

  datatype AuditAdvice = MoveTables | EditColumnXml | MoveValidationData | RedefineNamedRanges | NoStructuralConflicts

  datatype AuditReport =
    | AuditReport(targetColumns: seq<string>, totalConflicts: nat, high: nat, medium: nat, low: nat,
                  byType: map<string, nat>, conflicts: seq<ColumnConflict>, recommendations: seq<AuditAdvice>)
    | AuditFailed

  function CountSeverity(cs: seq<ColumnConflict>, s: Severity): nat
  {
    if |cs| == 0 then 0 else CountSeverity(cs[..|cs| - 1], s) + (if cs[|cs| - 1].severity == s then 1 else 0)
  }

  /** `conflicts_by_type`, as counts. */
  function TypeCounts(cs: seq<ColumnConflict>): map<string, nat>
  {
    if |cs| == 0 then map[]
    else
      var m := TypeCounts(cs[..|cs| - 1]);
      var name := TypeName(cs[|cs| - 1].kind);
      m[name := (if name in m then m[name] else 0) + 1]
  }

  /** `_generate_recommendations`: one line per conflict type present, in fixed order, or the all-clear. */
  function AdviceFor(byType: map<string, nat>, total: nat): seq<AuditAdvice>
  {
    (if "STRUCTURED_TABLE" in byType then [MoveTables] else [])
    + (if "XML_COLUMN_DEFINITION" in byType then [EditColumnXml] else [])
    + (if "DATA_VALIDATION" in byType then [MoveValidationData] else [])
    + (if "NAMED_RANGE" in byType then [RedefineNamedRanges] else [])
    + (if total == 0 then [NoStructuralConflicts] else [])
  }

  /** `_generate_report`. */
  function ReportOf(targetColumns: seq<string>, cs: seq<ColumnConflict>): AuditReport
  {
    AuditReport(targetColumns, |cs|, CountSeverity(cs, High), CountSeverity(cs, Medium), CountSeverity(cs, Low),
                TypeCounts(cs), cs, AdviceFor(TypeCounts(cs), |cs|))
  }

  /** Every conflict is counted under exactly one severity: the counts add up to the total. */
  lemma {:induction false} SeverityCountsSum(cs: seq<ColumnConflict>)
    ensures CountSeverity(cs, High) + CountSeverity(cs, Medium) + CountSeverity(cs, Low) == |cs|
  {
    if |cs| > 0 {
      SeverityCountsSum(cs[..|cs| - 1]);
    }
  }

  /** The types counted are exactly the types of the conflicts. */
  lemma {:induction false} TypeCountsKeys(cs: seq<ColumnConflict>)
    ensures forall name :: name in TypeCounts(cs) <==> exists i :: 0 <= i < |cs| && TypeName(cs[i].kind) == name
  {
    if |cs| > 0 {
      var init := cs[..|cs| - 1];
      TypeCountsKeys(init);
      assert forall i :: 0 <= i < |init| ==> init[i] == cs[i];
    }
  }

  /** The all-clear line belongs to an empty audit; the table advice to a counted table type. */
  lemma AdviceForLines(byType: map<string, nat>, total: nat)
    ensures NoStructuralConflicts in AdviceFor(byType, total) <==> total == 0
    ensures MoveTables in AdviceFor(byType, total) <==> "STRUCTURED_TABLE" in byType
  {
  }

  /** Only a table conflict has the table type name. */
  lemma TableTypeName(kind: ConflictKind)
    ensures TypeName(kind) == "STRUCTURED_TABLE" <==> kind.StructuredTable?
  {
  }

  /**
   * The report's totals agree with its conflicts, and the all-clear line appears exactly
   * when there are none; the table advice appears exactly when a table conflicts.
   */
  lemma ReportFacts(targetColumns: seq<string>, cs: seq<ColumnConflict>)
    ensures var r := ReportOf(targetColumns, cs);
      && r.totalConflicts == |r.conflicts| == r.high + r.medium + r.low
      && (NoStructuralConflicts in r.recommendations <==> |cs| == 0)
      && (MoveTables in r.recommendations <==> exists i :: 0 <= i < |cs| && cs[i].kind.StructuredTable?)
  {
    SeverityCountsSum(cs);
    TypeCountsKeys(cs);
    AdviceForLines(TypeCounts(cs), |cs|);
    forall i | 0 <= i < |cs| ensures TypeName(cs[i].kind) == "STRUCTURED_TABLE" <==> cs[i].kind.StructuredTable? {
      TableTypeName(cs[i].kind);
    }
  }

  class ExcelTemplateAuditor {
    const targets: Targets
    var conflicts: seq<ColumnConflict>

    constructor(targetColumns: seq<string>)
      ensures targets == TargetsOf(targetColumns) && conflicts == []
    {
      var indices: seq<int> := [];
      for i := 0 to |targetColumns|
        invariant |indices| == i && forall k :: 0 <= k < i ==> indices[k] == LetterValue(targetColumns[k])
      {
        var n := ColLetterToIndex(targetColumns[i]);
        indices := indices + [n];
      }
      targets := Targets(targetColumns, indices);
      conflicts := [];
    }

    /** `_audit_structured_tables`, over the tables of all sheets in order. */
    method AuditStructuredTables(wb: Workbook) returns (ok: bool)
      modifies this
      ensures var scan := TableScan(targets, AllTables(wb));
        ok == scan.ok && conflicts == old(conflicts) + scan.found
    {
      var tables := AllTables(wb);
      for i := 0 to |tables|
        invariant TableScan(targets, tables[..i]).ok
        invariant conflicts == old(conflicts) + TableScan(targets, tables[..i]).found
      {
        assert tables[..i + 1][..i] == tables[..i];
        var check := TableCheck(targets, tables[i].0, tables[i].1);
        if check.None? {
          ScanStopsAt(targets, tables, i);
          return false;
        }
        conflicts := conflicts + check.value;
      }
      assert tables[..|tables|] == tables;
      return true;
    }

    /** One of the other scans: each item's conflicts appended in order. */
    method ScanItems<A>(items: seq<A>, check: A -> seq<ColumnConflict>)
      modifies this
      ensures conflicts == old(conflicts) + ConcatMap(check, items)
    {
      for i := 0 to |items|
        invariant conflicts == old(conflicts) + ConcatMap(check, items[..i])
      {
        assert items[..i + 1][..i] == items[..i];
        conflicts := conflicts + check(items[i]);
      }
      assert items[..|items|] == items;
    }

    /** `_generate_report`, counting per severity and type in one pass. */
    method GenerateReport() returns (report: AuditReport)
      ensures report == ReportOf(targets.columns, conflicts)
    {
      var high, medium, low := 0, 0, 0;
      var byType: map<string, nat> := map[];
      for i := 0 to |conflicts|
        invariant high == CountSeverity(conflicts[..i], High)
        invariant medium == CountSeverity(conflicts[..i], Medium)
        invariant low == CountSeverity(conflicts[..i], Low)
        invariant byType == TypeCounts(conflicts[..i])
      {
        assert conflicts[..i + 1][..i] == conflicts[..i];
        var c := conflicts[i];
        var name := TypeName(c.kind);
        byType := byType[name := (if name in byType then byType[name] else 0) + 1];
        match c.severity
        case High => high := high + 1;
        case Medium => medium := medium + 1;
        case Low => low := low + 1;
      }
      assert conflicts[..|conflicts|] == conflicts;
      report := AuditReport(targets.columns, |conflicts|, high, medium, low, byType, conflicts, AdviceFor(byType, |conflicts|));
    }

    /**
     * `audit_file` on an already loaded workbook: the conflict list starts empty, the
     * seven scans run in order, and a table reference that does not parse fails the audit.
     * The workbook is a value: no scan can change it.
     */
    method AuditFile(wb: Workbook) returns (report: AuditReport)
      modifies this
      ensures conflicts == AuditOf(targets, wb).found
      ensures report == if AuditOf(targets, wb).ok then ReportOf(targets.columns, conflicts) else AuditFailed
    {
      conflicts := [];
      var ok := AuditStructuredTables(wb);
      AuditOfUnfold(targets, wb);
      if !ok {
        return AuditFailed;
      }
      ghost var found := TableScan(targets, AllTables(wb)).found;
      assert conflicts == found;
      ScanItems(ConcatMap(ValidationsOf, wb.sheets), ValidationCheck(targets));
      assert conflicts == found + ValidationConflicts(targets, wb);
      ScanItems(ConcatMap(NamedItemsOf, wb.definedNames), RangeCheck(targets));
      assert conflicts == found + ValidationConflicts(targets, wb) + NamedConflicts(targets, wb);
      ScanItems(ConcatMap(XmlItemsOf, wb.xmlSheets), XmlCheck(targets));
      found := found + ValidationConflicts(targets, wb) + NamedConflicts(targets, wb) + XmlConflicts(targets, wb);
      assert conflicts == found;
      ScanItems(ConcatMap(MergedItemsOf, wb.sheets), RangeCheck(targets));
      assert conflicts == found + MergedConflicts(targets, wb);
      ScanItems(ConcatMap(ConditionalItemsOf, wb.sheets), RangeCheck(targets));
      assert conflicts == found + MergedConflicts(targets, wb) + ConditionalConflicts(targets, wb);
      ScanItems(ConcatMap(PrintItemsOf, wb.sheets), RangeCheck(targets));
      assert conflicts == found + MergedConflicts(targets, wb) + ConditionalConflicts(targets, wb) + PrintConflicts(targets, wb);
      report := GenerateReport();
    }
  }

  /** A scan that fails at table `i` reports what it found before it. */
  lemma ScanStopsAt(t: Targets, tables: seq<(string, Table)>, i: int)
    requires 0 <= i < |tables| && TableScan(t, tables[..i]).ok
    requires TableCheck(t, tables[i].0, tables[i].1).None?
    ensures TableScan(t, tables) == Scan(TableScan(t, tables[..i]).found, false)
  {
    ScanStaysFailed(t, tables, i + 1);
    assert tables[..i + 1][..i] == tables[..i];
  }

  /** Once failed, the scan stays failed and finds nothing more. */
  lemma {:induction false} ScanStaysFailed(t: Targets, tables: seq<(string, Table)>, n: int)
    requires 0 <= n <= |tables| && !TableScan(t, tables[..n]).ok
    ensures TableScan(t, tables) == TableScan(t, tables[..n])
    decreases |tables| - n
  {
    if n < |tables| {
      assert tables[..n + 1][..n] == tables[..n];
      ScanStaysFailed(t, tables, n + 1);
    } else {
      assert tables[..n] == tables;
    }
  }
}
