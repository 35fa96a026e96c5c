/**
 * The column hider (`ColumnHider`): applies one of six encodings to the dimension record of
 * each listed column, optionally clears the column's cells, and reports per column. Every
 * exception the spreadsheet library may raise is modelled by a fault set: a pair
 * (column, step) in it makes that step on that column raise.
 */
module Hiding {
  import opened Wrappers
  import opened Values
  import opened Sheets

  datatype HideMethod = HiddenOnly | WidthZero | Combined | ContentClear | OutlineCollapse | AllMethods

  /** The enum's string values. */
  function MethodValue(m: HideMethod): string
  {
    match m
    case HiddenOnly => "hidden_only"
    case WidthZero => "width_zero"
    case Combined => "combined"
    case ContentClear => "content_clear"
    case OutlineCollapse => "outline_collapse"
    case AllMethods => "all_methods"
  }

  /** `HideMethod(value)`: None where the enum constructor raises ValueError. */
  function MethodFromValue(s: string): (m: Option<HideMethod>)
    ensures m.Some? ==> MethodValue(m.value) == s
  {
    if s == "hidden_only" then Some(HiddenOnly)
    else if s == "width_zero" then Some(WidthZero)
    else if s == "combined" then Some(Combined)
    else if s == "content_clear" then Some(ContentClear)
    else if s == "outline_collapse" then Some(OutlineCollapse)
    else if s == "all_methods" then Some(AllMethods)
    else None
  }

  lemma MethodValueRoundTrip(m: HideMethod)
    ensures MethodFromValue(MethodValue(m)) == Some(m)
  {
  }

  /** A library call that may raise: reading a cell, or writing one dimension attribute. */
  datatype Step = ReadCell(row: int) | SetHidden | SetWidth | SetOutline | SetCollapsed

  type Fault = (string, Step)

  /** The entries of a column's `actions` list; the text of an error message is not modelled. */
  datatype Action = HiddenTrue | WidthZeroed | OutlineOne | CollapsedTrue | Cleared(count: nat) | Error

  datatype ColumnResult = ColumnResult(column: string, success: bool, actions: seq<Action>, header: Value)

  /** One attribute write. */
  function ApplyStep(d: ColumnDim, s: Step): ColumnDim
  {
    match s
    case SetHidden => d.(hidden := true)
    case SetWidth => d.(width := 0)
    case SetOutline => d.(outlineLevel := 1)
    case SetCollapsed => d.(collapsed := true)
    case ReadCell(_) => d
  }

  /** The writes each method performs before its first action is logged, in order. */
  function MethodSteps(m: HideMethod): seq<Step>
  {
    match m
    case HiddenOnly => [SetHidden]
    case WidthZero => [SetWidth]
    case Combined => [SetHidden, SetWidth]
    case OutlineCollapse => [SetHidden, SetOutline, SetCollapsed]
    case AllMethods => [SetHidden, SetWidth, SetOutline]
    case ContentClear => []
  }

  function MethodActions(m: HideMethod): seq<Action>
  {
    match m
    case HiddenOnly => [HiddenTrue]
    case WidthZero => [WidthZeroed]
    case Combined => [HiddenTrue, WidthZeroed]
    case OutlineCollapse => [HiddenTrue, OutlineOne, CollapsedTrue]
    case AllMethods => [HiddenTrue, WidthZeroed, OutlineOne]
    case ContentClear => []
  }

  datatype StepsOutcome = StepsOutcome(dim: ColumnDim, ok: bool)

  /** Performs the writes in order; the first one that raises stops the rest, earlier ones stay. */
  function RunSteps(d: ColumnDim, column: string, steps: seq<Step>, faults: set<Fault>): StepsOutcome
    decreases |steps|
  {
    if |steps| == 0 then StepsOutcome(d, true)
    else if (column, steps[0]) in faults then StepsOutcome(d, false)
    else RunSteps(ApplyStep(d, steps[0]), column, steps[1..], faults)
  }

  lemma {:induction false} RunStepsOk(d: ColumnDim, column: string, steps: seq<Step>, faults: set<Fault>)
    ensures RunSteps(d, column, steps, faults).ok <==> forall k :: 0 <= k < |steps| ==> (column, steps[k]) !in faults
    decreases |steps|
  {
    if |steps| > 0 && (column, steps[0]) !in faults {
      RunStepsOk(ApplyStep(d, steps[0]), column, steps[1..], faults);
      assert forall k :: 1 <= k < |steps| ==> steps[1..][k - 1] == steps[k];
    }
  }

  /** A write of the method on that column raises. */
  predicate Blocked(column: string, m: HideMethod, faults: set<Fault>)
  {
    exists k :: 0 <= k < |MethodSteps(m)| && (column, MethodSteps(m)[k]) in faults
  }

  datatype DimOutcome = DimOutcome(dim: ColumnDim, ok: bool, actions: seq<Action>)

  /**
   * The dimension part of `_apply_hide_method`. ALL_METHODS attempts `collapsed` inside its
   * own try block: a failure there is swallowed and only drops the "collapsed" action.
   */
  function HideDim(d: ColumnDim, column: string, m: HideMethod, faults: set<Fault>): DimOutcome
  {
    var run := RunSteps(d, column, MethodSteps(m), faults);
    if !run.ok then DimOutcome(run.dim, false, [])
    else if m == AllMethods then
      if (column, SetCollapsed) in faults then DimOutcome(run.dim, true, MethodActions(m))
      else DimOutcome(run.dim.(collapsed := true), true, [CollapsedTrue] + MethodActions(m))
    else DimOutcome(run.dim, true, MethodActions(m))
  }

  /**
   * With no fault on the column each method writes only its own attributes: HIDDEN_ONLY
   * hidden; WIDTH_ZERO width; COMBINED both; OUTLINE_COLLAPSE hidden, outline level and
   * collapsed; ALL_METHODS all four; CONTENT_CLEAR none.
   */
  lemma MethodAttributes(d: ColumnDim, column: string, faults: set<Fault>)
    requires forall s :: (column, s) !in faults
    ensures HideDim(d, column, HiddenOnly, faults).dim == d.(hidden := true)
    ensures HideDim(d, column, WidthZero, faults).dim == d.(width := 0)
    ensures HideDim(d, column, Combined, faults).dim == d.(hidden := true, width := 0)
    ensures HideDim(d, column, OutlineCollapse, faults).dim == d.(hidden := true, outlineLevel := 1, collapsed := true)
    ensures HideDim(d, column, AllMethods, faults).dim == ColumnDim(true, 0, 1, true)
    ensures HideDim(d, column, ContentClear, faults).dim == d
    ensures forall m :: HideDim(d, column, m, faults).ok
  {
    forall m ensures HideDim(d, column, m, faults).ok {
      RunStepsOk(d, column, MethodSteps(m), faults);
    }
    assert [SetHidden][1..] == [] && [SetWidth][1..] == [];
    assert [SetHidden, SetWidth][1..] == [SetWidth];
    assert [SetHidden, SetOutline, SetCollapsed][1..] == [SetOutline, SetCollapsed];
    assert [SetOutline, SetCollapsed][1..] == [SetCollapsed];
    assert [SetHidden, SetWidth, SetOutline][1..] == [SetWidth, SetOutline];
    assert [SetWidth, SetOutline][1..] == [SetOutline];
  }

  /**
   * ALL_METHODS succeeds exactly when hidden, width and outline level can be written, and
   * then the column is hidden with width 0 and outline level 1 whatever `collapsed` does.
   */
  lemma AllMethodsHides(d: ColumnDim, column: string, faults: set<Fault>)
    ensures HideDim(d, column, AllMethods, faults).ok <==>
              (column, SetHidden) !in faults && (column, SetWidth) !in faults && (column, SetOutline) !in faults
    ensures HideDim(d, column, AllMethods, faults).ok ==>
              var r := HideDim(d, column, AllMethods, faults).dim;
              r.hidden && r.width == 0 && r.outlineLevel == 1
              && (r.collapsed <==> d.collapsed || (column, SetCollapsed) !in faults)
  {
    RunStepsOk(d, column, MethodSteps(AllMethods), faults);
  }

  /** `min(worksheet.max_row, 1000)`. */
  function ClearLimit(st: SheetState): nat
  {
    if st.maxRow < 1000 then st.maxRow else 1000
  }

  /** Row `row` of the column is reachable (reading it does not raise). */
  predicate Reachable(column: string, row: int, faults: set<Fault>)
  {
    (column, ReadCell(row)) !in faults
  }

  /** The cells after clearing rows 1..limit of a column (unreachable rows are skipped). */
  function ClearedCells(cells: map<(string, int), Cell>, column: string, limit: int, faults: set<Fault>): map<(string, int), Cell>
  {
    map k | k in cells :: if k.0 == column && 1 <= k.1 <= limit && Reachable(column, k.1, faults)
                          then cells[k].(value := Null) else cells[k]
  }

  /** Whether row `row` of the column holds a value that clearing removes. */
  predicate Clears(cells: map<(string, int), Cell>, column: string, row: int, faults: set<Fault>)
  {
    Reachable(column, row, faults) && (column, row) in cells && cells[(column, row)].value != Null
  }

  /** The number of cells clearing rows 1..limit empties. */
  function CountCleared(cells: map<(string, int), Cell>, column: string, limit: int, faults: set<Fault>): nat
  {
    if limit <= 0 then 0
    else CountCleared(cells, column, limit - 1, faults) + (if Clears(cells, column, limit, faults) then 1 else 0)
  }

  /** The rows in 1..limit that held a value and were reachable. */
  function ClearedRows(cells: map<(string, int), Cell>, column: string, limit: int, faults: set<Fault>): set<int>
  {
    set r | 1 <= r <= limit && Clears(cells, column, r, faults)
  }

  /** The count returned is the number of previously non-empty reachable cells in rows 1..limit. */
  lemma {:induction false} CountClearedIsRows(cells: map<(string, int), Cell>, column: string, limit: int, faults: set<Fault>)
    ensures CountCleared(cells, column, limit, faults) == |ClearedRows(cells, column, limit, faults)|
  {
    if limit <= 0 {
      assert ClearedRows(cells, column, limit, faults) == {};
    } else {
      CountClearedIsRows(cells, column, limit - 1, faults);
      var before := ClearedRows(cells, column, limit - 1, faults);
      if Clears(cells, column, limit, faults) {
        assert ClearedRows(cells, column, limit, faults) == before + {limit};
      } else {
        assert ClearedRows(cells, column, limit, faults) == before;
      }
    }
  }

  /**
   * After clearing, every reachable cell of the column in rows 1..limit is empty; rows
   * beyond the limit and every other column keep their cells exactly.
   */
  lemma ClearedCellsFacts(cells: map<(string, int), Cell>, column: string, limit: int, faults: set<Fault>)
    ensures var after := ClearedCells(cells, column, limit, faults);
      && after.Keys == cells.Keys
      && (forall r :: 1 <= r <= limit && Reachable(column, r, faults) && (column, r) in after ==> after[(column, r)].value == Null)
      && (forall k :: k in cells && (k.0 != column || k.1 > limit || k.1 < 1) ==> after[k] == cells[k])
      && (forall k :: k in cells ==> after[k].fill == cells[k].fill && after[k].bold == cells[k].bold && after[k].comment == cells[k].comment)
  {
  }

  /** The header logged for a column: "Onbekend" when row 1 cannot be read, "Geen header" when it is falsy. */
  function HeaderOf(st: SheetState, column: string, faults: set<Fault>): Value
  {
    if !Reachable(column, 1, faults) then Str("Onbekend")
    else if Truthy(CellOf(st, column, 1).value) then CellOf(st, column, 1).value
    else Str("Geen header")
  }

  datatype HideStep = HideStep(state: SheetState, result: ColumnResult)

  /**
   * `_apply_hide_method` on one column: the dimension writes, then (when they all went
   * through and clearing is asked for or the method is CONTENT_CLEAR) the clearing.
   */
  function ApplyHide(st: SheetState, column: string, m: HideMethod, clear: bool, faults: set<Fault>): HideStep
  {
    var header := HeaderOf(st, column, faults);
    var outcome := HideDim(DimOf(st, column), column, m, faults);
    var dims := if m == ContentClear then st.dims else st.dims[column := outcome.dim];
    if !outcome.ok then
      HideStep(SheetState(dims, st.cells, st.maxRow), ColumnResult(column, false, outcome.actions + [Error], header))
    else if clear || m == ContentClear then
      var limit := ClearLimit(st);
      HideStep(SheetState(dims, ClearedCells(st.cells, column, limit, faults), st.maxRow),
               ColumnResult(column, true, outcome.actions + [Cleared(CountCleared(st.cells, column, limit, faults))], header))
    else
      HideStep(SheetState(dims, st.cells, st.maxRow), ColumnResult(column, true, outcome.actions, header))
  }

  /** A column succeeds exactly when none of its method's writes raises; the state does not matter. */
  lemma ApplyHideSuccess(st: SheetState, column: string, m: HideMethod, clear: bool, faults: set<Fault>)
    ensures ApplyHide(st, column, m, clear, faults).result.success <==> !Blocked(column, m, faults)
    ensures ApplyHide(st, column, m, clear, faults).result.column == column
    ensures !ApplyHide(st, column, m, clear, faults).result.success ==>
              ApplyHide(st, column, m, clear, faults).result.actions == [Error]
  {
    RunStepsOk(DimOf(st, column), column, MethodSteps(m), faults);
  }

  /** Only the named column's record and cells can change. */
  lemma ApplyHideFrame(st: SheetState, column: string, m: HideMethod, clear: bool, faults: set<Fault>, other: string)
    requires other != column
    ensures var after := ApplyHide(st, column, m, clear, faults).state;
      && DimOf(after, other) == DimOf(st, other)
      && (forall row :: CellOf(after, other, row) == CellOf(st, other, row))
      && after.maxRow == st.maxRow
  {
  }

  datatype HideRun = HideRun(state: SheetState, results: seq<ColumnResult>)

  /** `hide_columns`: the columns in input order, each on the state the previous one left. */
  function HideAll(st: SheetState, columns: seq<string>, m: HideMethod, clear: bool, faults: set<Fault>): HideRun
  {
    if |columns| == 0 then HideRun(st, [])
    else
      var run := HideAll(st, columns[..|columns| - 1], m, clear, faults);
      var step := ApplyHide(run.state, columns[|columns| - 1], m, clear, faults);
      HideRun(step.state, run.results + [step.result])
  }

  /** The number of successful results. */
  function SuccessCount(results: seq<ColumnResult>): (n: nat)
    ensures n <= |results|
  {
    if |results| == 0 then 0
    else SuccessCount(results[..|results| - 1]) + (if results[|results| - 1].success then 1 else 0)
  }

  /**
   * One result per column, in input order, carrying that column; a column succeeds exactly
   * when its own writes do not raise, so a failure never stops the columns after it.
   */
  lemma {:induction false} HideAllResults(st: SheetState, columns: seq<string>, m: HideMethod, clear: bool, faults: set<Fault>)
    ensures var rs := HideAll(st, columns, m, clear, faults).results;
      && |rs| == |columns|
      && forall i :: 0 <= i < |columns| ==> rs[i].column == columns[i] && (rs[i].success <==> !Blocked(columns[i], m, faults))
  {
    if |columns| > 0 {
      var init := columns[..|columns| - 1];
      HideAllResults(st, init, m, clear, faults);
      var run := HideAll(st, init, m, clear, faults);
      ApplyHideSuccess(run.state, columns[|columns| - 1], m, clear, faults);
      assert forall i :: 0 <= i < |init| ==> init[i] == columns[i];
    }
  }

  /** Columns not in the list keep their record and cells. */
  lemma {:induction false} HideAllFrame(st: SheetState, columns: seq<string>, m: HideMethod, clear: bool, faults: set<Fault>, other: string)
    requires forall i :: 0 <= i < |columns| ==> columns[i] != other
    ensures var after := HideAll(st, columns, m, clear, faults).state;
      && DimOf(after, other) == DimOf(st, other)
      && (forall row :: CellOf(after, other, row) == CellOf(st, other, row))
      && after.maxRow == st.maxRow
  {
    if |columns| > 0 {
      var init := columns[..|columns| - 1];
      HideAllFrame(st, init, m, clear, faults, other);
      var mid := HideAll(st, init, m, clear, faults).state;
      ApplyHideFrame(mid, columns[|columns| - 1], m, clear, faults, other);
      assert HideAll(st, columns, m, clear, faults).state == ApplyHide(mid, columns[|columns| - 1], m, clear, faults).state;
    }
  }

  /** The `results` dictionary of `hide_columns`; its `errors` list stays empty (see README). */
  datatype HideReport = HideReport(hideMethod: HideMethod, processed: seq<ColumnResult>, errors: seq<string>, successCount: nat)

  /** One attribute write through `column_dimensions[column]`; raises when the fault set says so. */
  method SetAttribute(ws: Worksheet, column: string, step: Step, faults: set<Fault>) returns (ok: bool)
    requires column in ws.dims
    modifies ws
    ensures ok <==> (column, step) !in faults
    ensures ws.dims == if ok then old(ws.dims)[column := ApplyStep(old(ws.dims)[column], step)] else old(ws.dims)
    ensures ws.cells == old(ws.cells) && ws.maxRow == old(ws.maxRow)
  {
    if (column, step) in faults {
      return false;
    }
    ws.dims := ws.dims[column := ApplyStep(ws.dims[column], step)];
    return true;
  }

  /** The dimension writes of `_apply_hide_method`, statement by statement. */
  method HideDimension(ws: Worksheet, column: string, m: HideMethod, faults: set<Fault>) returns (ok: bool, actions: seq<Action>)
    requires m != ContentClear
    modifies ws
    ensures var outcome := HideDim(DimOf(old(ws.State()), column), column, m, faults);
      && ws.dims == old(ws.dims)[column := outcome.dim]
      && ok == outcome.ok && actions == outcome.actions
    ensures ws.cells == old(ws.cells) && ws.maxRow == old(ws.maxRow)
  {
    ws.dims := ws.dims[column := DimOf(ws.State(), column)];
    actions := [];
    match m
    case HiddenOnly =>
      assert [SetHidden][1..] == [];
      ok := SetAttribute(ws, column, SetHidden, faults);
      if ok { actions := [HiddenTrue]; }
    case WidthZero =>
      assert [SetWidth][1..] == [];
      ok := SetAttribute(ws, column, SetWidth, faults);
      if ok { actions := [WidthZeroed]; }
    case Combined =>
      assert [SetHidden, SetWidth][1..][1..] == [];
      ok := SetAttribute(ws, column, SetHidden, faults);
      if ok { ok := SetAttribute(ws, column, SetWidth, faults); }
      if ok { actions := [HiddenTrue, WidthZeroed]; }
    case OutlineCollapse =>
      ok, actions := CollapseOutline(ws, column, faults);
    case AllMethods =>
      ok, actions := ApplyAllMethods(ws, column, faults);
  }

  /** The OUTLINE_COLLAPSE branch: hidden, outline level 1, collapsed. */
  method CollapseOutline(ws: Worksheet, column: string, faults: set<Fault>) returns (ok: bool, actions: seq<Action>)
    requires column in ws.dims
    modifies ws
    ensures var outcome := HideDim(old(ws.dims)[column], column, OutlineCollapse, faults);
      && ws.dims == old(ws.dims)[column := outcome.dim]
      && ok == outcome.ok && actions == outcome.actions
    ensures ws.cells == old(ws.cells) && ws.maxRow == old(ws.maxRow)
  {
    assert [SetHidden, SetOutline, SetCollapsed][1..][1..][1..] == [];
    actions := [];
    ok := SetAttribute(ws, column, SetHidden, faults);
    if ok { ok := SetAttribute(ws, column, SetOutline, faults); }
    if ok { ok := SetAttribute(ws, column, SetCollapsed, faults); }
    if ok { actions := [HiddenTrue, OutlineOne, CollapsedTrue]; }
  }

  /** The ALL_METHODS branch: hidden, width 0, outline level 1, then `collapsed` in its own try block (logged first). */
  method ApplyAllMethods(ws: Worksheet, column: string, faults: set<Fault>) returns (ok: bool, actions: seq<Action>)
    requires column in ws.dims
    modifies ws
    ensures var outcome := HideDim(old(ws.dims)[column], column, AllMethods, faults);
      && ws.dims == old(ws.dims)[column := outcome.dim]
      && ok == outcome.ok && actions == outcome.actions
    ensures ws.cells == old(ws.cells) && ws.maxRow == old(ws.maxRow)
  {
    assert [SetHidden, SetWidth, SetOutline][1..][1..][1..] == [];
    actions := [];
    ok := SetAttribute(ws, column, SetHidden, faults);
    if ok { ok := SetAttribute(ws, column, SetWidth, faults); }
    if ok { ok := SetAttribute(ws, column, SetOutline, faults); }
    if ok {
      var collapsed := SetAttribute(ws, column, SetCollapsed, faults);
      if collapsed { actions := [CollapsedTrue]; }
      actions := actions + [HiddenTrue, WidthZeroed, OutlineOne];
    }
  }

  /** `_clear_column_content`: empties rows 1..min(max_row, 1000) of the column, skipping rows that raise. */
  method ClearColumnContent(ws: Worksheet, column: string, faults: set<Fault>) returns (count: nat)
    modifies ws
    ensures ws.cells == ClearedCells(old(ws.cells), column, ClearLimit(old(ws.State())), faults)
    ensures count == CountCleared(old(ws.cells), column, ClearLimit(old(ws.State())), faults)
    ensures ws.dims == old(ws.dims) && ws.maxRow == old(ws.maxRow)
  {
    var limit := if ws.maxRow < 1000 then ws.maxRow else 1000;
    ghost var original := ws.cells;
    count := 0;
    assert ClearedCells(original, column, 0, faults) == original;
    for row := 1 to limit + 1
      invariant ws.cells == ClearedCells(original, column, row - 1, faults)
      invariant count == CountCleared(original, column, row - 1, faults)
      invariant ws.dims == old(ws.dims) && ws.maxRow == old(ws.maxRow)
    {
      ClearedCellsStep(original, column, row, faults);
      if Reachable(column, row, faults) {
        if (column, row) in ws.cells && ws.cells[(column, row)].value != Null {
          ws.cells := ws.cells[(column, row) := ws.cells[(column, row)].(value := Null)];
          count := count + 1;
        }
      }
    }
  }

  /** Clearing one more row changes at most that row's cell. */
  lemma ClearedCellsStep(cells: map<(string, int), Cell>, column: string, row: int, faults: set<Fault>)
    requires row >= 1
    ensures var before := ClearedCells(cells, column, row - 1, faults);
      && ((column, row) in before <==> (column, row) in cells)
      && ((column, row) in cells ==> before[(column, row)] == cells[(column, row)])
      && ClearedCells(cells, column, row, faults) ==
           if Clears(cells, column, row, faults)
           then before[(column, row) := cells[(column, row)].(value := Null)]
           else before
  {
    var before := ClearedCells(cells, column, row - 1, faults);
    var after := ClearedCells(cells, column, row, faults);
    if Clears(cells, column, row, faults) {
      assert after == before[(column, row) := cells[(column, row)].(value := Null)];
    } else {
      assert after == before;
    }
  }

  /** `_apply_hide_method`. */
  method ApplyHideMethod(ws: Worksheet, column: string, m: HideMethod, clearContent: bool, faults: set<Fault>)
    returns (result: ColumnResult)
    modifies ws
    ensures HideStep(ws.State(), result) == ApplyHide(old(ws.State()), column, m, clearContent, faults)
  {
    var header: Value;
    if !Reachable(column, 1, faults) {
      header := Str("Onbekend");
    } else {
      var value := CellOf(ws.State(), column, 1).value;
      header := if Truthy(value) then value else Str("Geen header");
    }
    var ok := true;
    var actions: seq<Action> := [];
    if m != ContentClear {
      ok, actions := HideDimension(ws, column, m, faults);
    }
    if ok && (clearContent || m == ContentClear) {
      var cleared := ClearColumnContent(ws, column, faults);
      actions := actions + [Cleared(cleared)];
    }
    if !ok {
      actions := actions + [Error];
    }
    result := ColumnResult(column, ok, actions, header);
  }

  /** Extending the column list by one column runs one more `ApplyHide`. */
  lemma HideAllSnoc(st: SheetState, columns: seq<string>, i: int, m: HideMethod, clear: bool, faults: set<Fault>)
    requires 0 <= i < |columns|
    ensures var run := HideAll(st, columns[..i], m, clear, faults);
      var step := ApplyHide(run.state, columns[i], m, clear, faults);
      HideAll(st, columns[..i + 1], m, clear, faults) == HideRun(step.state, run.results + [step.result])
  {
    assert columns[..i + 1][..i] == columns[..i];
  }

  lemma SuccessCountSnoc(results: seq<ColumnResult>, r: ColumnResult)
    ensures SuccessCount(results + [r]) == SuccessCount(results) + (if r.success then 1 else 0)
  {
    assert (results + [r])[..|results|] == results;
  }

  /** `hide_columns`. */
  method HideColumns(ws: Worksheet, columns: seq<string>, m: HideMethod, clearContent: bool, faults: set<Fault>)
    returns (report: HideReport)
    modifies ws
    ensures var run := HideAll(old(ws.State()), columns, m, clearContent, faults);
      && ws.State() == run.state
      && report == HideReport(m, run.results, [], SuccessCount(run.results))
  {
    ghost var initial := ws.State();
    var processed: seq<ColumnResult> := [];
    var successCount := 0;
    for i := 0 to |columns|
      invariant ws.State() == HideAll(initial, columns[..i], m, clearContent, faults).state
      invariant processed == HideAll(initial, columns[..i], m, clearContent, faults).results
      invariant successCount == SuccessCount(processed)
    {
      HideAllSnoc(initial, columns, i, m, clearContent, faults);
      var result := ApplyHideMethod(ws, columns[i], m, clearContent, faults);
      SuccessCountSnoc(processed, result);
      processed := processed + [result];
      if result.success {
        successCount := successCount + 1;
      }
    }
    assert columns[..|columns|] == columns;
    report := HideReport(m, processed, [], successCount);
  }

  // Recommendations over the per-method test runs.

  /** One `methods_tested` entry: a run's success count, or an error entry. */
  datatype MethodOutcome = Tested(successCount: nat) | Failed

  /** The recommendation lines; the percentage text is not modelled, the best run's count is. */
  datatype Advice =
    | BestMethod(m: HideMethod, successCount: nat)
    | PerfectCompatibility
    | GoodCompatibility
    | LowCompatibility
    | UseAllMethods
    | UseCombined
    | TestManually

  /** `methods_tested` is a dict keyed by method value. */
  predicate DistinctMethods(tested: seq<(HideMethod, MethodOutcome)>)
  {
    forall i, j :: 0 <= i < j < |tested| ==> tested[i].0 != tested[j].0
  }

  /**
   * The numerator of a success rate over `total` columns: every rate shares that
   * denominator, and a rate is 0 when there are no columns.
   */
  function RateCount(successCount: nat, total: nat): nat
  {
    if total > 0 then successCount else 0
  }

  /** `success_rates`: the non-error entries in order, each with its rate numerator. */
  function SuccessRates(tested: seq<(HideMethod, MethodOutcome)>, total: nat): (rates: seq<(HideMethod, nat)>)
    ensures |rates| <= |tested|
    ensures forall r :: r in rates <==> exists i :: 0 <= i < |tested| && tested[i].1.Tested? && r == (tested[i].0, RateCount(tested[i].1.successCount, total))
  {
    if |tested| == 0 then []
    else
      var init := SuccessRates(tested[..|tested| - 1], total);
      var last := tested[|tested| - 1];
      assert forall i :: 0 <= i < |tested| - 1 ==> tested[..|tested| - 1][i] == tested[i];
      if last.1.Tested? then init + [(last.0, RateCount(last.1.successCount, total))] else init
  }

  /**
   * The rates keep the order and the repetitions of the runs: they split over
   * concatenation, so each tested run contributes one rate in its place.
   */
  lemma {:induction false} SuccessRatesAppend(xs: seq<(HideMethod, MethodOutcome)>, ys: seq<(HideMethod, MethodOutcome)>, total: nat)
    ensures SuccessRates(xs + ys, total) == SuccessRates(xs, total) + SuccessRates(ys, total)
  {
    if |ys| > 0 {
      var init := ys[..|ys| - 1];
      assert (xs + ys)[..|xs + ys| - 1] == xs + init;
      SuccessRatesAppend(xs, init, total);
    } else {
      assert xs + ys == xs;
    }
  }

  /** `max(success_rates.items(), key=rate)`: the first entry with the largest rate. */
  function BestIndex(rates: seq<(HideMethod, nat)>): (k: nat)
    requires |rates| > 0
    ensures k < |rates|
    ensures forall j :: 0 <= j < |rates| ==> rates[j].1 <= rates[k].1
    ensures forall j :: 0 <= j < k ==> rates[j].1 < rates[k].1
  {
    if |rates| == 1 then 0
    else
      var k := BestIndex(rates[..|rates| - 1]);
      assert forall j :: 0 <= j < |rates| - 1 ==> rates[..|rates| - 1][j] == rates[j];
      if rates[|rates| - 1].1 > rates[k].1 then |rates| - 1 else k
  }

  /** `rate >= 0.8`, with the rate as `count / total`. */
  predicate GoodRate(count: nat, total: nat)
  {
    total > 0 && 5 * count >= 4 * total
  }

  /** The rate numerator recorded for a method, if it has one. */
  function RateOf(rates: seq<(HideMethod, nat)>, m: HideMethod): Option<nat>
  {
    if |rates| == 0 then None
    else if rates[0].0 == m then Some(rates[0].1)
    else RateOf(rates[1..], m)
  }

  lemma {:induction false} RateOfFound(rates: seq<(HideMethod, nat)>, m: HideMethod)
    ensures RateOf(rates, m).Some? <==> exists i :: 0 <= i < |rates| && rates[i].0 == m
    ensures RateOf(rates, m).Some? ==> (m, RateOf(rates, m).value) in rates
  {
    if |rates| > 0 && rates[0].0 != m {
      RateOfFound(rates[1..], m);
      assert forall i :: 1 <= i < |rates| ==> rates[1..][i - 1] == rates[i];
    }
  }

  /** The closing, method-specific recommendation. */
  function SpecificAdvice(rates: seq<(HideMethod, nat)>, total: nat): Advice
  {
    var all := RateOf(rates, AllMethods);
    var combined := RateOf(rates, Combined);
    if all.Some? && GoodRate(all.value, total) then UseAllMethods
    else if combined.Some? && GoodRate(combined.value, total) then UseCombined
    else TestManually
  }

  /** `_generate_recommendations`. */
  function Recommendations(tested: seq<(HideMethod, MethodOutcome)>, total: nat): seq<Advice>
  {
    var rates := SuccessRates(tested, total);
    var summary :=
      if |rates| == 0 then []
      else
        var best := rates[BestIndex(rates)];
        [BestMethod(best.0, best.1),
         if total > 0 && best.1 == total then PerfectCompatibility
         else if GoodRate(best.1, total) then GoodCompatibility
         else LowCompatibility];
    summary + [SpecificAdvice(rates, total)]
  }

  /** The method's own run is a tested entry with that success count. */
  predicate RanWith(tested: seq<(HideMethod, MethodOutcome)>, m: HideMethod, count: nat)
  {
    exists i :: 0 <= i < |tested| && tested[i] == (m, Tested(count))
  }

  /**
   * ALL_METHODS is advised exactly when its run reached a rate of at least 0.8; otherwise
   * COMBINED under the same condition; otherwise a manual test. Error entries have no rate.
   */
  lemma SpecificAdviceIff(tested: seq<(HideMethod, MethodOutcome)>, total: nat)
    requires DistinctMethods(tested)
    ensures var advice := Recommendations(tested, total)[|Recommendations(tested, total)| - 1];
      && (advice == UseAllMethods <==> exists c :: RanWith(tested, AllMethods, c) && GoodRate(c, total))
      && (advice == UseCombined <==>
            (!exists c :: RanWith(tested, AllMethods, c) && GoodRate(c, total))
            && exists c :: RanWith(tested, Combined, c) && GoodRate(c, total))
  {
    var rates := SuccessRates(tested, total);
    RateOfFound(rates, AllMethods);
    RateOfFound(rates, Combined);
    assert forall m, c :: RanWith(tested, m, c) ==> (m, RateCount(c, total)) in rates;
    forall m, c: nat | RanWith(tested, m, c) && GoodRate(c, total)
      ensures RateOf(rates, m) == Some(c)
    {
      RateOfUnique(tested, total, m, c);
    }
  }

  /** With distinct methods, a tested method's recorded rate is its own. */
  lemma RateOfUnique(tested: seq<(HideMethod, MethodOutcome)>, total: nat, m: HideMethod, c: nat)
    requires DistinctMethods(tested) && RanWith(tested, m, c) && total > 0
    ensures RateOf(SuccessRates(tested, total), m) == Some(c)
  {
    var rates := SuccessRates(tested, total);
    var i :| 0 <= i < |tested| && tested[i] == (m, Tested(c));
    assert (m, c) in rates;
    var at :| 0 <= at < |rates| && rates[at] == (m, c);
    RateOfFound(rates, m);
    var v := RateOf(rates, m).value;
    var j :| 0 <= j < |tested| && tested[j].1.Tested? && (m, v) == (tested[j].0, RateCount(tested[j].1.successCount, total));
    assert i == j;
  }

  /** `m` ran with `count`, and every tested run before it has a smaller count. */
  predicate FirstBest(tested: seq<(HideMethod, MethodOutcome)>, m: HideMethod, count: nat)
  {
    exists i :: 0 <= i < |tested| && tested[i] == (m, Tested(count))
      && forall j :: 0 <= j < i && tested[j].1.Tested? ==> tested[j].1.successCount < count
  }

  /** The first tested run with the given count. */
  lemma FirstWithCount(tested: seq<(HideMethod, MethodOutcome)>, count: nat) returns (i: nat)
    requires exists j :: 0 <= j < |tested| && tested[j] == (tested[j].0, Tested(count))
    ensures i < |tested| && tested[i] == (tested[i].0, Tested(count))
    ensures forall j :: 0 <= j < i ==> tested[j] != (tested[j].0, Tested(count))
  {
    i := 0;
    while tested[i] != (tested[i].0, Tested(count))
      invariant exists j :: i <= j < |tested| && tested[j] == (tested[j].0, Tested(count))
      invariant forall j :: 0 <= j < i ==> tested[j] != (tested[j].0, Tested(count))
      decreases |tested| - i
    {
      i := i + 1;
    }
  }

  /** Runs whose counts are all below `best` give rates all below `best`. */
  lemma RatesBelow(tested: seq<(HideMethod, MethodOutcome)>, total: nat, best: nat)
    requires forall j :: 0 <= j < |tested| && tested[j].1.Tested? ==> tested[j].1.successCount < best
    ensures forall q :: 0 <= q < |SuccessRates(tested, total)| ==> SuccessRates(tested, total)[q].1 < best
  {
    var rates := SuccessRates(tested, total);
    forall q | 0 <= q < |rates|
      ensures rates[q].1 < best
    {
      assert rates[q] in rates;
      var j :| 0 <= j < |tested| && tested[j].1.Tested? && rates[q] == (tested[j].0, RateCount(tested[j].1.successCount, total));
    }
  }

  /**
   * The rate of run `i` sits right after the rates of the runs before it; when those runs
   * all have smaller counts, so do their rates.
   */
  lemma RateOfRun(tested: seq<(HideMethod, MethodOutcome)>, total: nat, i: nat, best: nat)
    requires total > 0
    requires i < |tested| && tested[i].1 == Tested(best)
    requires forall j :: 0 <= j < i && tested[j].1.Tested? ==> tested[j].1.successCount < best
    ensures var rates, p := SuccessRates(tested, total), |SuccessRates(tested[..i], total)|;
      && p < |rates| && rates[p] == (tested[i].0, best)
      && forall q :: 0 <= q < p ==> rates[q].1 < best
  {
    var x := tested[i];
    var pre, post := tested[..i], tested[i + 1..];
    assert tested == pre + [x] + post;
    SuccessRatesAppend(pre + [x], post, total);
    SuccessRatesAppend(pre, [x], total);
    assert [x][..0] == [];
    assert SuccessRates([x], total) == [(x.0, best)];
    assert forall j :: 0 <= j < |pre| ==> pre[j] == tested[j];
    RatesBelow(pre, total, best);
  }

  /** The entry that is maximal and strictly above everything before it is the one `max` picks. */
  lemma BestIndexAt(rates: seq<(HideMethod, nat)>, p: nat)
    requires p < |rates|
    requires forall q :: 0 <= q < |rates| ==> rates[q].1 <= rates[p].1
    requires forall q :: 0 <= q < p ==> rates[q].1 < rates[p].1
    ensures BestIndex(rates) == p
  {
    var k := BestIndex(rates);
    assert rates[k].1 == rates[p].1;
  }

  /** The entry `max` picks comes from the first run with the largest count. */
  lemma BestIsFirst(tested: seq<(HideMethod, MethodOutcome)>, total: nat)
    requires total > 0
    requires |SuccessRates(tested, total)| > 0
    requires var rates := SuccessRates(tested, total);
      forall j :: 0 <= j < |tested| && tested[j].1.Tested? ==> tested[j].1.successCount <= rates[BestIndex(rates)].1
    ensures var rates := SuccessRates(tested, total);
      FirstBest(tested, rates[BestIndex(rates)].0, rates[BestIndex(rates)].1)
  {
    var rates := SuccessRates(tested, total);
    var k := BestIndex(rates);
    var best := rates[k].1;
    assert rates[k] in rates;
    var i0 := FirstWithCount(tested, best);
    forall j | 0 <= j < i0 && tested[j].1.Tested?
      ensures tested[j].1.successCount < best
    {
      assert tested[j] != (tested[j].0, Tested(best));
    }
    RateOfRun(tested, total, i0, best);
    BestIndexAt(rates, |SuccessRates(tested[..i0], total)|);
  }

  /**
   * When some run has a rate, the first line names the first method with the largest
   * success count, and the second is "perfect" exactly when that count covers all columns.
   */
  lemma BestMethodAdvice(tested: seq<(HideMethod, MethodOutcome)>, total: nat)
    requires total > 0
    requires exists i :: 0 <= i < |tested| && tested[i].1.Tested?
    ensures var recs := Recommendations(tested, total);
      && |recs| == 3 && recs[0].BestMethod?
      && RanWith(tested, recs[0].m, recs[0].successCount)
      && FirstBest(tested, recs[0].m, recs[0].successCount)
      && (forall i :: 0 <= i < |tested| && tested[i].1.Tested? ==> tested[i].1.successCount <= recs[0].successCount)
      && (recs[1] == PerfectCompatibility <==> recs[0].successCount == total)
  {
    var rates := SuccessRates(tested, total);
    var i :| 0 <= i < |tested| && tested[i].1.Tested?;
    assert (tested[i].0, tested[i].1.successCount) in rates;
    var k := BestIndex(rates);
    var best := rates[k].1;
    assert rates[k] in rates;
    forall j | 0 <= j < |tested| && tested[j].1.Tested?
      ensures tested[j].1.successCount <= best
    {
      assert (tested[j].0, tested[j].1.successCount) in rates;
    }
    BestIsFirst(tested, total);
  }

  /** `_generate_recommendations`, with the success-rate loop. */
  method GenerateRecommendations(tested: seq<(HideMethod, MethodOutcome)>, total: nat) returns (recs: seq<Advice>)
    ensures recs == Recommendations(tested, total)
  {
    var rates: seq<(HideMethod, nat)> := [];
    for i := 0 to |tested|
      invariant rates == SuccessRates(tested[..i], total)
    {
      assert tested[..i + 1][..i] == tested[..i];
      if tested[i].1.Tested? {
        var rate := if total > 0 then tested[i].1.successCount else 0;
        rates := rates + [(tested[i].0, rate)];
      }
    }
    assert tested[..|tested|] == tested;
    recs := [];
    if |rates| > 0 {
      var best := rates[BestIndex(rates)];
      recs := recs + [BestMethod(best.0, best.1)];
      if total > 0 && best.1 == total {
        recs := recs + [PerfectCompatibility];
      } else if GoodRate(best.1, total) {
        recs := recs + [GoodCompatibility];
      } else {
        recs := recs + [LowCompatibility];
      }
    }
    recs := recs + [SpecificAdvice(rates, total)];
  }
}
