/**
 * The template writer (`ExcelProcessor`): applies the per-column decisions to the
 * template sheet (hidden flag, mandatory header styling, header comment) and then forces
 * columns AA and AB hidden through the column hider, or a plain fallback when that
 * helper cannot be loaded.
 */
module Excel {
  import opened Wrappers
  import opened Sheets
  import opened Hiding
  import opened Engine

  const DefaultMandatoryColor: string := "#FFF2CC"
  const DefaultHiddenColor: string := "#EEEEEE"

  /** The columns `_apply_column_decisions` always forces hidden. */
  const PermanentlyHidden: seq<string> := ["AA", "AB"]

  /** `s.lstrip('#')`. */
  function StripHashes(s: string): (r: string)
    ensures |r| <= |s| && r == s[|s| - |r|..]
    ensures r == [] || r[0] != '#'
    ensures forall k :: 0 <= k < |s| - |r| ==> s[k] == '#'
  {
    if |s| > 0 && s[0] == '#' then StripHashes(s[1..]) else s
  }

  /** The header cell after the decision for its column (visible columns only). */
  function StyleHeader(c: Cell, d: FieldDecision, fill: Fill): Cell
  {
    var styled := if d.mandatory then c.(fill := fill, bold := true) else c;
    if d.notes != "" then styled.(comment := Some(d.notes)) else styled
  }

  /** Whether a decision touches its header cell at all. */
  predicate StylesHeader(d: FieldDecision)
  {
    d.visible && (d.mandatory || d.notes != "")
  }

  /** One loop iteration of `_apply_column_decisions`. */
  function ApplyDecision(st: SheetState, column: string, d: FieldDecision, fill: Fill): SheetState
  {
    var dims := st.dims[column := DimOf(st, column).(hidden := !d.visible)];
    if StylesHeader(d) then SheetState(dims, st.cells[(column, 1) := StyleHeader(CellOf(st, column, 1), d, fill)], st.maxRow)
    else SheetState(dims, st.cells, st.maxRow)
  }

  /**
   * The key order of `{d.column: d for d in decisions}`: each column where it first occurs
   * (the value stored for it is the last decision, `DecisionsByColumn`).
   */
  function ColumnOrder(ds: seq<FieldDecision>): (order: seq<string>)
    ensures forall i, j :: 0 <= i < j < |order| ==> order[i] != order[j]
    ensures forall c :: c in order <==> exists i :: 0 <= i < |ds| && ds[i].column == c
    ensures forall i, j, q :: 0 <= i < j < |order| && 0 <= q < |ds| && ds[q].column == order[j] ==>
              OccursBefore(ds, order[i], q)
  {
    if |ds| == 0 then []
    else
      var init := ColumnOrder(ds[..|ds| - 1]);
      var last := ds[|ds| - 1].column;
      assert forall i :: 0 <= i < |ds| - 1 ==> ds[..|ds| - 1][i] == ds[i];
      OccursBeforeExtend(ds, ds[..|ds| - 1], init);
      if last in init then init else init + [last]
  }

  /** Column `c` occurs in `ds` somewhere before position `q`. */
  predicate OccursBefore(ds: seq<FieldDecision>, c: string, q: int)
  {
    exists p :: 0 <= p < q && p < |ds| && ds[p].column == c
  }

  /**
   * The order facts of the shorter list carry over to `ds`, and every column it lists
   * occurs before the last position.
   */
  lemma OccursBeforeExtend(ds: seq<FieldDecision>, pre: seq<FieldDecision>, init: seq<string>)
    requires |ds| > 0 && pre == ds[..|ds| - 1]
    requires forall c :: c in init <==> exists i :: 0 <= i < |pre| && pre[i].column == c
    requires forall i, j, q :: 0 <= i < j < |init| && 0 <= q < |pre| && pre[q].column == init[j] ==>
               OccursBefore(pre, init[i], q)
    ensures forall i, j, q :: 0 <= i < j < |init| && 0 <= q < |ds| - 1 && ds[q].column == init[j] ==>
              OccursBefore(ds, init[i], q)
    ensures forall i :: 0 <= i < |init| ==> OccursBefore(ds, init[i], |ds| - 1)
  {
    forall i, j, q | 0 <= i < j < |init| && 0 <= q < |ds| - 1 && ds[q].column == init[j]
      ensures OccursBefore(ds, init[i], q)
    {
      assert pre[q] == ds[q];
      assert OccursBefore(pre, init[i], q);
      var p :| 0 <= p < q && p < |pre| && pre[p].column == init[i];
      assert ds[p] == pre[p];
    }
    forall i | 0 <= i < |init|
      ensures OccursBefore(ds, init[i], |ds| - 1)
    {
      assert init[i] in init;
      var p :| 0 <= p < |pre| && pre[p].column == init[i];
      assert ds[p] == pre[p];
    }
  }

  /** The dict's keys in order are exactly the keys of the by-column map. */
  lemma ColumnOrderKeys(ds: seq<FieldDecision>)
    ensures forall c :: c in ColumnOrder(ds) <==> c in DecisionsByColumn(ds)
  {
    DecisionsByColumnKeys(ds);
  }

  /** The sheet after the loop has handled the columns of `order`, in that order. */
  function ApplyInOrder(st: SheetState, byColumn: map<string, FieldDecision>, fill: Fill, order: seq<string>): SheetState
    requires forall c :: c in order ==> c in byColumn
  {
    if |order| == 0 then st
    else
      var column := order[|order| - 1];
      ApplyDecision(ApplyInOrder(st, byColumn, fill, order[..|order| - 1]), column, byColumn[column], fill)
  }

  /**
   * Column by column, for distinct keys: a handled column has `hidden == not visible` and
   * its header styled by its decision; every other record and cell is as it was.
   */
  lemma {:induction false} ApplyInOrderPointwise(st: SheetState, byColumn: map<string, FieldDecision>, fill: Fill, order: seq<string>)
    requires forall c :: c in order ==> c in byColumn
    requires forall i, j :: 0 <= i < j < |order| ==> order[i] != order[j]
    ensures var after := ApplyInOrder(st, byColumn, fill, order);
      && (forall c :: DimOf(after, c) == if c in order then DimOf(st, c).(hidden := !byColumn[c].visible) else DimOf(st, c))
      && (forall c, row :: CellOf(after, c, row) ==
            if row == 1 && c in order && StylesHeader(byColumn[c]) then StyleHeader(CellOf(st, c, 1), byColumn[c], fill)
            else CellOf(st, c, row))
      && after.maxRow == st.maxRow
  {
    if |order| > 0 {
      var init := order[..|order| - 1];
      var column := order[|order| - 1];
      assert forall c :: c in order <==> c in init || c == column;
      assert column !in init;
      ApplyInOrderPointwise(st, byColumn, fill, init);
    }
  }

  /**
   * Every column with a decision has `hidden == not visible`; a hidden column's header
   * is left as it was; a visible mandatory column's header gets the fill and a bold font;
   * a visible column with notes gets a comment holding exactly those notes; no other
   * column changes.
   */
  lemma DecisionsAppliedFacts(st: SheetState, byColumn: map<string, FieldDecision>, fill: Fill, order: seq<string>)
    requires forall c :: c in order <==> c in byColumn
    requires forall i, j :: 0 <= i < j < |order| ==> order[i] != order[j]
    ensures var after := ApplyInOrder(st, byColumn, fill, order);
      && (forall c :: c in byColumn ==> DimOf(after, c).hidden == !byColumn[c].visible)
      && (forall c :: c in byColumn && !byColumn[c].visible ==> CellOf(after, c, 1) == CellOf(st, c, 1))
      && (forall c :: c in byColumn && byColumn[c].visible && byColumn[c].mandatory ==>
            CellOf(after, c, 1).fill == fill && CellOf(after, c, 1).bold)
      && (forall c :: c in byColumn && byColumn[c].visible && byColumn[c].notes != "" ==>
            CellOf(after, c, 1).comment == Some(byColumn[c].notes))
      && (forall c :: c !in byColumn ==> DimOf(after, c) == DimOf(st, c) && forall row :: CellOf(after, c, row) == CellOf(st, c, row))
  {
    ApplyInOrderPointwise(st, byColumn, fill, order);
  }

  /** The `ImportError` fallback of `hide_columns_permanently`: hidden then width 0, per column. */
  function FallbackHide(st: SheetState, columns: seq<string>, faults: set<Fault>): SheetState
  {
    if |columns| == 0 then st
    else
      var before := FallbackHide(st, columns[..|columns| - 1], faults);
      var column := columns[|columns| - 1];
      var run := RunSteps(DimOf(before, column), column, [SetHidden, SetWidth], faults);
      before.(dims := before.dims[column := run.dim])
  }

  /**
   * `hide_columns_permanently`: through the column hider when it can be loaded (an unknown
   * method value raises inside the guarded block and changes nothing), else the fallback.
   */
  function PermanentHide(st: SheetState, columns: seq<string>, methodValue: string, hiderAvailable: bool, faults: set<Fault>): SheetState
  {
    if !hiderAvailable then FallbackHide(st, columns, faults)
    else match MethodFromValue(methodValue)
      case None => st
      case Some(m) => HideAll(st, columns, m, false, faults).state
  }

  /** `_apply_column_decisions`: the decisions, then AA and AB forced hidden with ALL_METHODS. */
  function ColumnDecisionsApplied(st: SheetState, byColumn: map<string, FieldDecision>, order: seq<string>, fill: Fill,
                                  hiderAvailable: bool, faults: set<Fault>): SheetState
    requires forall c :: c in order ==> c in byColumn
  {
    PermanentHide(ApplyInOrder(st, byColumn, fill, order), PermanentlyHidden, "all_methods", hiderAvailable, faults)
  }

  /** Either way of forcing a column hidden leaves the columns not listed alone. */
  lemma {:induction false} FallbackHideFrame(st: SheetState, columns: seq<string>, faults: set<Fault>, other: string)
    requires forall i :: 0 <= i < |columns| ==> columns[i] != other
    ensures DimOf(FallbackHide(st, columns, faults), other) == DimOf(st, other)
    ensures FallbackHide(st, columns, faults).cells == st.cells
  {
    if |columns| > 0 {
      FallbackHideFrame(st, columns[..|columns| - 1], faults, other);
    }
  }

  /**
   * AA and AB end up hidden whatever their decisions said, as long as their `hidden`
   * attribute can be written; with the hider, width 0 and outline level 1 as well.
   */
  lemma ForcedColumnsHidden(st: SheetState, byColumn: map<string, FieldDecision>, order: seq<string>, fill: Fill,
                            hiderAvailable: bool, faults: set<Fault>)
    requires forall c :: c in order ==> c in byColumn
    requires forall c :: c in PermanentlyHidden ==> (c, SetHidden) !in faults && (c, SetWidth) !in faults && (c, SetOutline) !in faults
    ensures var after := ColumnDecisionsApplied(st, byColumn, order, fill, hiderAvailable, faults);
      && DimOf(after, "AA").hidden && DimOf(after, "AB").hidden
      && DimOf(after, "AA").width == 0 && DimOf(after, "AB").width == 0
      && (hiderAvailable ==> DimOf(after, "AA").outlineLevel == 1 && DimOf(after, "AB").outlineLevel == 1)
  {
    var mid := ApplyInOrder(st, byColumn, fill, order);
    assert "all_methods" == MethodValue(AllMethods);
    MethodValueRoundTrip(AllMethods);
    if hiderAvailable {
      assert ["AA", "AB"][..1] == ["AA"];
      assert ["AA"][..0] == [];
      var one := ApplyHide(mid, "AA", AllMethods, false, faults).state;
      assert HideAll(mid, ["AA"], AllMethods, false, faults).state == one;
      AllMethodsHides(DimOf(mid, "AA"), "AA", faults);
      assert DimOf(one, "AA") == HideDim(DimOf(mid, "AA"), "AA", AllMethods, faults).dim;
      var two := ApplyHide(one, "AB", AllMethods, false, faults).state;
      assert HideAll(mid, ["AA", "AB"], AllMethods, false, faults).state == two;
      AllMethodsHides(DimOf(one, "AB"), "AB", faults);
      assert DimOf(two, "AB") == HideDim(DimOf(one, "AB"), "AB", AllMethods, faults).dim;
      ApplyHideFrame(one, "AB", AllMethods, false, faults, "AA");
    } else {
      assert ["AA", "AB"][..1] == ["AA"];
      assert ["AA"][..0] == [];
      assert [SetHidden, SetWidth][1..][1..] == [];
      var one := FallbackHide(mid, ["AA"], faults);
      assert DimOf(one, "AA").hidden && DimOf(one, "AA").width == 0;
      FallbackHideFrame(one, ["AB"], faults, "AA");
      assert FallbackHide(mid, ["AA", "AB"], faults) == FallbackHide(one, ["AB"], faults);
    }
  }

  /** Columns other than AA and AB keep `hidden == not visible` from their decision. */
  lemma DecisionsSurviveForcedHide(st: SheetState, byColumn: map<string, FieldDecision>, order: seq<string>, fill: Fill,
                                   hiderAvailable: bool, faults: set<Fault>, c: string)
    requires forall c :: c in order <==> c in byColumn
    requires forall i, j :: 0 <= i < j < |order| ==> order[i] != order[j]
    requires c in byColumn && c != "AA" && c != "AB"
    ensures DimOf(ColumnDecisionsApplied(st, byColumn, order, fill, hiderAvailable, faults), c).hidden == !byColumn[c].visible
    ensures CellOf(ColumnDecisionsApplied(st, byColumn, order, fill, hiderAvailable, faults), c, 1) ==
              CellOf(ApplyInOrder(st, byColumn, fill, order), c, 1)
  {
    var mid := ApplyInOrder(st, byColumn, fill, order);
    DecisionsAppliedFacts(st, byColumn, fill, order);
    MethodValueRoundTrip(AllMethods);
    if hiderAvailable {
      HideAllFrame(mid, PermanentlyHidden, AllMethods, false, faults, c);
    } else {
      FallbackHideFrame(mid, PermanentlyHidden, faults, c);
    }
  }

  /** `process_template` fails before touching anything when the sheet is missing. */
  datatype TemplateError = SheetNotFound(sheetName: string)

  class ExcelProcessor {
    const mandatoryFill: Fill
    /** Kept for later use; nothing reads it. */
    const hiddenFill: Fill

    constructor(mandatoryColor: string, hiddenColor: string)
      ensures mandatoryFill == SolidFill(StripHashes(mandatoryColor))
      ensures hiddenFill == SolidFill(StripHashes(hiddenColor))
    {
      mandatoryFill := SolidFill(StripHashes(mandatoryColor));
      hiddenFill := SolidFill(StripHashes(hiddenColor));
    }

    /** `_apply_mandatory_styling`: the fill, and a bold font keeping the font's other attributes. */
    method ApplyMandatoryStyling(ws: Worksheet, column: string)
      modifies ws
      ensures ws.cells == old(ws.cells)[(column, 1) := CellOf(old(ws.State()), column, 1).(fill := mandatoryFill, bold := true)]
      ensures ws.dims == old(ws.dims) && ws.maxRow == old(ws.maxRow)
    {
      var header := CellOf(ws.State(), column, 1);
      ws.cells := ws.cells[(column, 1) := header.(fill := mandatoryFill, bold := true)];
    }

    /** `_add_header_comment`. */
    method AddHeaderComment(ws: Worksheet, column: string, noteText: string)
      modifies ws
      ensures ws.cells == old(ws.cells)[(column, 1) := CellOf(old(ws.State()), column, 1).(comment := Some(noteText))]
      ensures ws.dims == old(ws.dims) && ws.maxRow == old(ws.maxRow)
    {
      var header := CellOf(ws.State(), column, 1);
      ws.cells := ws.cells[(column, 1) := header.(comment := Some(noteText))];
    }

    /** The body of the loop in `_apply_column_decisions` for one column. */
    method ApplyDecisionTo(ws: Worksheet, column: string, d: FieldDecision)
      modifies ws
      ensures ws.State() == ApplyDecision(old(ws.State()), column, d, mandatoryFill)
    {
      ws.dims := ws.dims[column := DimOf(ws.State(), column).(hidden := !d.visible)];
      if !d.visible {
        return;
      }
      if d.mandatory {
        ApplyMandatoryStyling(ws, column);
      }
      if d.notes != "" {
        AddHeaderComment(ws, column, d.notes);
      }
    }

    /** `hide_columns_permanently`. */
    method HideColumnsPermanently(ws: Worksheet, columns: seq<string>, methodValue: string, hiderAvailable: bool, faults: set<Fault>)
      modifies ws
      ensures ws.State() == PermanentHide(old(ws.State()), columns, methodValue, hiderAvailable, faults)
    {
      if !hiderAvailable {
        ghost var initial := ws.State();
        for i := 0 to |columns|
          invariant ws.State() == FallbackHide(initial, columns[..i], faults)
        {
          assert columns[..i + 1][..i] == columns[..i];
          var column := columns[i];
          assert [SetHidden, SetWidth][1..][1..] == [];
          ws.dims := ws.dims[column := DimOf(ws.State(), column)];
          var hidden := SetAttribute(ws, column, SetHidden, faults);
          if hidden {
            var _ := SetAttribute(ws, column, SetWidth, faults);
          }
        }
        assert columns[..|columns|] == columns;
        return;
      }
      var m := MethodFromValue(methodValue);
      if m.Some? {
        var _ := HideColumns(ws, columns, m.value, false, faults);
      }
    }

    /** `_apply_column_decisions`, over the dict as keys in insertion order and the stored decisions. */
    method ApplyColumnDecisions(ws: Worksheet, byColumn: map<string, FieldDecision>, order: seq<string>,
                                hiderAvailable: bool, faults: set<Fault>)
      requires forall c :: c in order ==> c in byColumn
      modifies ws
      ensures ws.State() == ColumnDecisionsApplied(old(ws.State()), byColumn, order, mandatoryFill, hiderAvailable, faults)
    {
      ghost var initial := ws.State();
      for i := 0 to |order|
        invariant ws.State() == ApplyInOrder(initial, byColumn, mandatoryFill, order[..i])
      {
        assert order[..i + 1][..i] == order[..i];
        ApplyDecisionTo(ws, order[i], byColumn[order[i]]);
      }
      assert order[..|order|] == order;
      HideColumnsPermanently(ws, PermanentlyHidden, "all_methods", hiderAvailable, faults);
    }

    /**
     * `process_template` up to the stamp and the save: the named sheet must exist; the
     * decisions are indexed by column and applied to it.
     */
    method ProcessTemplate(workbook: map<string, Worksheet>, sheetName: string, decisions: seq<FieldDecision>,
                           hiderAvailable: bool, faults: set<Fault>)
      returns (r: Result<(), TemplateError>)
      modifies if sheetName in workbook then {workbook[sheetName]} else {}
      ensures sheetName !in workbook <==> r == Err(SheetNotFound(sheetName))
      ensures sheetName in workbook ==>
                (ColumnOrderKeys(decisions);
                 workbook[sheetName].State() ==
                   ColumnDecisionsApplied(old(workbook[sheetName].State()), DecisionsByColumn(decisions), ColumnOrder(decisions),
                                          mandatoryFill, hiderAvailable, faults))
    {
      if sheetName !in workbook {
        return Err(SheetNotFound(sheetName));
      }
      var ws := workbook[sheetName];
      ColumnOrderKeys(decisions);
      ApplyColumnDecisions(ws, DecisionsByColumn(decisions), ColumnOrder(decisions), hiderAvailable, faults);
      return Ok(());
    }
  }

  /** The default mandatory colour is stored without its '#'. */
  lemma DefaultFills()
    ensures StripHashes(DefaultMandatoryColor) == "FFF2CC"
    ensures StripHashes(DefaultHiddenColor) == "EEEEEE"
  {
    assert DefaultMandatoryColor[1..] == "FFF2CC";
    assert DefaultHiddenColor[1..] == "EEEEEE";
  }
}
