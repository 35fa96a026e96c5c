/**
 * The decision resolver (`TemplateEngine`): for every catalog field, in catalog order,
 * whether its column is visible, whether it is mandatory (only when visible), whether its
 * row-data dependencies hold, and the note texts that explain the decision.
 */
module Engine {
  import opened Wrappers
  import opened Values
  import opened Mapping
  import opened ContextModel
  import opened Sequences
  import Text

  /** `label in context_labels`: only a string can equal one of the context labels. */
  predicate LabelIn(item: Value, labels: set<string>)
  {
    item.Str? && item.s in labels
  }

  /** `any(label in context_labels for label in items)`. */
  predicate AnyIn(items: seq<Value>, labels: set<string>)
  {
    exists k :: 0 <= k < |items| && LabelIn(items[k], labels)
  }

  /** `_is_visible`: `visible_only` decides alone, then `visible_except`, then the literal. */
  function IsVisible(cfg: FieldConfig, labels: set<string>): bool
  {
    if cfg.visibleOnly.Some? then AnyIn(ItemsOf(cfg.visibleOnly.value), labels)
    else if cfg.visibleExcept.Some? then !AnyIn(ItemsOf(cfg.visibleExcept.value), labels)
    else cfg.visible.None? || cfg.visible.value == Str("always")
  }

  /** `_is_mandatory`: the same precedence, with "never" as the default literal. */
  function IsMandatory(cfg: FieldConfig, labels: set<string>): bool
  {
    if cfg.mandatoryOnly.Some? then AnyIn(ItemsOf(cfg.mandatoryOnly.value), labels)
    else if cfg.mandatoryExcept.Some? then !AnyIn(ItemsOf(cfg.mandatoryExcept.value), labels)
    else cfg.mandatory.Some? && cfg.mandatory.value == Str("always")
  }

  /** A present `visible_only` decides alone: `visible_except` and `visible` are not consulted. */
  lemma VisibleOnlyDecidesAlone(cfg: FieldConfig, other: FieldConfig, labels: set<string>)
    requires cfg.visibleOnly.Some? && other.visibleOnly == cfg.visibleOnly
    ensures IsVisible(cfg, labels) == IsVisible(other, labels)
  {
  }

  /** An empty `visible_only` list hides the field in every context. */
  lemma EmptyVisibleOnlyHides(cfg: FieldConfig, labels: set<string>)
    requires cfg.visibleOnly == Some(List([]))
    ensures !IsVisible(cfg, labels)
  {
  }

  /**
   * More labels can only show a `visible_only` field and only hide a `visible_except`
   * field; the same holds for the mandatory lists.
   */
  lemma LabelMonotonicity(cfg: FieldConfig, fewer: set<string>, more: set<string>)
    requires fewer <= more
    ensures cfg.visibleOnly.Some? && IsVisible(cfg, fewer) ==> IsVisible(cfg, more)
    ensures cfg.visibleOnly.None? && cfg.visibleExcept.Some? && IsVisible(cfg, more) ==> IsVisible(cfg, fewer)
    ensures cfg.mandatoryOnly.Some? && IsMandatory(cfg, fewer) ==> IsMandatory(cfg, more)
    ensures cfg.mandatoryOnly.None? && cfg.mandatoryExcept.Some? && IsMandatory(cfg, more) ==> IsMandatory(cfg, fewer)
  {
  }

  /** The row value a condition reads: `row_data.get(condition.get("field"))`. */
  function RowValue(cond: map<string, Value>, row: map<string, Value>): Value
  {
    var field := Get(cond, "field", Null);
    if field.Str? && field.s in row then row[field.s] else Null
  }

  /**
   * `_evaluate_condition`: a condition without a (truthy) field fails; otherwise every
   * check present must pass.
   */
  function EvaluateCondition(cond: map<string, Value>, row: map<string, Value>): (ok: bool)
    ensures ok <==>
      && Truthy(Get(cond, "field", Null))
      && !(Truthy(Get(cond, "not_empty", Bool(false))) && (RowValue(cond, row) == Null || IsBlank(RowValue(cond, row))))
      && ("equals" in cond ==> PyEq(RowValue(cond, row), cond["equals"]))
      && ("is_true" in cond ==> Truthy(RowValue(cond, row)))
      && ("in" in cond ==> PyIn(RowValue(cond, row), cond["in"]))
  {
    var field := Get(cond, "field", Null);
    if !Truthy(field) then false
    else
      var value := RowValue(cond, row);
      if Truthy(Get(cond, "not_empty", Bool(false))) && (value == Null || IsBlank(value)) then false
      else if "equals" in cond && !PyEq(value, cond["equals"]) then false
      else if "is_true" in cond && !Truthy(value) then false
      else if "in" in cond && !PyIn(value, cond["in"]) then false
      else true
  }

  /**
   * Dropping any check other than `field` from a condition that holds keeps it holding:
   * the checks only ever make a condition fail.
   */
  lemma ConditionWeakening(cond: map<string, Value>, row: map<string, Value>, key: string)
    requires key != "field"
    requires EvaluateCondition(cond, row)
    ensures EvaluateCondition(cond - {key}, row)
  {
    assert Get(cond - {key}, "field", Null) == Get(cond, "field", Null);
    assert RowValue(cond - {key}, row) == RowValue(cond, row);
  }

  /** A condition reads only the row value of the field it names. */
  lemma ConditionLocality(cond: map<string, Value>, row1: map<string, Value>, row2: map<string, Value>)
    requires var f := Get(cond, "field", Null);
      f.Str? ==> (f.s in row1 <==> f.s in row2) && (f.s in row1 ==> row1[f.s] == row2[f.s])
    ensures EvaluateCondition(cond, row1) == EvaluateCondition(cond, row2)
  {
    assert RowValue(cond, row1) == RowValue(cond, row2);
  }

  /** An `in` check against a list holds exactly when the row value equals one of its items. */
  lemma InListMembership(field: string, items: seq<Value>, row: map<string, Value>)
    requires field != ""
    ensures EvaluateCondition(map["field" := Str(field), "in" := List(items)], row)
            <==> exists k :: 0 <= k < |items| && PyEq(items[k], Get(row, field, Null))
  {
    var cond := map["field" := Str(field), "in" := List(items)];
    assert "equals" !in cond && "is_true" !in cond && "not_empty" !in cond;
    assert RowValue(cond, row) == Get(row, field, Null);
  }

  /** A `depends_on` item holds when it is a condition dictionary that evaluates to true. */
  predicate ConditionHolds(dep: Value, row: map<string, Value>)
  {
    dep.Object? && EvaluateCondition(dep.entries, row)
  }

  /** All conditions hold; a missing or empty `depends_on` is satisfied. */
  predicate DepsHold(cfg: FieldConfig, row: map<string, Value>)
  {
    forall k :: 0 <= k < |DependsOnItems(cfg)| ==> ConditionHolds(DependsOnItems(cfg)[k], row)
  }

  /** `field_config.get("depends_on")` is truthy. */
  predicate HasDependencies(cfg: FieldConfig)
  {
    cfg.dependsOn.Some? && Truthy(cfg.dependsOn.value)
  }

  /** The `not_empty` check fails on the empty row and on a whitespace-only value. */
  lemma NotEmptyRejectsBlank(field: string, row: map<string, Value>)
    requires field != ""
    requires field !in row || IsBlank(row[field])
    ensures !EvaluateCondition(map["field" := Str(field), "not_empty" := Bool(true)], row)
  {
  }

  /** `is_true` tests the row value, whatever the flag itself says. */
  lemma IsTrueIgnoresFlag(field: string, flag: Value, row: map<string, Value>)
    requires field != ""
    ensures EvaluateCondition(map["field" := Str(field), "is_true" := flag], row)
            <==> field in row && Truthy(row[field])
  {
  }

  /** The text tags `_generate_notes` appends. */
  const Hidden: string := "VERBORGEN in huidige context"
  const Required: string := "VERPLICHT in huidige context"
  const Unmet: string := "Dependency NIET voldaan"

  /** The tags of `_generate_notes`, in the order they are appended. */
  function NoteTags(cfg: FieldConfig, visible: bool, mandatory: bool, satisfied: bool): (tags: seq<string>)
    ensures Hidden in tags <==> !visible
    ensures Required in tags <==> visible && mandatory
    ensures !(Hidden in tags && Required in tags)
    ensures Unmet in tags <==> HasDependencies(cfg) && !satisfied
    ensures |tags| <= 2
  {
    (if !visible then [Hidden] else if mandatory then [Required] else [])
    + (if HasDependencies(cfg) && !satisfied then [Unmet] else [])
  }

  /** `field_config.get("notes", "")`. */
  function BaseNotes(cfg: FieldConfig): string
  {
    if cfg.notes.Some? && cfg.notes.value.Str? then cfg.notes.value.s else ""
  }

  /**
   * `_generate_notes`: the base notes, unchanged when there is no tag; otherwise the
   * base notes, a " | " separator when they are non-empty, and the tags joined by " | ".
   */
  function Notes(cfg: FieldConfig, visible: bool, mandatory: bool, satisfied: bool): (notes: string)
    ensures NoteTags(cfg, visible, mandatory, satisfied) == [] ==> notes == BaseNotes(cfg)
    ensures NoteTags(cfg, visible, mandatory, satisfied) != [] ==>
              var joined := Text.Join(NoteTags(cfg, visible, mandatory, satisfied), " | ");
              && |notes| == |BaseNotes(cfg)| + (if BaseNotes(cfg) == "" then 0 else 3) + |joined|
              && BaseNotes(cfg) <= notes
              && notes[|notes| - |joined|..] == joined
    ensures var tags := NoteTags(cfg, visible, mandatory, satisfied);
      tags != [] ==> notes == (if BaseNotes(cfg) == "" then "" else BaseNotes(cfg) + " | ") + Text.Join(tags, " | ")
  {
    var base := BaseNotes(cfg);
    var tags := NoteTags(cfg, visible, mandatory, satisfied);
    if tags != [] then
      var sep := if base != "" then " | " else "";
      var joined := Text.Join(tags, " | ");
      assert (base + sep + joined)[|base + sep|..] == joined;
      base + sep + joined
    else base
  }

  /** The parts of `_generate_machine_notes`; rendering them as text is not modelled. */
  datatype TracePart =
    | VisibleOnlyPart(listed: seq<Value>, matched: seq<Value>)
    | VisibleExceptPart(listed: seq<Value>, forbidden: seq<Value>)
    | VisibleLiteral(literal: Value)
    | MandatoryOnlyPart(listed: seq<Value>, matched: seq<Value>)
    | MandatoryExceptPart(listed: seq<Value>, forbidden: seq<Value>)
    | MandatoryLiteral(literal: Value)
    | DepsPart(conditions: seq<Value>, satisfied: bool)

  /** `[label for label in items if label in context_labels]`. */
  function Matching(items: seq<Value>, labels: set<string>): (m: seq<Value>)
    ensures |m| <= |items|
    ensures forall x :: x in m ==> x in items && LabelIn(x, labels)
    ensures forall k :: 0 <= k < |items| && LabelIn(items[k], labels) ==> items[k] in m
  {
    if |items| == 0 then []
    else
      var rest := Matching(items[..|items| - 1], labels);
      var last := items[|items| - 1];
      assert forall k :: 0 <= k < |items| - 1 ==> items[..|items| - 1][k] == items[k];
      rest + (if LabelIn(last, labels) then [last] else [])
  }

  /** Matching keeps the order and the repetitions of the list: it splits over concatenation. */
  lemma {:induction false} MatchingAppend(xs: seq<Value>, ys: seq<Value>, labels: set<string>)
    ensures Matching(xs + ys, labels) == Matching(xs, labels) + Matching(ys, labels)
  {
    if |ys| > 0 {
      var init := ys[..|ys| - 1];
      assert (xs + ys)[..|xs + ys| - 1] == xs + init;
      MatchingAppend(xs, init, labels);
    } else {
      assert xs + ys == xs;
    }
  }

  /** Matching is the generic order-keeping filter with the label test. */
  lemma {:induction false} MatchingIsFilter(items: seq<Value>, labels: set<string>)
    ensures Matching(items, labels) == Filter((x: Value) => LabelIn(x, labels), items)
  {
    if |items| > 0 {
      MatchingIsFilter(items[..|items| - 1], labels);
    }
  }

  function VisibilityPart(cfg: FieldConfig, labels: set<string>): TracePart
  {
    if cfg.visibleOnly.Some? then
      VisibleOnlyPart(ItemsOf(cfg.visibleOnly.value), Matching(ItemsOf(cfg.visibleOnly.value), labels))
    else if cfg.visibleExcept.Some? then
      VisibleExceptPart(ItemsOf(cfg.visibleExcept.value), Matching(ItemsOf(cfg.visibleExcept.value), labels))
    else VisibleLiteral(if cfg.visible.Some? then cfg.visible.value else Str("always"))
  }

  function MandatoryPart(cfg: FieldConfig, labels: set<string>): TracePart
  {
    if cfg.mandatoryOnly.Some? then
      MandatoryOnlyPart(ItemsOf(cfg.mandatoryOnly.value), Matching(ItemsOf(cfg.mandatoryOnly.value), labels))
    else if cfg.mandatoryExcept.Some? then
      MandatoryExceptPart(ItemsOf(cfg.mandatoryExcept.value), Matching(ItemsOf(cfg.mandatoryExcept.value), labels))
    else MandatoryLiteral(if cfg.mandatory.Some? then cfg.mandatory.value else Str("never"))
  }

  predicate IsMandatoryPart(p: TracePart)
  {
    p.MandatoryOnlyPart? || p.MandatoryExceptPart? || p.MandatoryLiteral?
  }

  /** `_generate_machine_notes`: the visibility part, then (when visible) the mandatory part, then the dependencies. */
  function MachineNotes(cfg: FieldConfig, labels: set<string>, visible: bool, satisfied: bool): (parts: seq<TracePart>)
    ensures 1 <= |parts| <= 3
    ensures (exists k :: 0 <= k < |parts| && IsMandatoryPart(parts[k])) <==> visible
    ensures (exists k :: 0 <= k < |parts| && parts[k].DepsPart?) <==> HasDependencies(cfg)
  {
    var parts := [VisibilityPart(cfg, labels)]
      + (if visible then [MandatoryPart(cfg, labels)] else [])
      + (if HasDependencies(cfg) then [DepsPart(DependsOnItems(cfg), satisfied)] else []);
    assert !IsMandatoryPart(parts[0]) && !parts[0].DepsPart?;
    assert visible ==> IsMandatoryPart(parts[1]) && !parts[1].DepsPart?;
    assert HasDependencies(cfg) ==> parts[|parts| - 1].DepsPart? && !IsMandatoryPart(parts[|parts| - 1]);
    parts
  }

  /**
   * The trace agrees with the decision: under `visible_only` the matched labels are
   * non-empty exactly when the field is visible; under `visible_except` the forbidden
   * labels are empty exactly when it is.
   */
  lemma MachineNotesExplainVisibility(cfg: FieldConfig, labels: set<string>)
    ensures var p := VisibilityPart(cfg, labels);
      && (p.VisibleOnlyPart? ==> (p.matched != [] <==> IsVisible(cfg, labels)))
      && (p.VisibleExceptPart? ==> (p.forbidden == [] <==> IsVisible(cfg, labels)))
  {
    var p := VisibilityPart(cfg, labels);
    if p.VisibleOnlyPart? && p.matched != [] {
      assert p.matched[0] in p.matched;
    }
    if p.VisibleExceptPart? && p.forbidden != [] {
      assert p.forbidden[0] in p.forbidden;
    }
  }

  /** One `FieldDecision`; the machine notes are kept as parts. */
  datatype FieldDecision = FieldDecision(
    fieldName: string,
    column: string,
    visible: bool,
    mandatory: bool,
    dependencySatisfied: bool,
    notes: string,
    machineNotes: seq<TracePart>)

  /** The column letter of a configuration (every catalog configuration has one). */
  function ColumnText(cfg: FieldConfig): string
  {
    if cfg.col.Some? && cfg.col.value.Str? then cfg.col.value.s else ""
  }

  /** `_process_field`: mandatory is only evaluated for a visible field. */
  function Decide(name: string, cfg: FieldConfig, labels: set<string>, row: map<string, Value>): (d: FieldDecision)
    ensures d.fieldName == name && d.column == ColumnText(cfg)
    ensures d.mandatory ==> d.visible
    ensures d.visible <==> IsVisible(cfg, labels)
    ensures d.mandatory <==> IsVisible(cfg, labels) && IsMandatory(cfg, labels)
    ensures d.dependencySatisfied <==> DepsHold(cfg, row)
  {
    var visible := IsVisible(cfg, labels);
    var satisfied := DepsHold(cfg, row);
    var mandatory := visible && IsMandatory(cfg, labels);
    FieldDecision(name, ColumnText(cfg), visible, mandatory, satisfied,
                  Notes(cfg, visible, mandatory, satisfied),
                  MachineNotes(cfg, labels, visible, satisfied))
  }

  /** Row data never changes visibility or mandatoriness, only the dependency outcome. */
  lemma DecisionIgnoresRow(name: string, cfg: FieldConfig, labels: set<string>, row1: map<string, Value>, row2: map<string, Value>)
    ensures Decide(name, cfg, labels, row1).visible == Decide(name, cfg, labels, row2).visible
    ensures Decide(name, cfg, labels, row1).mandatory == Decide(name, cfg, labels, row2).mandatory
  {
  }

  /** The decision for one catalog entry in a given context and row. */
  function DecideEntry(labels: set<string>, row: map<string, Value>): Entry -> FieldDecision
  {
    (e: Entry) => Decide(e.name, e.config, labels, row)
  }

  /** The decisions for a catalog, one per entry, in catalog order. */
  function DecideAll(es: seq<Entry>, labels: set<string>, row: map<string, Value>): seq<FieldDecision>
  {
    MapSeq(DecideEntry(labels, row), es)
  }

  /** Exactly one decision per catalog entry, made for that entry, in catalog order. */
  lemma DecideAllIndex(es: seq<Entry>, labels: set<string>, row: map<string, Value>)
    ensures |DecideAll(es, labels, row)| == |es|
    ensures forall i :: 0 <= i < |es| ==> DecideAll(es, labels, row)[i] == Decide(es[i].name, es[i].config, labels, row)
  {
    MapSeqIndex(DecideEntry(labels, row), es);
  }

  /** `row_data or {}`. */
  function RowOrEmpty(row: Option<map<string, Value>>): map<string, Value>
  {
    if row.Some? then row.value else map[]
  }

  /** The columns of a list of decisions. */
  function ColumnsOf(ds: seq<FieldDecision>): set<string>
  {
    set i | 0 <= i < |ds| :: ds[i].column
  }

  /** `get_decisions_by_column`: one entry per column; a later decision for the same column wins. */
  function DecisionsByColumn(ds: seq<FieldDecision>): map<string, FieldDecision>
  {
    if |ds| == 0 then map[]
    else DecisionsByColumn(ds[..|ds| - 1])[ds[|ds| - 1].column := ds[|ds| - 1]]
  }

  /** The by-column view has exactly the columns of the decisions. */
  lemma {:induction false} DecisionsByColumnKeys(ds: seq<FieldDecision>)
    ensures DecisionsByColumn(ds).Keys == ColumnsOf(ds)
  {
    if |ds| > 0 {
      var init := ds[..|ds| - 1];
      var last := ds[|ds| - 1];
      DecisionsByColumnKeys(init);
      forall c | c in ColumnsOf(ds) ensures c in ColumnsOf(init) + {last.column} {
        var i :| 0 <= i < |ds| && ds[i].column == c;
        if i < |init| { assert init[i].column == c; }
      }
      forall c | c in ColumnsOf(init) ensures c in ColumnsOf(ds) {
        var i :| 0 <= i < |init| && init[i].column == c;
        assert ds[i].column == c;
      }
      assert ds[|ds| - 1].column == last.column;
    }
  }

  /** Each column of the by-column view maps to the last decision made for it. */
  lemma {:induction false} DecisionsByColumnLastWins(ds: seq<FieldDecision>)
    ensures forall c :: c in DecisionsByColumn(ds) ==>
              exists i :: 0 <= i < |ds| && ds[i] == DecisionsByColumn(ds)[c] && ds[i].column == c
                          && forall j :: i < j < |ds| ==> ds[j].column != c
  {
    if |ds| > 0 {
      var init := ds[..|ds| - 1];
      var last := ds[|ds| - 1];
      var m := DecisionsByColumn(ds);
      DecisionsByColumnLastWins(init);
      forall c | c in m
        ensures exists i :: 0 <= i < |ds| && ds[i] == m[c] && ds[i].column == c
                            && forall j :: i < j < |ds| ==> ds[j].column != c
      {
        if c == last.column {
          assert ds[|ds| - 1] == m[c];
        } else {
          var i :| 0 <= i < |init| && init[i] == DecisionsByColumn(init)[c] && init[i].column == c
                   && forall j :: i < j < |init| ==> init[j].column != c;
          assert ds[i] == init[i] == m[c];
          assert forall j :: i < j < |ds| ==> ds[j].column != c by {
            assert forall j :: i < j < |init| ==> init[j] == ds[j];
          }
        }
      }
    }
  }

  /** `get_visible_columns`. */
  function VisibleColumns(ds: seq<FieldDecision>): set<string>
  {
    set i | 0 <= i < |ds| && ds[i].visible :: ds[i].column
  }

  /** `get_mandatory_columns`. */
  function MandatoryColumns(ds: seq<FieldDecision>): set<string>
  {
    set i | 0 <= i < |ds| && ds[i].visible && ds[i].mandatory :: ds[i].column
  }

  /**
   * For the engine's own decisions a column is mandatory exactly when some field on it is
   * visible and mandatory by its rules, so the mandatory columns lie within the visible ones.
   */
  lemma MandatoryColumnsOfDecisions(es: seq<Entry>, labels: set<string>, row: map<string, Value>)
    requires forall i :: 0 <= i < |es| ==> ValidConfig(es[i].config)
    ensures var ds := DecideAll(es, labels, row);
      && MandatoryColumns(ds) <= VisibleColumns(ds)
      && forall c :: c in MandatoryColumns(ds) <==>
           exists i :: 0 <= i < |es| && es[i].config.col == Some(Str(c))
                       && IsVisible(es[i].config, labels) && IsMandatory(es[i].config, labels)
  {
    var ds := DecideAll(es, labels, row);
    DecideAllIndex(es, labels, row);
    forall c ensures c in MandatoryColumns(ds) <==>
           exists i :: 0 <= i < |es| && es[i].config.col == Some(Str(c))
                       && IsVisible(es[i].config, labels) && IsMandatory(es[i].config, labels)
    {
      if c in MandatoryColumns(ds) {
        var i :| 0 <= i < |ds| && ds[i].visible && ds[i].mandatory && ds[i].column == c;
        assert es[i].config.col == Some(Str(c));
      }
      if exists i :: 0 <= i < |es| && es[i].config.col == Some(Str(c))
                     && IsVisible(es[i].config, labels) && IsMandatory(es[i].config, labels) {
        var i :| 0 <= i < |es| && es[i].config.col == Some(Str(c))
                 && IsVisible(es[i].config, labels) && IsMandatory(es[i].config, labels);
        assert ds[i].column == c && ds[i].visible && ds[i].mandatory;
      }
    }
  }

  /**
   * Two fields on one column: the column counts as visible when either field is, while the
   * by-column view keeps only the later decision.
   */
  lemma SharedColumnLastWins(first: Entry, second: Entry, labels: set<string>, row: map<string, Value>)
    requires first.config.col == second.config.col
    ensures var ds := DecideAll([first, second], labels, row);
      var c := ColumnText(first.config);
      && DecisionsByColumn(ds) == map[c := Decide(second.name, second.config, labels, row)]
      && (c in VisibleColumns(ds) <==> IsVisible(first.config, labels) || IsVisible(second.config, labels))
  {
    var es := [first, second];
    DecideAllIndex(es, labels, row);
    var ds := DecideAll(es, labels, row);
    var d0, d1 := Decide(first.name, first.config, labels, row), Decide(second.name, second.config, labels, row);
    assert ds == [d0, d1];
    LaterDecisionWins(d0, d1);
    if d1.visible {
      assert ds[1].visible;
    }
  }

  /** Of two decisions for one column, the by-column view keeps the second; the column is visible iff one of them is. */
  lemma LaterDecisionWins(d0: FieldDecision, d1: FieldDecision)
    requires d0.column == d1.column
    ensures DecisionsByColumn([d0, d1]) == map[d1.column := d1]
    ensures d1.column in VisibleColumns([d0, d1]) <==> d0.visible || d1.visible
  {
    var ds := [d0, d1];
    assert ds[..1] == [d0];
    assert [d0][..0] == [];
    assert DecisionsByColumn([d0]) == map[d0.column := d0];
    assert DecisionsByColumn(ds) == map[d0.column := d0][d1.column := d1];
    assert map[d0.column := d0][d1.column := d1] == map[d1.column := d1];
    if d1.column in VisibleColumns(ds) {
      var i :| 0 <= i < |ds| && ds[i].visible && ds[i].column == d1.column;
      assert ds[i] == d0 || ds[i] == d1;
    }
    if d0.visible {
      assert ds[0].visible;
    }
    if d1.visible {
      assert ds[1].visible;
    }
  }

  class TemplateEngine {
    const context: Context
    const fieldMapping: FieldMapping
    const contextLabels: set<string>

    constructor(context: Context, fieldMapping: FieldMapping)
      ensures this.context == context && this.fieldMapping == fieldMapping
      ensures contextLabels == Labels(context)
    {
      this.context := context;
      this.fieldMapping := fieldMapping;
      contextLabels := Labels(context);
    }

    /** `_deps_satisfied`: stops at the first failing condition. */
    static method DepsSatisfied(cfg: FieldConfig, row: map<string, Value>) returns (satisfied: bool)
      ensures satisfied <==> DepsHold(cfg, row)
    {
      var conditions := if cfg.dependsOn.Some? then cfg.dependsOn.value else List([]);
      if !Truthy(conditions) {
        return true;
      }
      var items := ItemsOf(conditions);
      assert items == DependsOnItems(cfg);
      for k := 0 to |items|
        invariant forall j :: 0 <= j < k ==> ConditionHolds(items[j], row)
      {
        var dep := items[k];
        if !dep.Object? || !EvaluateCondition(dep.entries, row) {
          assert !ConditionHolds(items[k], row);
          return false;
        }
      }
      return true;
    }

    /** `_process_field` for one catalog entry. */
    static method ProcessField(name: string, cfg: FieldConfig, labels: set<string>, row: map<string, Value>)
      returns (decision: FieldDecision)
      requires ValidConfig(cfg)
      ensures decision == Decide(name, cfg, labels, row)
    {
      var column := cfg.col.value.s;
      var visible := IsVisible(cfg, labels);
      var satisfied := DepsSatisfied(cfg, row);
      var mandatory := false;
      if visible {
        mandatory := IsMandatory(cfg, labels);
      }
      var notes := Notes(cfg, visible, mandatory, satisfied);
      var machineNotes := MachineNotes(cfg, labels, visible, satisfied);
      decision := FieldDecision(name, column, visible, mandatory, satisfied, notes, machineNotes);
    }

    /** `process_all_fields`: one decision per catalog entry, in catalog order. */
    method ProcessAllFields(rowData: Option<map<string, Value>>) returns (decisions: seq<FieldDecision>)
      requires fieldMapping.Valid()
      ensures decisions == DecideAll(fieldMapping.fields, contextLabels, RowOrEmpty(rowData))
    {
      decisions := DecideEach(fieldMapping.fields, contextLabels, RowOrEmpty(rowData));
    }

    /** The loop of `process_all_fields`, appending one decision per entry. */
    static method DecideEach(fields: seq<Entry>, labels: set<string>, row: map<string, Value>)
      returns (decisions: seq<FieldDecision>)
      requires forall i :: 0 <= i < |fields| ==> ValidConfig(fields[i].config)
      ensures decisions == DecideAll(fields, labels, row)
    {
      decisions := [];
      for i := 0 to |fields|
        invariant decisions == DecideAll(fields[..i], labels, row)
      {
        var decision := ProcessField(fields[i].name, fields[i].config, labels, row);
        assert fields[..i + 1][..i] == fields[..i];
        decisions := decisions + [decision];
      }
      assert fields[..|fields|] == fields;
    }
  }

  /** The staffel field of the engine tests: visible and mandatory in a staffel context. */
  lemma StaffelFieldIsMandatory()
    ensures var cfg := ColumnOnly("AA").(visibleOnly := Some(List([Str("staffel")])),
                                         mandatoryOnly := Some(List([Str("staffel")])));
      var ctx := Context("custom", "none", true, "medisch", false, true, [], "v1.0.0");
      && ValidConfig(cfg)
      && Decide("Staffel Vanaf", cfg, Labels(ctx), map[]).visible
      && Decide("Staffel Vanaf", cfg, Labels(ctx), map[]).mandatory
  {
    var cfg := ColumnOnly("AA").(visibleOnly := Some(List([Str("staffel")])),
                                 mandatoryOnly := Some(List([Str("staffel")])));
    assert LabelIn(ItemsOf(cfg.visibleOnly.value)[0], Labels(Context("custom", "none", true, "medisch", false, true, [], "v1.0.0")));
  }

  /** The GS1 language-code field of the engine tests and its `not_empty` dependency. */
  function TaalCodeConfig(): FieldConfig
  {
    ColumnOnly("E").(visibleOnly := Some(List([Str("gs1")])),
                     dependsOn := Some(List([Object(map["field" := Str("Artikelomschrijving"), "not_empty" := Bool(true)])])),
                     notes := Some(Str("GS1 afhankelijk veld.")))
  }

  /** The GS1 context of the dependency test. */
  const Gs1Context: Context := Context("custom", "gs1", true, "medisch", false, false, [], "v1.0.0")

  /** In a GS1 context the language-code field is visible. */
  lemma TaalCodeVisible()
    ensures ValidConfig(TaalCodeConfig())
    ensures Decide("Artikelomschrijving Taal Code", TaalCodeConfig(), Labels(Gs1Context), map[]).visible
  {
    assert LabelIn(ItemsOf(TaalCodeConfig().visibleOnly.value)[0], Labels(Gs1Context));
  }

  /** Its dependency fails on an empty row. */
  lemma TaalCodeEmptyRow()
    ensures !DepsHold(TaalCodeConfig(), map[])
  {
    assert !ConditionHolds(DependsOnItems(TaalCodeConfig())[0], map[]);
  }

  /** A visible, optional field with an unmet dependency: the tag follows the base notes. */
  lemma TaalCodeNotes()
    ensures Notes(TaalCodeConfig(), true, false, false) == "GS1 afhankelijk veld." + " | " + Unmet
  {
    var cfg := TaalCodeConfig();
    assert BaseNotes(cfg) == "GS1 afhankelijk veld.";
    assert NoteTags(cfg, true, false, false) == [Unmet];
    assert Text.Join([Unmet], " | ") == Unmet;
  }

  /** The dependency holds once "Artikelomschrijving" has text. */
  lemma TaalCodeFilledRow()
    ensures DepsHold(TaalCodeConfig(), map["Artikelomschrijving" := Str("Test artikel")])
  {
    var cfg := TaalCodeConfig();
    var filled := map["Artikelomschrijving" := Str("Test artikel")];
    assert !IsBlank(Str("Test artikel")) by { assert !IsSpace("Test artikel"[0]); }
    assert ConditionHolds(DependsOnItems(cfg)[0], filled);
  }

  /** The chemicals field stays hidden in a context without chemicals. */
  lemma ChemicalsFieldHidden()
    ensures var cfg := ColumnOnly("BC").(visibleOnly := Some(List([Str("chemicals")])));
      var ctx := Context("custom", "gs1", true, "medisch", false, false, ["UMCU"], "v1.0.0");
      && ValidConfig(cfg)
      && !Decide("CAS nummer", cfg, Labels(ctx), map[]).visible
  {
    var ctx := Context("custom", "gs1", true, "medisch", false, false, ["UMCU"], "v1.0.0");
    LabelsExactlyWhen(ctx);
  }

  /** The same field is shown in a lab context with chemicals. */
  lemma ChemicalsFieldVisible()
    ensures var cfg := ColumnOnly("BC").(visibleOnly := Some(List([Str("chemicals")])));
      var ctx := Context("custom", "none", true, "lab", true, false, [], "v1.0.0");
      && ValidConfig(cfg)
      && Decide("CAS nummer", cfg, Labels(ctx), map[]).visible
  {
    var ctx := Context("custom", "none", true, "lab", true, false, [], "v1.0.0");
    LabelsExactlyWhen(ctx);
  }
}
