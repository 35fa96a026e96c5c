/**
 * The field catalog (`FieldMapping`): every field name maps to a raw configuration whose
 * keys the loader checks. Construction validates every field, collects every error and
 * fails once; a string `mandatory_only` / `mandatory_except` is rewritten in place to a
 * one-element list. Column letters are NOT required to be unique.
 */
module Mapping {
  import opened Wrappers
  import opened Values
  import opened Sequences

  /** The ten keys the loader and the engine read; any other key is ignored by both. */
  datatype FieldConfig = FieldConfig(
    col: Option<Value>,
    visible: Option<Value>,
    visibleOnly: Option<Value>,
    visibleExcept: Option<Value>,
    mandatory: Option<Value>,
    mandatoryOnly: Option<Value>,
    mandatoryExcept: Option<Value>,
    dependsOn: Option<Value>,
    dependsTriggerFor: Option<Value>,
    notes: Option<Value>)

  /** One `field name -> configuration` item of the catalog, in insertion order. */
  datatype Entry = Entry(name: string, config: FieldConfig)

  /** Catalog keys are dictionary keys, hence distinct. */
  predicate DistinctNames(es: seq<Entry>)
  {
    forall i, j :: 0 <= i < j < |es| ==> es[i].name != es[j].name
  }

  function Names(es: seq<Entry>): set<string>
  {
    set i | 0 <= i < |es| :: es[i].name
  }

  datatype FieldError =
    | MissingCol(field: string)
    | ColNotNonEmptyString(field: string)
    | InvalidVisible(field: string)
    | VisibleOnlyNotList(field: string)
    | VisibleExceptNotList(field: string)
    | InvalidMandatory(field: string)
    | MandatoryOnlyNotListOrString(field: string)
    | MandatoryExceptNotListOrString(field: string)
    | DependsOnNotList(field: string)
    | DependencyNotDict(field: string, index: nat)
    | DependencyWithoutField(field: string, index: nat)
    | TriggerForNotList(field: string)
    | NotesNotString(field: string)

  /** `"always"` or `"never"`. */
  predicate IsLiteral(v: Value)
  {
    v == Str("always") || v == Str("never")
  }

  predicate IsListOpt(v: Option<Value>)
  {
    v.None? || v.value.List?
  }

  /** A present key whose value is not a list, where a list is required. */
  function NotList(v: Option<Value>, e: FieldError): seq<FieldError>
  {
    if v.Some? && !v.value.List? then [e] else []
  }

  /** The in-place rewrite of a single string into a one-element list. */
  function Listify(v: Option<Value>): (r: Option<Value>)
    ensures v.Some? && v.value.Str? ==> r == Some(List([v.value]))
    ensures !(v.Some? && v.value.Str?) ==> r == v
  {
    if v.Some? && v.value.Str? then Some(List([v.value])) else v
  }

  /**
   * Rewriting is idempotent, keeps a missing key missing, and leaves a list exactly when
   * the value was a string or already a list.
   */
  lemma ListifyShape(v: Option<Value>)
    ensures Listify(Listify(v)) == Listify(v)
    ensures Listify(v).None? <==> v.None?
    ensures Listify(v).Some? && Listify(v).value.List? <==> v.Some? && (v.value.Str? || v.value.List?)
  {
  }

  function Normalize(cfg: FieldConfig): FieldConfig
  {
    cfg.(mandatoryOnly := Listify(cfg.mandatoryOnly), mandatoryExcept := Listify(cfg.mandatoryExcept))
  }

  /** A string or a list is accepted; anything else present is an error. */
  function NotListOrString(v: Option<Value>, e: FieldError): seq<FieldError>
  {
    if v.Some? && !v.value.Str? && !v.value.List? then [e] else []
  }

  /** The error for one `depends_on` item. */
  function DependencyItemError(name: string, index: nat, dep: Value): seq<FieldError>
  {
    if !dep.Object? then [DependencyNotDict(name, index)]
    else if "field" !in dep.entries then [DependencyWithoutField(name, index)]
    else []
  }

  /** The errors for the `depends_on` items, in item order. */
  function DependencyItemErrors(name: string, items: seq<Value>): seq<FieldError>
  {
    if |items| == 0 then []
    else DependencyItemErrors(name, items[..|items| - 1])
         + DependencyItemError(name, |items| - 1, items[|items| - 1])
  }

  function ColErrors(name: string, cfg: FieldConfig): seq<FieldError>
  {
    if cfg.col.None? then [MissingCol(name)]
    else if !cfg.col.value.Str? || cfg.col.value.s == "" then [ColNotNonEmptyString(name)]
    else []
  }

  function DependsOnErrors(name: string, cfg: FieldConfig): seq<FieldError>
  {
    if cfg.dependsOn.None? then []
    else if !cfg.dependsOn.value.List? then [DependsOnNotList(name)]
    else DependencyItemErrors(name, cfg.dependsOn.value.items)
  }

  function VisibilityErrors(name: string, cfg: FieldConfig): seq<FieldError>
  {
    (if cfg.visible.Some? && !IsLiteral(cfg.visible.value) then [InvalidVisible(name)] else [])
    + NotList(cfg.visibleOnly, VisibleOnlyNotList(name))
    + NotList(cfg.visibleExcept, VisibleExceptNotList(name))
  }

  function MandatoryErrors(name: string, cfg: FieldConfig): seq<FieldError>
  {
    (if cfg.mandatory.Some? && !IsLiteral(cfg.mandatory.value) then [InvalidMandatory(name)] else [])
    + NotListOrString(cfg.mandatoryOnly, MandatoryOnlyNotListOrString(name))
    + NotListOrString(cfg.mandatoryExcept, MandatoryExceptNotListOrString(name))
  }

  function TrailingErrors(name: string, cfg: FieldConfig): seq<FieldError>
  {
    NotList(cfg.dependsTriggerFor, TriggerForNotList(name))
    + (if cfg.notes.Some? && !cfg.notes.value.Str? then [NotesNotString(name)] else [])
  }

  /** Every error `_validate_field` reports for one field, in the order it checks. */
  function FieldErrors(name: string, cfg: FieldConfig): seq<FieldError>
  {
    ColErrors(name, cfg) + VisibilityErrors(name, cfg) + MandatoryErrors(name, cfg)
    + DependsOnErrors(name, cfg) + TrailingErrors(name, cfg)
  }

  /** A `depends_on` item the engine can evaluate: a dictionary with a "field" key. */
  predicate IsCondition(dep: Value)
  {
    dep.Object? && "field" in dep.entries
  }

  /** The shape a configuration has inside a constructed catalog. */
  predicate ValidConfig(cfg: FieldConfig)
  {
    && cfg.col.Some? && cfg.col.value.Str? && cfg.col.value.s != ""
    && (cfg.visible.Some? ==> IsLiteral(cfg.visible.value))
    && IsListOpt(cfg.visibleOnly)
    && IsListOpt(cfg.visibleExcept)
    && (cfg.mandatory.Some? ==> IsLiteral(cfg.mandatory.value))
    && IsListOpt(cfg.mandatoryOnly)
    && IsListOpt(cfg.mandatoryExcept)
    && (cfg.dependsOn.Some? ==>
          cfg.dependsOn.value.List?
          && forall k :: 0 <= k < |cfg.dependsOn.value.items| ==> IsCondition(cfg.dependsOn.value.items[k]))
    && IsListOpt(cfg.dependsTriggerFor)
    && (cfg.notes.Some? ==> cfg.notes.value.Str?)
  }

  predicate ValidCatalog(es: seq<Entry>)
  {
    DistinctNames(es) && forall i :: 0 <= i < |es| ==> ValidConfig(es[i].config)
  }

  lemma {:induction false} DependencyItemErrorsEmptyIff(name: string, items: seq<Value>)
    ensures DependencyItemErrors(name, items) == [] <==> forall k :: 0 <= k < |items| ==> IsCondition(items[k])
  {
    if |items| > 0 {
      var init := items[..|items| - 1];
      DependencyItemErrorsEmptyIff(name, init);
      assert forall k :: 0 <= k < |init| ==> init[k] == items[k];
    }
  }

  /**
   * A field produces no error exactly when its normalised configuration has the catalog
   * shape: in particular a single string in `mandatory_only` / `mandatory_except` is no error.
   */
  lemma FieldErrorsEmptyIff(name: string, cfg: FieldConfig)
    ensures FieldErrors(name, cfg) == [] <==> ValidConfig(Normalize(cfg))
  {
    if cfg.dependsOn.Some? && cfg.dependsOn.value.List? {
      DependencyItemErrorsEmptyIff(name, cfg.dependsOn.value.items);
    }
  }

  /** Normalisation leaves a configuration of catalog shape as it is. */
  lemma NormalizeKeepsValid(cfg: FieldConfig)
    requires ValidConfig(cfg)
    ensures Normalize(cfg) == cfg
  {
  }

  /** The errors of one catalog entry. */
  function EntryErrors(): Entry -> seq<FieldError>
  {
    (e: Entry) => FieldErrors(e.name, e.config)
  }

  /** The errors of all fields, field by field in insertion order. */
  function AllFieldErrors(es: seq<Entry>): seq<FieldError>
  {
    ConcatMap(EntryErrors(), es)
  }

  function NormalizeAll(es: seq<Entry>): (r: seq<Entry>)
    ensures |r| == |es|
    ensures forall i :: 0 <= i < |es| ==> r[i] == Entry(es[i].name, Normalize(es[i].config))
  {
    seq(|es|, i requires 0 <= i < |es| => Entry(es[i].name, Normalize(es[i].config)))
  }

  /** The catalog is accepted exactly when every field, normalised, has the catalog shape. */
  lemma AllFieldErrorsEmptyIff(es: seq<Entry>)
    ensures AllFieldErrors(es) == [] <==> forall i :: 0 <= i < |es| ==> ValidConfig(Normalize(es[i].config))
  {
    ConcatMapEmpty(EntryErrors(), es);
    forall i | 0 <= i < |es|
      ensures FieldErrors(es[i].name, es[i].config) == [] <==> ValidConfig(Normalize(es[i].config))
    {
      FieldErrorsEmptyIff(es[i].name, es[i].config);
    }
  }

  lemma NormalizeAllNames(es: seq<Entry>)
    ensures Names(NormalizeAll(es)) == Names(es)
    ensures DistinctNames(es) ==> DistinctNames(NormalizeAll(es))
  {
    var r := NormalizeAll(es);
    assert forall i :: 0 <= i < |es| ==> r[i].name == es[i].name;
  }

  datatype LookupError = KeyError(key: string)

  /** `get_field`: the configuration stored under a name, or KeyError. */
  function GetField(es: seq<Entry>, name: string): (r: Result<FieldConfig, LookupError>)
    requires DistinctNames(es)
    ensures r.Ok? <==> name in Names(es)
    ensures r.Ok? ==> exists i :: 0 <= i < |es| && es[i] == Entry(name, r.value)
    ensures r.Err? ==> r.error == KeyError(name)
  {
    if |es| == 0 then Err(KeyError(name))
    else if es[0].name == name then Ok(es[0].config)
    else
      var r := GetField(es[1..], name);
      assert Names(es) == {es[0].name} + Names(es[1..]) by {
        forall n | n in Names(es) ensures n in {es[0].name} + Names(es[1..]) {
          var i :| 0 <= i < |es| && es[i].name == n;
          if i > 0 { assert es[1..][i - 1] == es[i]; }
        }
        forall n | n in Names(es[1..]) ensures n in Names(es) {
          var i :| 0 <= i < |es[1..]| && es[1..][i].name == n;
          assert es[i + 1] == es[1..][i];
        }
      }
      if r.Ok? then
        assert exists i :: 0 <= i < |es| && es[i] == Entry(name, r.value) by {
          var i :| 0 <= i < |es[1..]| && es[1..][i] == Entry(name, r.value);
          assert es[i + 1] == es[1..][i];
        }
        r
      else r
  }

  /** The column values of a catalog, as a set. */
  function ColumnSet(es: seq<Entry>): set<Value>
  {
    set i | 0 <= i < |es| && es[i].config.col.Some? :: es[i].config.col.value
  }

  /** `get_columns`: the set of column values; duplicates collapse, so it may be smaller. */
  function GetColumns(es: seq<Entry>): (cols: set<Value>)
    ensures |cols| <= |es|
    ensures forall i :: 0 <= i < |es| && es[i].config.col.Some? ==> es[i].config.col.value in cols
    ensures forall v :: v in cols ==> exists i :: 0 <= i < |es| && es[i].config.col == Some(v)
  {
    ColumnsBound(es);
    ColumnSet(es)
  }

  lemma {:induction false} ColumnsBound(es: seq<Entry>)
    ensures |ColumnSet(es)| <= |es|
  {
    if |es| > 0 {
      var init := es[..|es| - 1];
      ColumnsBound(init);
      var last := es[|es| - 1].config.col;
      var extra: set<Value> := if last.Some? then {last.value} else {};
      var c := ColumnSet(init) + extra;
      assert ColumnSet(es) <= c by {
        forall v | v in ColumnSet(es) ensures v in c {
          var i :| 0 <= i < |es| && es[i].config.col.Some? && es[i].config.col.value == v;
          if i < |es| - 1 { assert init[i] == es[i]; }
        }
      }
      SubsetCard(ColumnSet(es), c);
      assert |c| <= |ColumnSet(init)| + |extra|;
    }
  }

  lemma SubsetCard<T>(a: set<T>, b: set<T>)
    requires a <= b
    ensures |a| <= |b|
  {
    assert b == a + (b - a);
  }

  /** A configuration with only a column. */
  function ColumnOnly(col: string): FieldConfig
  {
    FieldConfig(Some(Str(col)), None, None, None, None, None, None, None, None, None)
  }

  /** Two fields may share a column: the catalog accepts them and `get_columns` has one element. */
  lemma DuplicateColumnsAccepted()
    ensures var es := [Entry("Staffel Vanaf", ColumnOnly("AA")), Entry("Staffel Tot", ColumnOnly("AA"))];
      && DistinctNames(es)
      && AllFieldErrors(es) == []
      && |GetColumns(es)| == 1 < |es|
  {
    var es := [Entry("Staffel Vanaf", ColumnOnly("AA")), Entry("Staffel Tot", ColumnOnly("AA"))];
    AllFieldErrorsEmptyIff(es);
    assert GetColumns(es) == {Str("AA")};
  }

  /** A dangling `depends_on` or `depends_trigger_for` reference. */
  datatype DependencyError =
    | UnknownDependency(field: string, target: Value)
    | UnknownTrigger(field: string, target: Value)

  /** A reference resolves when it is the name of a field of the catalog. */
  predicate Resolves(target: Value, names: set<string>)
  {
    target.Str? && target.s in names
  }

  function DependsOnItems(cfg: FieldConfig): seq<Value>
  {
    if cfg.dependsOn.Some? then ItemsOf(cfg.dependsOn.value) else []
  }

  function TriggerItems(cfg: FieldConfig): seq<Value>
  {
    if cfg.dependsTriggerFor.Some? then ItemsOf(cfg.dependsTriggerFor.value) else []
  }

  /** The error for one `depends_on` item whose "field" names no field of the catalog. */
  function DependencyCheck(name: string, names: set<string>): Value -> seq<DependencyError>
  {
    (dep: Value) =>
      if dep.Object? && "field" in dep.entries && !Resolves(dep.entries["field"], names)
      then [UnknownDependency(name, dep.entries["field"])] else []
  }

  /** The error for one `depends_trigger_for` item that names no field of the catalog. */
  function TriggerCheck(name: string, names: set<string>): Value -> seq<DependencyError>
  {
    (t: Value) => if !Resolves(t, names) then [UnknownTrigger(name, t)] else []
  }

  function UnknownDependencies(name: string, deps: seq<Value>, names: set<string>): seq<DependencyError>
  {
    ConcatMap(DependencyCheck(name, names), deps)
  }

  function UnknownTriggers(name: string, triggers: seq<Value>, names: set<string>): seq<DependencyError>
  {
    ConcatMap(TriggerCheck(name, names), triggers)
  }

  /** The dangling references of one field: its dependencies first, then its triggers. */
  function EntryDependencyErrors(names: set<string>): Entry -> seq<DependencyError>
  {
    (e: Entry) => UnknownDependencies(e.name, DependsOnItems(e.config), names)
                  + UnknownTriggers(e.name, TriggerItems(e.config), names)
  }

  /** All dangling references, field by field. */
  function DependencyErrors(es: seq<Entry>, names: set<string>): seq<DependencyError>
  {
    ConcatMap(EntryDependencyErrors(names), es)
  }

  lemma DependencyErrorsSnoc(es: seq<Entry>, i: int, names: set<string>)
    requires 0 <= i < |es|
    ensures DependencyErrors(es[..i + 1], names) == DependencyErrors(es[..i], names) + EntryDependencyErrors(names)(es[i])
  {
    assert es[..i + 1][..i] == es[..i];
  }

  /** Every reference of one field names a field of the catalog. */
  predicate ReferencesResolve(e: Entry, names: set<string>)
  {
    && (forall k :: 0 <= k < |DependsOnItems(e.config)| && IsCondition(DependsOnItems(e.config)[k])
          ==> Resolves(DependsOnItems(e.config)[k].entries["field"], names))
    && (forall k :: 0 <= k < |TriggerItems(e.config)| ==> Resolves(TriggerItems(e.config)[k], names))
  }

  predicate AllReferencesResolve(es: seq<Entry>, names: set<string>)
  {
    forall i :: 0 <= i < |es| ==> ReferencesResolve(es[i], names)
  }

  lemma EntryDependencyErrorsEmptyIff(e: Entry, names: set<string>)
    ensures EntryDependencyErrors(names)(e) == [] <==> ReferencesResolve(e, names)
  {
    var deps := DependsOnItems(e.config);
    var triggers := TriggerItems(e.config);
    ConcatMapEmpty(DependencyCheck(e.name, names), deps);
    ConcatMapEmpty(TriggerCheck(e.name, names), triggers);
    assert (forall k :: 0 <= k < |deps| ==> DependencyCheck(e.name, names)(deps[k]) == [])
       <==> (forall k :: 0 <= k < |deps| && IsCondition(deps[k]) ==> Resolves(deps[k].entries["field"], names));
  }

  /** `validate_dependencies` reports nothing exactly when every reference resolves. */
  lemma DependencyErrorsEmptyIff(es: seq<Entry>, names: set<string>)
    ensures DependencyErrors(es, names) == [] <==> AllReferencesResolve(es, names)
  {
    ConcatMapEmpty(EntryDependencyErrors(names), es);
    forall i | 0 <= i < |es|
      ensures EntryDependencyErrors(names)(es[i]) == [] <==> ReferencesResolve(es[i], names)
    {
      EntryDependencyErrorsEmptyIff(es[i], names);
    }
  }

  /** Whether a configuration's `col` equals a given column (`config.get("col") == column`). */
  predicate HasColumn(e: Entry, column: string)
  {
    e.config.col == Some(Str(column))
  }

  class FieldMapping {
    /** The catalog entries in insertion order. */
    var fields: seq<Entry>

    ghost predicate Valid()
      reads this
    {
      ValidCatalog(fields)
    }

    /** Stores the parsed catalog; `Load` is the constructor that validates. */
    constructor Init(data: seq<Entry>)
      requires DistinctNames(data)
      ensures fields == data
    {
      fields := data;
    }

    /** `_validate_field` on entry i: reports its errors and normalises its lists in place. */
    method ValidateField(i: nat) returns (errors: seq<FieldError>)
      requires i < |fields|
      modifies this
      ensures fields == old(fields)[i := Entry(old(fields)[i].name, Normalize(old(fields)[i].config))]
      ensures errors == FieldErrors(old(fields)[i].name, old(fields)[i].config)
    {
      var name := fields[i].name;
      var cfg := fields[i].config;
      var col := ColErrors(name, cfg);
      var visibility := [];
      if cfg.visible.Some? && !IsLiteral(cfg.visible.value) {
        visibility := visibility + [InvalidVisible(name)];
      }
      visibility := visibility + NotList(cfg.visibleOnly, VisibleOnlyNotList(name));
      visibility := visibility + NotList(cfg.visibleExcept, VisibleExceptNotList(name));
      var mandatory, updated := CheckMandatory(name, cfg);
      fields := fields[i := Entry(name, updated)];
      var dependencies := [];
      if cfg.dependsOn.Some? {
        if !cfg.dependsOn.value.List? {
          dependencies := [DependsOnNotList(name)];
        } else {
          dependencies := CheckDependencyItems(name, cfg.dependsOn.value.items);
        }
      }
      var trailing := NotList(cfg.dependsTriggerFor, TriggerForNotList(name));
      if cfg.notes.Some? && !cfg.notes.value.Str? {
        trailing := trailing + [NotesNotString(name)];
      }
      assert visibility == VisibilityErrors(name, cfg);
      assert dependencies == DependsOnErrors(name, cfg);
      assert trailing == TrailingErrors(name, cfg);
      errors := col + visibility + mandatory + dependencies + trailing;
    }

    /**
     * The `mandatory` checks of `_validate_field`; a string `mandatory_only` or
     * `mandatory_except` is no error and becomes a one-element list.
     */
    static method CheckMandatory(name: string, cfg: FieldConfig) returns (errors: seq<FieldError>, updated: FieldConfig)
      ensures errors == MandatoryErrors(name, cfg)
      ensures updated == Normalize(cfg)
    {
      errors := [];
      if cfg.mandatory.Some? && !IsLiteral(cfg.mandatory.value) {
        errors := errors + [InvalidMandatory(name)];
      }
      updated := cfg;
      if cfg.mandatoryOnly.Some? {
        if cfg.mandatoryOnly.value.Str? {
          updated := updated.(mandatoryOnly := Some(List([cfg.mandatoryOnly.value])));
        } else if !cfg.mandatoryOnly.value.List? {
          errors := errors + [MandatoryOnlyNotListOrString(name)];
        }
      }
      if cfg.mandatoryExcept.Some? {
        if cfg.mandatoryExcept.value.Str? {
          updated := updated.(mandatoryExcept := Some(List([cfg.mandatoryExcept.value])));
        } else if !cfg.mandatoryExcept.value.List? {
          errors := errors + [MandatoryExceptNotListOrString(name)];
        }
      }
    }

    /** The loop of `_validate_field` over the `depends_on` items. */
    static method CheckDependencyItems(name: string, items: seq<Value>) returns (errors: seq<FieldError>)
      ensures errors == DependencyItemErrors(name, items)
    {
      errors := [];
      var k := 0;
      while k < |items|
        invariant 0 <= k <= |items|
        invariant errors == DependencyItemErrors(name, items[..k])
      {
        var dep := items[k];
        if !dep.Object? {
          errors := errors + [DependencyNotDict(name, k)];
        } else if "field" !in dep.entries {
          errors := errors + [DependencyWithoutField(name, k)];
        }
        assert items[..k + 1][..k] == items[..k];
        k := k + 1;
      }
      assert items[..|items|] == items;
    }

    /** `_validate_structure`: every field is validated (and normalised); all errors are kept. */
    method ValidateStructure() returns (errors: seq<FieldError>)
      modifies this
      ensures fields == NormalizeAll(old(fields))
      ensures errors == AllFieldErrors(old(fields))
    {
      ghost var orig := fields;
      errors := [];
      var i := 0;
      while i < |fields|
        invariant |fields| == |orig|
        invariant 0 <= i <= |fields|
        invariant forall j :: 0 <= j < i ==> fields[j] == Entry(orig[j].name, Normalize(orig[j].config))
        invariant forall j :: i <= j < |fields| ==> fields[j] == orig[j]
        invariant errors == AllFieldErrors(orig[..i])
      {
        var fieldErrors := ValidateField(i);
        errors := errors + fieldErrors;
        assert orig[..i + 1][..i] == orig[..i];
        i := i + 1;
      }
      assert orig[..|orig|] == orig;
    }

    /**
     * The constructor: a catalog comes into existence only when no field has an error;
     * otherwise every error of every field is reported together.
     */
    static method Load(data: seq<Entry>) returns (r: Result<FieldMapping, seq<FieldError>>)
      requires DistinctNames(data)
      ensures r.Ok? <==> AllFieldErrors(data) == []
      ensures r.Err? ==> r.error == AllFieldErrors(data)
      ensures r.Ok? ==> fresh(r.value) && r.value.fields == NormalizeAll(data) && r.value.Valid()
    {
      var m := new FieldMapping.Init(data);
      var errors := m.ValidateStructure();
      if errors == [] {
        AllFieldErrorsEmptyIff(data);
        NormalizeAllNames(data);
        r := Ok(m);
      } else {
        r := Err(errors);
      }
    }

    /** `get_all_fields`: the whole catalog, in insertion order. */
    method GetAllFields() returns (all: seq<Entry>)
      ensures all == fields
    {
      all := fields;
    }

    /** `get_field_by_column`: the first field, in insertion order, whose column matches. */
    method GetFieldByColumn(column: string) returns (r: Result<string, LookupError>)
      ensures r.Ok? ==> exists i :: 0 <= i < |fields| && fields[i].name == r.value && HasColumn(fields[i], column)
                                    && forall j :: 0 <= j < i ==> !HasColumn(fields[j], column)
      ensures r.Err? <==> forall i :: 0 <= i < |fields| ==> !HasColumn(fields[i], column)
      ensures r.Err? ==> r.error == KeyError(column)
    {
      var i := 0;
      while i < |fields|
        invariant 0 <= i <= |fields|
        invariant forall j :: 0 <= j < i ==> !HasColumn(fields[j], column)
      {
        if fields[i].config.col == Some(Str(column)) {
          return Ok(fields[i].name);
        }
        i := i + 1;
      }
      r := Err(KeyError(column));
    }

    /** `validate_dependencies`: one error per dangling reference, in catalog order. */
    method ValidateDependencies() returns (errors: seq<DependencyError>)
      ensures errors == DependencyErrors(fields, Names(fields))
      ensures errors == [] <==> AllReferencesResolve(fields, Names(fields))
    {
      var names := Names(fields);
      errors := [];
      var i := 0;
      while i < |fields|
        invariant 0 <= i <= |fields|
        invariant errors == DependencyErrors(fields[..i], names)
      {
        var e := fields[i];
        var unknownDeps := FindUnknownDependencies(e.name, DependsOnItems(e.config), names);
        var unknownTriggers := FindUnknownTriggers(e.name, TriggerItems(e.config), names);
        DependencyErrorsSnoc(fields, i, names);
        errors := errors + (unknownDeps + unknownTriggers);
        i := i + 1;
      }
      assert fields[..|fields|] == fields;
      DependencyErrorsEmptyIff(fields, names);
    }

    /** The loop of `validate_dependencies` over one field's `depends_on` items. */
    static method FindUnknownDependencies(name: string, deps: seq<Value>, names: set<string>)
      returns (errors: seq<DependencyError>)
      ensures errors == UnknownDependencies(name, deps, names)
    {
      errors := [];
      var k := 0;
      while k < |deps|
        invariant 0 <= k <= |deps|
        invariant errors == UnknownDependencies(name, deps[..k], names)
      {
        var dep := deps[k];
        if dep.Object? && "field" in dep.entries && !Resolves(dep.entries["field"], names) {
          errors := errors + [UnknownDependency(name, dep.entries["field"])];
        }
        assert deps[..k + 1][..k] == deps[..k];
        k := k + 1;
      }
      assert deps[..|deps|] == deps;
    }

    /** The loop of `validate_dependencies` over one field's `depends_trigger_for` items. */
    static method FindUnknownTriggers(name: string, triggers: seq<Value>, names: set<string>)
      returns (errors: seq<DependencyError>)
      ensures errors == UnknownTriggers(name, triggers, names)
    {
      errors := [];
      var k := 0;
      while k < |triggers|
        invariant 0 <= k <= |triggers|
        invariant errors == UnknownTriggers(name, triggers[..k], names)
      {
        if !Resolves(triggers[k], names) {
          errors := errors + [UnknownTrigger(name, triggers[k])];
        }
        assert triggers[..k + 1][..k] == triggers[..k];
        k := k + 1;
      }
      assert triggers[..|triggers|] == triggers;
    }
  }
}
