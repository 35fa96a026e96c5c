/**
 * The questionnaire answers of one request (the Python `Context` dataclass) and the
 * values derived from them: the label set the rule engine matches against, the
 * consistency check, the template choice, the preset code and the dictionary form.
 *
 * Python does not enforce the `Literal` annotations, so the enumerated fields stay strings.
 */
module ContextModel {
  import opened Wrappers
  import opened Values
  import Text

  datatype Context = Context(
    templateChoice: string,
    gs1Mode: string,
    allOrderable: bool,
    productType: string,
    hasChemicals: bool,
    isStaffelFile: bool,
    institutions: seq<string>,
    version: string)

  /** The institutions `validate` accepts. */
  const KnownInstitutions: set<string> := {
    "UMCU", "LUMC", "AMC", "VUmc", "Erasmus MC", "MUMC", "UMC Groningen",
    "Radboudumc", "Isala", "MST", "Catharina", "Elisabeth-TweeSteden",
    "Franciscus", "HagaZiekenhuis", "HMC", "Jeroen Bosch", "Maasstad",
    "Medisch Spectrum Twente", "OLVG", "Reinier de Graaf", "Rijnstate",
    "Sint Antonius", "Sint Franciscus", "Spaarne Gasthuis", "Tergooi",
    "Zuyderland", "ZGT", "Ziekenhuis Gelderse Vallei", "Zorggroep Twente",
    "Admiraal De Ruyter", "Albert Schweitzer", "Alrijne", "Amphia"
  }

  predicate IsGs1(c: Context)
  {
    c.gs1Mode == "gs1" || c.gs1Mode == "gs1_only"
  }

  function OrderableLabel(c: Context): string
  {
    if c.allOrderable then "orderable_true" else "orderable_false"
  }

  /**
   * The label set: the product type, a GS1 label, the staffel, terminology and chemicals
   * labels, and every institution, each added verbatim.
   */
  function Labels(c: Context): (labs: set<string>)
    ensures c.productType in labs
    ensures forall i :: 0 <= i < |c.institutions| ==> c.institutions[i] in labs
    ensures IsGs1(c) ==> "gs1" in labs
    ensures !IsGs1(c) ==> "none" in labs
    ensures c.gs1Mode == "gs1_only" ==> "gs1_only" in labs
    ensures c.isStaffelFile ==> "staffel" in labs
    ensures OrderableLabel(c) in labs
    ensures c.hasChemicals ==> "chemicals" in labs
    // nothing else is ever added
    ensures forall l :: l in labs ==>
              || l == c.productType
              || l in c.institutions
              || (l == "gs1" && IsGs1(c))
              || (l == "none" && !IsGs1(c))
              || (l == "gs1_only" && c.gs1Mode == "gs1_only")
              || (l == "staffel" && c.isStaffelFile)
              || l == OrderableLabel(c)
              || (l == "chemicals" && c.hasChemicals)
  {
    var labs := {c.productType};
    var labs := labs + (if IsGs1(c) then {"gs1"} else {"none"});
    var labs := labs + (if c.gs1Mode == "gs1_only" then {"gs1_only"} else {});
    var labs := labs + (if c.isStaffelFile then {"staffel"} else {});
    var labs := labs + {OrderableLabel(c)};
    var labs := labs + (if c.hasChemicals then {"chemicals"} else {});
    labs + (set i | i in c.institutions)
  }

  /** The tokens that the projection itself produces. */
  const ReservedLabels: set<string> :=
    {"gs1", "none", "gs1_only", "staffel", "orderable_true", "orderable_false", "chemicals"}

  /**
   * When neither the product type nor an institution spells one of the reserved tokens,
   * each reserved label is present exactly when its answer says so.
   */
  lemma LabelsExactlyWhen(c: Context)
    requires c.productType !in ReservedLabels
    requires forall i :: 0 <= i < |c.institutions| ==> c.institutions[i] !in ReservedLabels
    ensures "gs1" in Labels(c) <==> IsGs1(c)
    ensures "none" in Labels(c) <==> !IsGs1(c)
    ensures "gs1_only" in Labels(c) <==> c.gs1Mode == "gs1_only"
    ensures "staffel" in Labels(c) <==> c.isStaffelFile
    ensures "orderable_true" in Labels(c) <==> c.allOrderable
    ensures "orderable_false" in Labels(c) <==> !c.allOrderable
    ensures "chemicals" in Labels(c) <==> c.hasChemicals
  {
  }

  /** A GS1-only lab context with chemicals and two institutions. */
  lemma LabelsExample()
    ensures Labels(Context("custom", "gs1_only", true, "lab", true, false, ["UMCU", "LUMC"], "v1.0.0"))
         == {"lab", "gs1", "gs1_only", "orderable_true", "chemicals", "UMCU", "LUMC"}
  {
    var c := Context("custom", "gs1_only", true, "lab", true, false, ["UMCU", "LUMC"], "v1.0.0");
    assert (set i | i in c.institutions) == {"UMCU", "LUMC"};
  }

  datatype ContextError =
    | UnknownInstitutions(names: set<string>)
    | Gs1OnlyNeedsOrderable
    | StaffelWithGs1Only

  function UnknownInstitutionsOf(c: Context): set<string>
  {
    (set i | i in c.institutions) - KnownInstitutions
  }

  /**
   * The consistency rules, one error per violated rule, in the order they are checked.
   */
  function Validate(c: Context): (errors: seq<ContextError>)
    ensures errors == [] <==>
              && (forall i :: 0 <= i < |c.institutions| ==> c.institutions[i] in KnownInstitutions)
              && !(c.gs1Mode == "gs1_only" && !c.allOrderable)
              && !(c.isStaffelFile && c.gs1Mode == "gs1_only")
    ensures |errors| == (if UnknownInstitutionsOf(c) != {} then 1 else 0)
                      + (if c.gs1Mode == "gs1_only" && !c.allOrderable then 1 else 0)
                      + (if c.isStaffelFile && c.gs1Mode == "gs1_only" then 1 else 0)
    ensures UnknownInstitutions(UnknownInstitutionsOf(c)) in errors <==> UnknownInstitutionsOf(c) != {}
    ensures Gs1OnlyNeedsOrderable in errors <==> c.gs1Mode == "gs1_only" && !c.allOrderable
    ensures StaffelWithGs1Only in errors <==> c.isStaffelFile && c.gs1Mode == "gs1_only"
  {
    var unknown := UnknownInstitutionsOf(c);
    var errors := if unknown != {} then [UnknownInstitutions(unknown)] else [];
    var errors := errors + (if c.gs1Mode == "gs1_only" && !c.allOrderable then [Gs1OnlyNeedsOrderable] else []);
    var errors := errors + (if c.isStaffelFile && c.gs1Mode == "gs1_only" then [StaffelWithGs1Only] else []);
    assert unknown == {} <==> forall i :: 0 <= i < |c.institutions| ==> c.institutions[i] in KnownInstitutions by {
      if unknown != {} {
        var u :| u in unknown;
        var i :| 0 <= i < |c.institutions| && c.institutions[i] == u;
      }
    }
    errors
  }

  /** The template file the request starts from; staffel wins over the terminology choice. */
  function TemplateBasename(c: Context): (name: string)
    ensures name == "template_staffel" <==> c.isStaffelFile
    ensures name == "template_besteleenheid" <==> !c.isStaffelFile && c.allOrderable
    ensures name == "template_verpakkingseenheid" <==> !c.isStaffelFile && !c.allOrderable
  {
    if c.isStaffelFile then "template_staffel"
    else if c.allOrderable then "template_besteleenheid"
    else "template_verpakkingseenheid"
  }

  /** `type_codes[product_type]`: None is the KeyError of an unknown product type. */
  function TypeCode(productType: string): Option<string>
  {
    if productType == "medisch" then Some("MED")
    else if productType == "lab" then Some("LAB")
    else if productType == "facilitair" then Some("FAC")
    else if productType == "mixed" then Some("MIX")
    else None
  }

  function Gs1Code(c: Context): string
  {
    if c.gs1Mode == "gs1_only" then "GS1ONLY" else if c.gs1Mode == "gs1" then "GS1" else "COMM"
  }

  /** The segments `get_preset_code` joins, or None when the product type has no code. */
  function PresetParts(c: Context): Option<seq<string>>
  {
    match TypeCode(c.productType)
    case None => None
    case Some(t) =>
      var parts := [t, Gs1Code(c), if c.allOrderable then "ORDER" else "PACK"];
      var parts := parts + (if c.isStaffelFile then ["STAFF"] else []);
      var parts := parts + (if c.hasChemicals then ["CHEM"] else []);
      Some(parts)
  }

  /** The compact preset code, such as "MED-GS1-ORDER". */
  function PresetCode(c: Context): (code: Option<string>)
    ensures code.Some? <==> c.productType in {"medisch", "lab", "facilitair", "mixed"}
  {
    match PresetParts(c)
    case None => None
    case Some(parts) => Some(Text.Join(parts, "-"))
  }

  /** The segments of a preset code, read off `PresetParts`. */
  predicate PresetShape(c: Context, segs: seq<string>)
  {
    && |segs| == 3 + (if c.isStaffelFile then 1 else 0) + (if c.hasChemicals then 1 else 0)
    && segs[0] in {"MED", "LAB", "FAC", "MIX"}
    && Some(segs[0]) == TypeCode(c.productType)
    && segs[1] in {"GS1ONLY", "GS1", "COMM"}
    && (segs[1] == "GS1ONLY" <==> c.gs1Mode == "gs1_only")
    && (segs[1] == "GS1" <==> c.gs1Mode == "gs1")
    && segs[2] == (if c.allOrderable then "ORDER" else "PACK")
    && ("STAFF" in segs <==> c.isStaffelFile)
    && ("CHEM" in segs <==> c.hasChemicals)
    && (c.isStaffelFile ==> segs[3] == "STAFF")
    && (c.hasChemicals ==> segs[|segs| - 1] == "CHEM")
  }

  lemma PresetPartsShape(c: Context)
    requires PresetParts(c).Some?
    ensures PresetShape(c, PresetParts(c).value)
    ensures forall i :: 0 <= i < |PresetParts(c).value| ==> '-' !in PresetParts(c).value[i]
  {
    var parts := PresetParts(c).value;
    var t, g, o := TypeCode(c.productType).value, Gs1Code(c), if c.allOrderable then "ORDER" else "PACK";
    var tail := (if c.isStaffelFile then ["STAFF"] else []) + (if c.hasChemicals then ["CHEM"] else []);
    assert parts == [t, g, o] + tail;
    assert "STAFF" !in [t, g, o] && "CHEM" !in [t, g, o];
  }

  /**
   * Cutting a preset code at its dashes gives TYPE, GS1 part and ORDER/PACK, then STAFF
   * exactly for staffel files and CHEM exactly with chemicals, in that order.
   */
  lemma PresetCodeSegments(c: Context)
    requires PresetCode(c).Some?
    ensures PresetShape(c, Text.Split(PresetCode(c).value, '-'))
  {
    PresetPartsShape(c);
    Text.SplitJoin(PresetParts(c).value, '-');
  }

  /** The dictionary `to_dict` produces. */
  function ToDict(c: Context): (d: map<string, Value>)
    ensures d.Keys == {"template_choice", "gs1_mode", "all_orderable", "product_type",
                       "has_chemicals", "is_staffel_file", "institutions", "version"}
  {
    map[
      "template_choice" := Str(c.templateChoice),
      "gs1_mode" := Str(c.gs1Mode),
      "all_orderable" := Bool(c.allOrderable),
      "product_type" := Str(c.productType),
      "has_chemicals" := Bool(c.hasChemicals),
      "is_staffel_file" := Bool(c.isStaffelFile),
      "institutions" := List(seq(|c.institutions|, i requires 0 <= i < |c.institutions| => Str(c.institutions[i]))),
      "version" := Str(c.version)]
  }

  /** The dictionary form loses nothing: distinct contexts serialise differently. */
  lemma ToDictInjective(a: Context, b: Context)
    requires ToDict(a) == ToDict(b)
    ensures a == b
  {
    var la := ToDict(a)["institutions"].items;
    var lb := ToDict(b)["institutions"].items;
    assert la == lb;
    assert |a.institutions| == |b.institutions|;
    forall i | 0 <= i < |a.institutions| ensures a.institutions[i] == b.institutions[i] {
      assert la[i] == Str(a.institutions[i]);
      assert lb[i] == Str(b.institutions[i]);
    }
    assert ToDict(a)["template_choice"] == ToDict(b)["template_choice"];
    assert ToDict(a)["gs1_mode"] == ToDict(b)["gs1_mode"];
    assert ToDict(a)["all_orderable"] == ToDict(b)["all_orderable"];
    assert ToDict(a)["product_type"] == ToDict(b)["product_type"];
    assert ToDict(a)["has_chemicals"] == ToDict(b)["has_chemicals"];
    assert ToDict(a)["is_staffel_file"] == ToDict(b)["is_staffel_file"];
    assert ToDict(a)["version"] == ToDict(b)["version"];
  }
}
