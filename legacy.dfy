/**
 * The legacy column selection of the first download prototype: from the questionnaire
 * answers, the 1-based indices of the template columns to hide.
 */
module Legacy {
  import opened Values

  /** Medical fields hidden for facility products: GMDN, EMDN, CE fields, implantable, sterilisation, MRI. */
  const FacilityColumns: seq<int> := [47, 48, 49, 50, 51, 52, 83, 90, 91, 93]
  /** Facility fields hidden for medical products: UNSPSC and sustainability. */
  const MedicalColumns: seq<int> := [46, 53, 54, 55]
  /** Fields hidden for laboratory products. */
  const LaboratoryColumns: seq<int> := [83, 90, 91, 93]
  /** The "is orderable unit" column. */
  const OrderableColumn: int := 8

  /** The columns the product type adds: one list per known answer, none for any other. */
  function ProductColumns(productType: Value): seq<int>
  {
    if PyEq(productType, Str("Allemaal facilitair")) then FacilityColumns
    else if PyEq(productType, Str("Allemaal medisch")) then MedicalColumns
    else if PyEq(productType, Str("Allemaal laboratorium")) then LaboratoryColumns
    else []
  }

  /** Column numbers after the orderable column, strictly increasing. */
  predicate IncreasingAfterOrderable(cs: seq<int>)
  {
    (forall i :: 0 <= i < |cs| ==> OrderableColumn < cs[i] <= 93)
    && (forall i, j :: 0 <= i < j < |cs| ==> cs[i] < cs[j])
  }

  /** Each product type's list is increasing and lies after the orderable column. */
  lemma ProductColumnsIncreasing(productType: Value)
    ensures IncreasingAfterOrderable(ProductColumns(productType))
  {
    assert IncreasingAfterOrderable(FacilityColumns);
    assert IncreasingAfterOrderable(MedicalColumns);
    assert IncreasingAfterOrderable(LaboratoryColumns);
  }

  /** `get_columns_to_hide`: the orderable column first when `all_orderable` is truthy, then the product type's columns. */
  function ColumnsToHide(answers: map<string, Value>): (r: seq<int>)
    ensures forall i :: 0 <= i < |r| ==> 8 <= r[i] <= 93
    ensures forall i, j :: 0 <= i < j < |r| ==> r[i] < r[j]
  {
    var product := ProductColumns(Get(answers, "product_type", Str("")));
    ProductColumnsIncreasing(Get(answers, "product_type", Str("")));
    (if Truthy(Get(answers, "all_orderable", Bool(false))) then [OrderableColumn] else []) + product
  }

  /** `get_columns_to_hide`, appending and extending as it goes. */
  method GetColumnsToHide(answers: map<string, Value>) returns (columns: seq<int>)
    ensures columns == ColumnsToHide(answers)
  {
    columns := [];
    if Truthy(Get(answers, "all_orderable", Bool(false))) {
      columns := columns + [OrderableColumn];
    }
    var productType := Get(answers, "product_type", Str(""));
    if PyEq(productType, Str("Allemaal facilitair")) {
      columns := columns + FacilityColumns;
    } else if PyEq(productType, Str("Allemaal medisch")) {
      columns := columns + MedicalColumns;
    } else if PyEq(productType, Str("Allemaal laboratorium")) {
      columns := columns + LaboratoryColumns;
    }
  }

  /** Column 8 is hidden exactly when `all_orderable` is truthy, and then it comes first. */
  lemma OrderableFirst(answers: map<string, Value>)
    ensures OrderableColumn in ColumnsToHide(answers) <==> Truthy(Get(answers, "all_orderable", Bool(false)))
    ensures Truthy(Get(answers, "all_orderable", Bool(false))) ==> ColumnsToHide(answers)[0] == OrderableColumn
  {
    var p := ProductColumns(Get(answers, "product_type", Str("")));
    assert OrderableColumn !in p;
  }

  predicate KnownProductType(v: Value)
  {
    v == Str("Allemaal facilitair") || v == Str("Allemaal medisch") || v == Str("Allemaal laboratorium")
  }

  /** Each known product type adds exactly its list after the orderable entry; any other value adds nothing. */
  lemma ProductTypeColumns(answers: map<string, Value>)
    ensures var orderable := if Truthy(Get(answers, "all_orderable", Bool(false))) then [OrderableColumn] else [];
      var r := ColumnsToHide(answers);
      && (Get(answers, "product_type", Str("")) == Str("Allemaal facilitair") ==> r == orderable + FacilityColumns)
      && (Get(answers, "product_type", Str("")) == Str("Allemaal medisch") ==> r == orderable + MedicalColumns)
      && (Get(answers, "product_type", Str("")) == Str("Allemaal laboratorium") ==> r == orderable + LaboratoryColumns)
      && (!KnownProductType(Get(answers, "product_type", Str(""))) ==> r == orderable)
  {
  }

  /** Only the two answers read matter: the institutions and every other answer never change the result. */
  lemma OnlyTwoAnswersMatter(a: map<string, Value>, b: map<string, Value>)
    requires Get(a, "all_orderable", Bool(false)) == Get(b, "all_orderable", Bool(false))
    requires Get(a, "product_type", Str("")) == Get(b, "product_type", Str(""))
    ensures ColumnsToHide(a) == ColumnsToHide(b)
  {
  }

  lemma ColumnsToHideExample()
    ensures ColumnsToHide(map["all_orderable" := Bool(false), "product_type" := Str("Allemaal facilitair")]) == FacilityColumns
    ensures ColumnsToHide(map["all_orderable" := Bool(true)]) == [8]
  {
    var a := map["all_orderable" := Bool(false), "product_type" := Str("Allemaal facilitair")];
    assert Get(a, "product_type", Str("")) == Str("Allemaal facilitair");
  }
}
