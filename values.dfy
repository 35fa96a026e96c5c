/**
 * The JSON-like values that the catalog, row data, cells and questionnaire answers
 * hold, with Python's truthiness and `str(v).strip() == ""`, and `==` and `in` on the
 * values where Python answers rather than raising (see README, "Left out").
 * Floating-point numbers are not represented.
 */
module Values {
  import Text

  datatype Value =
    | Null
    | Bool(b: bool)
    | Int(i: int)
    | Str(s: string)
    | List(items: seq<Value>)
    | Object(entries: map<string, Value>)

  /** Python's `bool(v)`. */
  predicate Truthy(v: Value)
  {
    match v
    case Null => false
    case Bool(b) => b
    case Int(i) => i != 0
    case Str(s) => s != ""
    case List(xs) => xs != []
    case Object(m) => m != map[]
  }

  /** The characters `str.strip()` removes: those `str.isspace()` accepts. */
  predicate IsSpace(c: char)
  {
    c == ' ' || c == '\t' || c == '\n' || c == '\r' || c == '\U{0B}' || c == '\U{0C}'
    || c == '\U{1C}' || c == '\U{1D}' || c == '\U{1E}' || c == '\U{1F}' || c == '\U{85}' || c == '\U{A0}'
    || c == '\U{1680}' || ('\U{2000}' <= c <= '\U{200A}') || c == '\U{2028}' || c == '\U{2029}'
    || c == '\U{202F}' || c == '\U{205F}' || c == '\U{3000}'
  }

  /** `str(v).strip() == ""` for a non-None value: only a whitespace-only string prints blank. */
  predicate IsBlank(v: Value)
  {
    v.Str? && forall k :: 0 <= k < |v.s| ==> IsSpace(v.s[k])
  }

  /**
   * Python's `a == b`: booleans equal the integers 0 and 1, lists compare element-wise,
   * dicts key by key.
   */
  predicate PyEq(a: Value, b: Value)
  {
    match (a, b)
    case (Bool(x), Int(i)) => i == (if x then 1 else 0)
    case (Int(i), Bool(x)) => i == (if x then 1 else 0)
    case (List(xs), List(ys)) => |xs| == |ys| && forall k :: 0 <= k < |xs| ==> PyEq(xs[k], ys[k])
    case (Object(m1), Object(m2)) => m1.Keys == m2.Keys && forall key :: key in m1 ==> PyEq(m1[key], m2[key])
    case _ => a == b
  }

  /** Every value equals itself. */
  lemma {:induction false} PyEqReflexive(a: Value)
    ensures PyEq(a, a)
  {
    match a
    case List(xs) =>
      forall k | 0 <= k < |xs|
        ensures PyEq(xs[k], xs[k])
      {
        PyEqReflexive(xs[k]);
      }
    case Object(m) =>
      forall key | key in m
        ensures PyEq(m[key], m[key])
      {
        PyEqReflexive(m[key]);
      }
    case _ =>
  }

  /** Equality does not depend on the order of its operands. */
  lemma {:induction false} PyEqSymmetric(a: Value, b: Value)
    requires PyEq(a, b)
    ensures PyEq(b, a)
  {
    match (a, b)
    case (List(xs), List(ys)) =>
      forall k | 0 <= k < |ys|
        ensures PyEq(ys[k], xs[k])
      {
        PyEqSymmetric(xs[k], ys[k]);
      }
    case (Object(m1), Object(m2)) =>
      forall key | key in m2
        ensures PyEq(m2[key], m1[key])
      {
        PyEqSymmetric(m1[key], m2[key]);
      }
    case _ =>
  }

  /** Booleans inside containers still equal 0 and 1: `{"a": True} == {"a": 1}`. */
  lemma NestedBoolEqualsInt()
    ensures PyEq(Object(map["a" := Bool(true)]), Object(map["a" := Int(1)]))
    ensures PyEq(List([Bool(false)]), List([Int(0)]))
    ensures !PyEq(Str("1"), Int(1))
  {
    var m1, m2 := map["a" := Bool(true)], map["a" := Int(1)];
    assert m1.Keys == m2.Keys == {"a"};
  }

  /** Python's `v in container` for a list, a string or a dict; false for anything else. */
  predicate PyIn(v: Value, container: Value)
  {
    match container
    case List(xs) => exists k :: 0 <= k < |xs| && PyEq(xs[k], v)
    case Str(s) => v.Str? && Text.Contains(s, v.s)
    case Object(m) => v.Str? && v.s in m
    case _ => false
  }

  /** The items of a list value (a validated catalog only has lists where items are read). */
  function ItemsOf(v: Value): seq<Value>
  {
    if v.List? then v.items else []
  }

  /** `d.get(key, default)` on a dict value. */
  function Get(m: map<string, Value>, key: string, default: Value): Value
  {
    if key in m then m[key] else default
  }
}
