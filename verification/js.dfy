/** The small part of JavaScript's value semantics that the plugin's code relies on:
    `typeof`, the `in` operator, optional chaining, truthiness and `Array.prototype.find`. */
module Js {
  import opened Wrappers

  /** A JavaScript value. Numbers are reals (NaN and the infinities are not
      represented); arrays are objects keyed by their indices; only own
      properties are represented, so inherited properties of `Object.prototype`
      are invisible to `in` and to property reads. */
  datatype Value =
    | Undef
    | Null
    | Bool(b: bool)
    | Num(n: real)
    | Str(s: string)
    | Obj(props: map<string, Value>)
    | Fun(props: map<string, Value>)

  /** The result of the `typeof` operator. */
  function TypeOf(v: Value): string {
    match v
    case Undef => "undefined"
    case Null => "object"
    case Bool(_) => "boolean"
    case Num(_) => "number"
    case Str(_) => "string"
    case Obj(_) => "object"
    case Fun(_) => "function"
  }

  /** The optional-chaining read `v?.key`: `undefined` on a nullish receiver and
      on a missing property. Primitives are read as having no property named
      `key`, which holds for every key the plugin reads. */
  function OptionalGet(v: Value, key: string): (r: Value)
    ensures (v.Undef? || v.Null?) ==> r == Undef
    ensures (v.Obj? || v.Fun?) && key in v.props ==> r == v.props[key]
    ensures r != Undef ==> (v.Obj? || v.Fun?) && key in v.props && r == v.props[key]
  {
    match v
    case Obj(props) => if key in props then props[key] else Undef
    case Fun(props) => if key in props then props[key] else Undef
    case _ => Undef
  }

  /** JavaScript truthiness, as used by `if (x)` and `!!x`. */
  predicate Truthy(v: Value) {
    match v
    case Undef => false
    case Null => false
    case Bool(b) => b
    case Num(n) => n != 0.0
    case Str(s) => s != ""
    case Obj(_) => true
    case Fun(_) => true
  }

  /** The index of the first element satisfying `p`, if any. */
  function FindIndex<T>(xs: seq<T>, p: T -> bool): (r: Option<nat>)
    ensures r.Some? ==> r.value < |xs| && p(xs[r.value])
                        && forall j :: 0 <= j < r.value ==> !p(xs[j])
    ensures r.None? ==> forall j :: 0 <= j < |xs| ==> !p(xs[j])
    decreases |xs|
  {
    if xs == [] then None
    else if p(xs[0]) then Some(0)
    else
      match FindIndex(xs[1..], p)
      case None => None
      case Some(i) => Some(i + 1)
  }

  /** `Array.prototype.find`: the first element satisfying `p`, or `undefined`. */
  function Find<T>(xs: seq<T>, p: T -> bool): (r: Option<T>)
    ensures r.None? <==> forall j :: 0 <= j < |xs| ==> !p(xs[j])
    ensures r.Some? ==> exists i :: 0 <= i < |xs| && xs[i] == r.value && p(xs[i])
                                   && forall j :: 0 <= j < i ==> !p(xs[j])
  {
    match FindIndex(xs, p)
    case None => None
    case Some(i) => Some(xs[i])
  }
}
