/** JSON values, and the equality that Python gives them. */
module Json {
  import opened Wrappers

  datatype Json =
    | JNull
    | JBool(b: bool)
    | JInt(n: int)
    | JFloat(x: real)
    | JString(s: string)
    | JArray(items: seq<Json>)
    | JObject(fields: map<string, Json>)

  /** True and False are the integers 1 and 0, and integers are compared with floats by value. */
  function Number(j: Json): Option<real> {
    match j
    case JBool(b) => Some(if b then 1.0 else 0.0)
    case JInt(n) => Some(n as real)
    case JFloat(x) => Some(x)
    case _ => None
  }

  predicate PyEq(a: Json, b: Json) {
    match (a, b)
    case (JArray(x), JArray(y)) => |x| == |y| && forall i | 0 <= i < |x| :: PyEq(x[i], y[i])
    case (JObject(x), JObject(y)) => x.Keys == y.Keys && forall k | k in x :: PyEq(x[k], y[k])
    case _ => if Number(a).Some? && Number(b).Some? then Number(a) == Number(b) else a == b
  }

  lemma {:induction false} PyEqReflexive(a: Json)
    ensures PyEq(a, a)
  {
    match a
    case JArray(x) => forall i | 0 <= i < |x| { PyEqReflexive(x[i]); }
    case JObject(x) => forall k | k in x { PyEqReflexive(x[k]); }
    case _ =>
  }

  lemma {:induction false} PyEqSymmetric(a: Json, b: Json)
    ensures PyEq(a, b) ==> PyEq(b, a)
  {
    match (a, b)
    case (JArray(x), JArray(y)) =>
      if |x| == |y| { forall i | 0 <= i < |x| { PyEqSymmetric(x[i], y[i]); } }
    case (JObject(x), JObject(y)) =>
      if x.Keys == y.Keys { forall k | k in x { PyEqSymmetric(x[k], y[k]); } }
    case _ =>
  }
}
