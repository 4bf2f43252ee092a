/** A decoded JSON value (the grammar of section 3 of RFC 8259) as Python's json
    module hands it over: objects become dicts keyed by strings, arrays become
    lists, numbers become int or float, true and false become bool, null None. */
module Json {

  datatype Value =
    | Null
    | Bool(b: bool)
    | Number(n: real)
    | String(s: string)
    | Array(items: seq<Value>)
    | Object(fields: map<string, Value>)

  /** In Python bool is a kind of int, so True == 1 and False == 0.0. */
  predicate IsNumeric(v: Value) {
    v.Bool? || v.Number?
  }

  /** The number a bool or a number stands for; it is only consulted when
      IsNumeric holds, and other values map to 0. */
  function Numeric(v: Value): real {
    match v
    case Bool(b) => if b then 1.0 else 0.0
    case Number(n) => n
    case _ => 0.0
  }

  /** Python's == on decoded JSON values: dicts are equal when they have the same
      keys with equal values, lists when they have the same length and equal
      items, numbers and bools by numeric value, None and strings by identity of
      content; values of different kinds are never equal. */
  predicate Equal(a: Value, b: Value)
    ensures Equal(a, b) ==> (a.Object? <==> b.Object?) && (a.Array? <==> b.Array?) && (IsNumeric(a) <==> IsNumeric(b))
    decreases a
  {
    match a
    case Object(m) =>
      b.Object? && m.Keys == b.fields.Keys && forall k :: k in m ==> Equal(m[k], b.fields[k])
    case Array(l) =>
      b.Array? && |l| == |b.items| && forall i :: 0 <= i < |l| ==> Equal(l[i], b.items[i])
    case _ =>
      if IsNumeric(a) && IsNumeric(b) then Numeric(a) == Numeric(b) else a == b
  }

  lemma {:induction false} EqualReflexive(a: Value)
    ensures Equal(a, a)
    decreases a
  {
    match a
    case Object(m) =>
      forall k | k in m ensures Equal(m[k], m[k]) {
        EqualReflexive(m[k]);
      }
    case Array(l) =>
      forall i | 0 <= i < |l| ensures Equal(l[i], l[i]) {
        EqualReflexive(l[i]);
      }
    case _ =>
  }

  lemma {:induction false} EqualSymmetric(a: Value, b: Value)
    requires Equal(a, b)
    ensures Equal(b, a)
    decreases a
  {
    match a
    case Object(m) =>
      forall k | k in b.fields ensures Equal(b.fields[k], m[k]) {
        EqualSymmetric(m[k], b.fields[k]);
      }
    case Array(l) =>
      forall i | 0 <= i < |b.items| ensures Equal(b.items[i], l[i]) {
        EqualSymmetric(l[i], b.items[i]);
      }
    case _ =>
  }
}
