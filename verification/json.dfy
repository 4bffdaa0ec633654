/**
  JSON values as they arrive from the invoicing API, together with the two
  pieces of JavaScript semantics the response decoders rely on: reading a
  property (which yields `undefined` for a missing key) and truthiness (which
  drives the `a && b` idiom).
 */
module Json {

  /** A JSON value. Numbers are modelled as integers. */
  datatype Value =
    | VNull
    | VStr(str: string)
    | VNum(num: int)
    | VBool(flag: bool)
    | VArr(items: seq<Value>)
    | VObj(fields: map<string, Value>)

  /** The outcome of reading a property: JavaScript `undefined`, or a value. */
  datatype Field = Absent | Present(value: Value)

  /** JavaScript's ToBoolean on JSON values: `null`, `""`, `0` and `false` are
      falsy; every array and every object, even an empty one, is truthy. */
  predicate Truthy(v: Value): (b: bool)
    ensures b <==> v !in {VNull, VStr(""), VNum(0), VBool(false)}
  {
    match v
    case VNull => false
    case VStr(s) => s != ""
    case VNum(n) => n != 0
    case VBool(b) => b
    case VArr(_) => true
    case VObj(_) => true
  }

  /** `v.key` in JavaScript, for the nine keys the decoders read (`members`
      and the eight member keys, `id` among them), which no JSON value has
      except as an object's own field. Only a `null` receiver throws, so that case is
      excluded; for these keys a primitive or an array yields `undefined`, as
      does an object without the key as an own field. */
  function Prop(v: Value, key: string): (r: Field)
    requires !v.VNull?
    ensures r.Present? <==> v.VObj? && key in v.fields
    ensures r.Present? ==> r.value == v.fields[key]
  {
    if v.VObj? && key in v.fields then Present(v.fields[key]) else Absent
  }

  /** Adds `key` to an object's fields when `f` holds a value; an undefined
      field leaves the object unchanged (JSON drops undefined members). */
  function Put(fields: map<string, Value>, key: string, f: Field): (r: map<string, Value>)
    ensures Prop(VObj(r), key) == f
    ensures forall k :: k != key ==> Prop(VObj(r), k) == Prop(VObj(fields), k)
  {
    if f.Present? then fields[key := f.value] else fields - {key}
  }
}
