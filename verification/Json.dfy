/** Decoded JSON, the shape of every payload and every connector result. */
module Json {

  datatype Value =
    | Null
    | Bool(b: bool)
    | Num(n: real)
    | Str(s: string)
    | Arr(items: seq<Value>)
    | Obj(fields: Dict)

  type Dict = map<string, Value>

  /** `d.get(k, fallback)`. */
  function GetOr(d: Dict, k: string, fallback: Value): Value {
    if k in d then d[k] else fallback
  }

  /** `d.get(k)`. */
  function Get(d: Dict, k: string): Value {
    GetOr(d, k, Null)
  }

  /** Python truth of a decoded value. */
  predicate Truthy(v: Value) {
    match v
    case Null => false
    case Bool(b) => b
    case Num(n) => n != 0.0
    case Str(s) => s != ""
    case Arr(items) => items != []
    case Obj(fields) => fields != map[]
  }

  /** Everything Python takes for false. */
  predicate Falsy(v: Value) {
    v == Null || v == Bool(false) || v == Num(0.0) || v == Str("") || v == Arr([]) || v == Obj(map[])
  }

  lemma {:induction false} FalsyIsFalse(v: Value)
    ensures Truthy(v) <==> !Falsy(v)
  {
  }

  /** The value is an object with this in a field. */
  predicate Has(v: Value, k: string, x: Value) {
    v.Obj? && k in v.fields && v.fields[k] == x
  }

  /** The fields of an object, nothing for any other value: `v or {}`. */
  function Fields(v: Value): Dict {
    if v.Obj? then v.fields else map[]
  }

  /** `x or y`. */
  function Or(x: Value, y: Value): Value {
    if Truthy(x) then x else y
  }

  /** A text field; connectors send strings there. */
  function AsText(v: Value): string {
    if v.Str? then v.s else ""
  }
}
