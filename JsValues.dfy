/** The JavaScript values the configuration and the callbacks are made of, with the
    three operations the kit applies to them: truthiness, property lookup and the
    object spread `{ ...a, ...b }`. Numbers are integers here. */
module JsValues {

  datatype JsValue =
    | Undefined
    | Null
    | Bool(b: bool)
    | Num(n: int)
    | Str(s: string)
    /** A function, known only by an identity. */
    | Func(id: nat)
    | Arr(items: seq<JsValue>)
    | Obj(fields: map<string, JsValue>)

  /** What `if (v)` and `v || w` test. */
  predicate Truthy(v: JsValue)
  {
    match v
    case Undefined => false
    case Null => false
    case Bool(b) => b
    case Num(n) => n != 0
    case Str(s) => s != ""
    case Func(_) => true
    case Arr(_) => true
    case Obj(_) => true
  }

  /** `v || w`. */
  function Or(v: JsValue, w: JsValue): (r: JsValue)
    ensures Truthy(v) ==> r == v
    ensures !Truthy(v) ==> r == w
  {
    if Truthy(v) then v else w
  }

  /** `o.key` of an object, `undefined` when the property is missing. */
  function Get(o: map<string, JsValue>, key: string): (r: JsValue)
    ensures key in o ==> r == o[key]
    ensures key !in o ==> r == Undefined
  {
    if key in o then o[key] else Undefined
  }

  /** The own properties `...v` contributes to an object literal: those of an
      object; `null`, `undefined`, booleans, numbers and functions contribute
      none. */
  function Props(v: JsValue): (m: map<string, JsValue>)
    ensures v.Obj? ==> m == v.fields
    ensures !v.Obj? && !v.Str? && !v.Arr? ==> m == map[]
  {
    if v.Obj? then v.fields else map[]
  }

  /** `{ ...a, ...b }`: the properties of both, those of `b` winning. */
  function Spread(a: map<string, JsValue>, b: map<string, JsValue>): (r: map<string, JsValue>)
    ensures r.Keys == a.Keys + b.Keys
    ensures forall k :: k in b ==> r[k] == b[k]
    ensures forall k :: k in a && k !in b ==> r[k] == a[k]
  {
    a + b
  }

  /** `x || null` keeps a truthy value and turns every falsy one into `null`;
      applying it again changes nothing. */
  lemma OrNullNormalises(v: JsValue)
    ensures Truthy(Or(v, Null)) == Truthy(v)
    ensures Or(Or(v, Null), Null) == Or(v, Null)
    ensures Or(v, Null) == Null || Or(v, Null) == v
  {
  }
}
