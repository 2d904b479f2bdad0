/**
  The slice of JavaScript value semantics that the middleware and the record
  store rely on: JSON-like values, truthiness, property access, indexing and
  array destructuring.
*/
module JsValues {

  /** A JavaScript value as it arrives in a parsed request body. */
  datatype Value =
    | Undefined
    | Null
    | Bool(b: bool)
    | Num(n: real)
    | Str(s: string)
    | Arr(elems: seq<Value>)
    | Obj(props: map<string, Value>)

  /** `undefined`, `null`, `false`, `0` and `""` are falsy; everything else is truthy. */
  predicate Truthy(v: Value)
  {
    match v
    case Undefined => false
    case Null => false
    case Bool(b) => b
    case Num(n) => n != 0.0
    case Str(s) => s != []
    case Arr(_) => true
    case Obj(_) => true
  }

  /** Reading any property of `undefined` or `null` throws a TypeError. */
  predicate Nullish(v: Value)
  {
    v.Undefined? || v.Null?
  }

  /** `v[key]` for a non-nullish `v`: own properties of plain objects; `undefined` otherwise. */
  function Prop(v: Value, key: string): (r: Value)
    requires !Nullish(v)
    ensures !v.Obj? ==> r == Undefined
    ensures v.Obj? && key !in v.props ==> r == Undefined
  {
    if v.Obj? && key in v.props then v.props[key] else Undefined
  }

  /** A property of a plain object (a parsed request body). */
  function Field(body: map<string, Value>, key: string): Value
  {
    Prop(Obj(body), key)
  }

  /** The decimal spelling of an index, the key under which `o[i]` looks up a plain object. */
  function DecimalKey(i: nat): (r: string)
    ensures r != []
    ensures forall k :: 0 <= k < |r| ==> '0' <= r[k] <= '9'
  {
    if i < 10 then [('0' as int + i) as char]
    else DecimalKey(i / 10) + [('0' as int + i % 10) as char]
  }

  /** `v[i]` for a non-nullish `v`: array elements, the characters of a string, object properties named by the decimal index. */
  function Index(v: Value, i: nat): (r: Value)
    requires !Nullish(v)
    ensures v.Arr? && i < |v.elems| ==> r == v.elems[i]
    ensures v.Arr? && i >= |v.elems| ==> r == Undefined
    ensures v.Num? || v.Bool? ==> r == Undefined
  {
    match v
    case Arr(es) => if i < |es| then es[i] else Undefined
    case Str(s) => if i < |s| then Str([s[i]]) else Undefined
    case Obj(_) => Prop(v, DecimalKey(i))
    case _ => Undefined
  }

  /** Whether `const [a, b] = v` succeeds: only arrays and strings are iterable among these values. */
  predicate Iterable(v: Value)
  {
    v.Arr? || v.Str?
  }

  /** The `i`-th value that array destructuring binds from an iterable `v`. */
  function Destructure(v: Value, i: nat): (r: Value)
    requires Iterable(v)
    ensures v.Arr? ==> r == (if i < |v.elems| then v.elems[i] else Undefined)
  {
    Index(v, i)
  }

  /** `Number.isInteger(v)` (no NaN or infinities among these numbers). */
  predicate IsInteger(v: Value)
  {
    v.Num? && v.n.Floor as real == v.n
  }

  /** `v < bound` for the values the model compares: true only for numbers below `bound`. */
  predicate Below(v: Value, bound: real)
  {
    v.Num? && v.n < bound
  }

  /** `v > bound`, in the same sense as `Below`. */
  predicate Above(v: Value, bound: real)
  {
    v.Num? && v.n > bound
  }
}
