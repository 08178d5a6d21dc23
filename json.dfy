/**
 * The JavaScript values that travel in a block's `props` bag and in API payloads, with the
 * handful of JavaScript semantics the editor relies on: truthiness (`x || d`, `if (x)`),
 * property reads (`v.k`, `v[k]`), object spread (`{...v, k: x}`) and the string coercion
 * performed by `+`.
 */
module Json {
  import opened Base

  /** A JSON-like value. Numbers are integers; `undefined` is an absent `Option`. */
  datatype Value =
    | Null
    | Bool(b: bool)
    | Num(n: int)
    | Str(s: string)
    | Arr(items: seq<Value>)
    | Obj(fields: map<string, Value>)

  /** JavaScript truthiness: `null`, `false`, `0` and `""` are falsy; arrays and objects are truthy. */
  predicate Truthy(v: Value) {
    match v
    case Null => false
    case Bool(b) => b
    case Num(n) => n != 0
    case Str(s) => s != ""
    case Arr(_) => true
    case Obj(_) => true
  }

  /** Truthiness of a property read that may give `undefined`. */
  predicate Present(v: Option<Value>) {
    v.Some? && Truthy(v.value)
  }

  /** The index `i < n` whose decimal form is the property key `k`, if any. */
  function IndexKey(k: string, n: nat): (r: Option<nat>)
    ensures r.Some? ==> r.value < n && NatToString(r.value) == k
    ensures r.None? ==> forall i :: 0 <= i < n ==> NatToString(i) != k
  {
    if n == 0 then None
    else if NatToString(n - 1) == k then Some(n - 1)
    else IndexKey(k, n - 1)
  }

  /** The keys "0", "1", ..., decimal forms of the indices below `n`. */
  function IndexKeys(n: nat): (ks: set<string>)
    ensures forall k :: k in ks <==> IndexKey(k, n).Some?
  {
    set i | 0 <= i < n :: NatToString(i)
  }

  /** `v[k]`: own properties of objects, indices and `length` of arrays and strings; `None` is `undefined`. */
  function Prop(v: Value, k: string): Option<Value> {
    match v
    case Obj(f) => if k in f then Some(f[k]) else None
    case Arr(items) =>
      if k == "length" then Some(Num(|items|))
      else (match IndexKey(k, |items|)
            case Some(i) => Some(items[i])
            case None => None)
    case Str(s) =>
      if k == "length" then Some(Num(|s|))
      else (match IndexKey(k, |s|)
            case Some(i) => Some(Str([s[i]]))
            case None => None)
    case _ => None
  }

  /** The own enumerable properties that `{...v}` copies. */
  function Spread(v: Value): (m: map<string, Value>)
    ensures forall k :: k in m <==> (k != "length" || v.Obj?) && Prop(v, k).Some?
    ensures forall k :: k in m ==> Some(m[k]) == Prop(v, k)
  {
    match v
    case Obj(f) => f
    case Arr(items) => map k | k in IndexKeys(|items|) :: items[IndexKey(k, |items|).value]
    case Str(s) => map k | k in IndexKeys(|s|) :: Str([s[IndexKey(k, |s|).value]])
    case _ => map[]
  }

  /**
   * `{...v, k: x}` when `x` is `Some`, and the same spread with `k: undefined` when it is `None`
   * (an undefined property is dropped by JSON.stringify and reads as absent everywhere in the editor).
   */
  function With(v: Value, k: string, x: Option<Value>): (r: Value)
    ensures r.Obj?
    ensures Prop(r, k) == x
    ensures forall j :: j != k ==> Prop(r, j) == (if j == "length" && !v.Obj? then None else Prop(v, j))
  {
    match x
    case Some(y) => Obj(Spread(v)[k := y])
    case None => Obj(Spread(v) - {k})
  }

  /** `{...v, k: x}` for a defined `x`. */
  function Set(v: Value, k: string, x: Value): (r: Value)
    ensures r.Obj? && Prop(r, k) == Some(x)
    ensures v.Obj? ==> forall j :: j != k ==> Prop(r, j) == Prop(v, j)
  {
    With(v, k, Some(x))
  }

  /** `String(v)`, the coercion `+` applies when one side is a string or an object. */
  function ToJsString(v: Value): string
    decreases v, 1, 0
  {
    match v
    case Null => "null"
    case Bool(b) => if b then "true" else "false"
    case Num(n) => IntToString(n)
    case Str(s) => s
    case Obj(_) => "[object Object]"
    case Arr(items) => JoinFrom(v, 0)
  }

  /** `Array.prototype.join(",")` over the items of `whole` from index `i` on: null items print as "". */
  function JoinFrom(whole: Value, i: nat): string
    requires whole.Arr? && i <= |whole.items|
    decreases whole, 0, |whole.items| - i
  {
    if i == |whole.items| then ""
    else
      var item := whole.items[i];
      var first := if item.Null? then "" else ToJsString(item);
      if i + 1 == |whole.items| then first else first + "," + JoinFrom(whole, i + 1)
  }

  /** `(x || 0) + 1` for a property read `x`, with JavaScript's coercions. */
  function PlusOne(x: Option<Value>): (r: Value)
    ensures x.None? || !Truthy(x.value) ==> r == Num(1)
    ensures x.Some? && x.value.Num? ==> r == Num(x.value.n + 1)
  {
    if !Present(x) then Num(1)
    else match x.value
      case Num(n) => Num(n + 1)
      case Bool(_) => Num(2)
      case Str(s) => Str(s + "1")
      case Obj(_) => Str("[object Object]1")
      case Arr(_) => Str(ToJsString(x.value) + "1")
      case Null => Num(1)
  }
}
