/** The JavaScript values the services read from parsed XML and JSON documents, with the
    few coercions the code applies to them. Numbers are integers: fractions, infinities
    and -0 are not modelled. */
module Js {
  import opened Wrappers
  import opened Text
  import opened DomainModel

  datatype Value =
    | Undefined
    | Null
    | Str(s: string)
    | Num(n: int)
    | Bool(b: bool)
    | Arr(items: seq<Value>)
    | Obj(fields: map<string, Value>)

  predicate Nullish(v: Value) {
    v.Undefined? || v.Null?
  }

  /** Truthiness: `''`, `0`, `false`, `null` and `undefined` are false. */
  predicate Truthy(v: Value) {
    match v
    case Undefined => false
    case Null => false
    case Str(s) => s != ""
    case Num(n) => n != 0
    case Bool(b) => b
    case Arr(_) => true
    case Obj(_) => true
  }

  /** `v?.[key]`: a field of an object; `undefined` for anything else or a missing key. */
  function Get(v: Value, key: string): (r: Value)
    ensures !v.Obj? ==> r == Undefined
  {
    if v.Obj? && key in v.fields then v.fields[key] else Undefined
  }

  /** `a ?? b` */
  function Coalesce(a: Value, b: Value): (r: Value)
    ensures Nullish(a) ==> r == b
    ensures !Nullish(a) ==> r == a
  {
    if Nullish(a) then b else a
  }

  /** `a || b` */
  function Or(a: Value, b: Value): (r: Value)
    ensures Truthy(a) ==> r == a
    ensures !Truthy(a) ==> r == b
  {
    if Truthy(a) then a else b
  }

  /** `String(v)`; an array joins its elements with ",", writing nothing for `null` and
      `undefined` elements. */
  function ToString(v: Value): string
    decreases v
  {
    match v
    case Undefined => "undefined"
    case Null => "null"
    case Str(s) => s
    case Num(n) => IntToString(n)
    case Bool(b) => if b then "true" else "false"
    case Arr(items) => JoinElements(items)
    case Obj(_) => "[object Object]"
  }

  function JoinElements(items: seq<Value>): string
    decreases items
  {
    if |items| == 0 then ""
    else
      var first := if Nullish(items[0]) then "" else ToString(items[0]);
      if |items| == 1 then first else first + "," + JoinElements(items[1..])
  }

  /** A number this value model can hold: a finite whole number. */
  function WholeNumber(n: JsNumber): (r: Option<int>)
    ensures r.Some? <==> n.Finite? && (n.value.exponent >= 0 || n.value.mantissa % Pow10(-n.value.exponent) == 0)
    ensures r.Some? ==> r.value == Trunc(n.value)
  {
    if n.Finite? && (n.value.exponent >= 0 || n.value.mantissa % Pow10(-n.value.exponent) == 0)
    then Some(Trunc(n.value)) else None
  }

  /** `Number(v)`, with `None` for `NaN`. Numbers here are whole, so a string that reads
      as a fraction or an infinity is `None` as well. */
  function ToNumber(v: Value): (r: Option<int>)
    ensures v.Num? ==> r == Some(v.n)
    ensures v.Undefined? ==> r.None?
    ensures v.Null? ==> r == Some(0)
  {
    match v
    case Undefined => None
    case Null => Some(0)
    case Str(s) => WholeNumber(NumberOf(s))
    case Num(n) => Some(n)
    case Bool(b) => Some(if b then 1 else 0)
    case _ => WholeNumber(NumberOf(ToString(v)))
  }

  /** `Number(v) || 0` */
  function NumberOrZero(v: Value): (r: int)
    ensures ToNumber(v).Some? ==> r == ToNumber(v).value
    ensures ToNumber(v).None? ==> r == 0
  {
    var n := ToNumber(v);
    if n.Some? then n.value else 0
  }

  /** `ensureArray`: nothing for `null` and `undefined`, an array as it is, anything
      else as a one-element array. */
  function EnsureArray(v: Value): (r: seq<Value>)
    ensures Nullish(v) ==> r == []
    ensures v.Arr? ==> r == v.items
    ensures !Nullish(v) && !v.Arr? ==> r == [v]
  {
    match v
    case Undefined => []
    case Null => []
    case Arr(items) => items
    case _ => [v]
  }

  /** Wrapping a single value and unwrapping it again gives it back; an array is its own
      list of elements. */
  lemma EnsureArrayOfOne(v: Value)
    requires !Nullish(v)
    ensures EnsureArray(Arr([v])) == [v]
    ensures !v.Arr? ==> EnsureArray(v) == EnsureArray(Arr([v]))
  {
  }
}
