/** JavaScript values as the page script sees them after JSON decoding, with the
    few JavaScript operations on them that the script relies on: truthiness,
    `Number.isInteger` and `Math.round`. Numbers are exact reals here; IEEE
    rounding is not modelled. */
module Js {

  /** A JSON value, plus `Undefined` for a property that is absent. */
  datatype Json =
    | Undefined
    | Null
    | Bool(b: bool)
    | Num(x: real)
    | Str(s: string)
    | Arr(items: seq<Json>)
    | Obj(fields: map<string, Json>)

  /** JavaScript's ToBoolean on a JSON value: `undefined`, `null`, `false`, `0`
      and `""` are falsy, everything else (every array and object) is truthy. */
  predicate Truthy(v: Json) {
    match v
    case Undefined => false
    case Null => false
    case Bool(b) => b
    case Num(x) => x != 0.0
    case Str(s) => s != ""
    case Arr(_) => true
    case Obj(_) => true
  }

  /** `Number.isInteger(v)`: a number with no fractional part. */
  predicate IsInteger(v: Json) {
    v.Num? && v.x.Floor as real == v.x
  }

  /** The integer that `Number.isInteger` has accepted. */
  function IntegerValue(v: Json): (n: int)
    requires IsInteger(v)
    ensures n as real == v.x
  {
    v.x.Floor
  }

  /** `obj.key` on a decoded JSON value: only an object has own properties here. */
  function Get(v: Json, key: string): (r: Json)
    ensures r != Undefined ==> v.Obj? && key in v.fields && r == v.fields[key]
  {
    if v.Obj? && key in v.fields then v.fields[key] else Undefined
  }

  function Abs(x: real): (r: real)
    ensures r >= 0.0 && (r == x || r == -x)
  {
    if x < 0.0 then -x else x
  }

  /** `Math.round(x)`: the nearest integer, halves rounded up (towards +infinity). */
  function Round(x: real): (n: int)
    ensures n as real - 0.5 <= x < n as real + 0.5
  {
    (x + 0.5).Floor
  }

  /** `Math.round(Math.abs(id / 10))` for an integer `id` is `(|id| + 5) / 10` in
      integer division. */
  lemma {:induction false} RoundAbsTenth(id: int)
    ensures Round(Abs(id as real / 10.0)) == ((if id < 0 then -id else id) + 5) / 10
  {
    var a := if id < 0 then -id else id;
    var q := (a + 5) / 10;
    var m := (a + 5) % 10;
    assert a + 5 == 10 * q + m && 0 <= m < 10;
    assert Abs(id as real / 10.0) == a as real / 10.0;
    var x := a as real / 10.0;
    assert x + 0.5 == q as real + m as real / 10.0;
    FloorOf(x + 0.5, q);
  }

  /** The floor of a real between `k` and `k + 1` is `k`. */
  lemma {:induction false} FloorOf(x: real, k: int)
    requires k as real <= x < k as real + 1.0
    ensures x.Floor == k
  {
  }
}
