/**
 * The values `json.loads` produces and `json.dumps` consumes, for texts whose
 * strings hold only Unicode scalar values (Dafny's `char`). An object is a
 * Python dict: its items in insertion order. A number is a Python `int` or
 * `float`; both are dyadic rationals `m / 2^e`, and `WellFormed` says so.
 */
module JsonValues {
  import opened Wrappers
  import opened Dicts

  datatype Json =
    | JNull
    | JBool(b: bool)
    | JNum(n: real)
    | JStr(s: string)
    | JArr(items: seq<Json>)
    | JObj(fields: Dict<Json>)

  /** `2^e` */
  function Pow2(e: nat): (r: nat)
    ensures r > 0
  {
    if e == 0 then 1 else 2 * Pow2(e - 1)
  }

  /** The number `m / 2^e`. */
  function Dyadic(m: int, e: nat): real
  {
    m as real / Pow2(e) as real
  }

  /** `x` is `m / 2^e` for some integers `m` and `e`: every int and every finite float is. */
  ghost predicate IsDyadic(x: real)
  {
    exists m: int, e: nat :: x == Dyadic(m, e)
  }

  /**
   * `j` is a value Python can hold: every object inside it has distinct keys,
   * as every dict does, and every number is dyadic, as every int and float is.
   */
  ghost predicate WellFormed(j: Json)
  {
    match j
    case JNum(x) => IsDyadic(x)
    case JArr(items) => forall i :: 0 <= i < |items| ==> WellFormed(items[i])
    case JObj(fields) => Distinct(fields) && forall i :: 0 <= i < |fields| ==> WellFormed(fields[i].1)
    case _ => true
  }

  /** No value is itself a dict: the one-level shape `flatten` produces. */
  predicate Flat(d: seq<(string, Json)>)
  {
    forall e :: e in d ==> !e.1.JObj?
  }

  /** `data[k1][k2]...[kn]`, or None where a key is missing or a value is not a dict. */
  function At(j: Json, path: seq<string>): Option<Json>
  {
    if path == [] then Some(j)
    else if !j.JObj? then None
    else
      match Get(j.fields, path[0])
      case None => None
      case Some(v) => At(v, path[1..])
  }

  lemma {:induction false} Pow2NotMultipleOf3(e: nat)
    ensures Pow2(e) % 3 != 0
  {
    if e > 0 {
      Pow2NotMultipleOf3(e - 1);
      var p := Pow2(e - 1);
      var q, r := p / 3, p % 3;
      assert p == 3 * q + r && (r == 1 || r == 2);
      assert Pow2(e) == 3 * (2 * q) + 2 * r;
    }
  }

  /** Not every real is a number Python holds: no int or float is one third. */
  lemma ThirdIsNotANumber()
    ensures !WellFormed(JNum(1.0 / 3.0))
  {
    if m: int, e: nat :| 1.0 / 3.0 == Dyadic(m, e) {
      assert Pow2(e) as real == 3.0 * m as real;
      assert Pow2(e) == 3 * m;
      Pow2NotMultipleOf3(e);
    }
  }
}
