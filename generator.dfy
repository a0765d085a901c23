/**
 * `generate_random_data` of Firehose/lambda/generator.py: the nested record the
 * generator puts on the Kinesis stream. `random.random()` is called three
 * times; each call's result is a parameter here (a "draw": a multiple of
 * `2^-53` in [0, 1), as CPython's `random.random()` returns), in the order the
 * source makes the calls.
 */
module Generator {
  import opened Dicts
  import opened JsonValues

  const Measures: seq<string> := ["measure_0", "measure_1", "measure_2", "measure_3"]

  datatype Customer = Customer(id: string, zip: string)

  const Customers: seq<Customer> := [
    Customer("0", "55111"),
    Customer("1", "59103"),
    Customer("2", "80808"),
    Customer("3", "19022"),
    Customer("4", "49494")
  ]

  /** `2^53`: `random.random()` returns a multiple of `2^-53`. */
  const Two53: nat := 0x20_0000_0000_0000

  /**
   * The draw `k / 2^53`. The divisor is `Two53` written as a real literal, so
   * that the arithmetic on draws stays linear for the verifier.
   */
  function Grid(k: int): real
  {
    k as real / 9007199254740992.0
  }

  /** A value `random.random()` can return: `k / 2^53` for an integer `0 <= k < 2^53`. */
  ghost predicate IsDraw(x: real)
  {
    exists k: nat :: k < Two53 && x == Grid(k)
  }

  lemma DrawInUnit(x: real)
    requires IsDraw(x)
    ensures 0.0 <= x < 1.0
  {
  }

  lemma {:induction false} Pow2Add(a: nat, b: nat)
    ensures Pow2(a + b) == Pow2(a) * Pow2(b)
  {
    if a > 0 {
      Pow2Add(a - 1, b);
    }
  }

  lemma Pow2Of53()
    ensures Pow2(53) == Two53
  {
    assert Pow2(1) == 2;
    assert Pow2(2) == 4;
    assert Pow2(3) == 8;
    assert Pow2(4) == 16;
    assert Pow2(5) == 32;
    Pow2Add(5, 5);
    assert Pow2(10) == 1024;
    Pow2Add(10, 10);
    assert Pow2(20) == 1048576;
    Pow2Add(20, 20);
    assert Pow2(40) == 1099511627776;
    Pow2Add(40, 10);
    assert Pow2(50) == 1125899906842624;
    Pow2Add(50, 3);
  }

  /** A draw times an integer is a number Python holds: `k * c / 2^53`. */
  lemma ScaledDrawIsDyadic(k: int, c: int)
    ensures IsDyadic(Grid(k) * c as real)
  {
    Pow2Of53();
    assert Grid(k) * c as real == Dyadic(k * c, 53);
  }

  /** `random.random() * 100` is a number in [0, 100) that Python can hold. */
  lemma MeasureValue(draw: real)
    requires IsDraw(draw)
    ensures 0.0 <= draw * 100.0 < 100.0 && IsDyadic(draw * 100.0)
  {
    var k: nat :| k < Two53 && draw == Grid(k);
    ScaledDrawIsDyadic(k, 100);
  }

  /** `math.floor(draw * n)`: the position a draw selects in a list of `n`. */
  function Pick(draw: real, n: nat): (i: nat)
    requires IsDraw(draw) && n > 0
    ensures i < n
  {
    DrawInUnit(draw);
    assert 0.0 <= draw * n as real < n as real;
    (draw * n as real).Floor
  }

  /** The least draw at or above `i / n`: `ceil(i * 2^53 / n) / 2^53`. */
  function DrawFor(i: nat, n: nat): real
    requires n > 0
  {
    Grid((i * Two53 + n - 1) / n)
  }

  /** `k = ceil(i * 2^53 / n)` is below `2^53`, and `k * n` lies in [i * 2^53, (i + 1) * 2^53). */
  lemma CeilingStep(i: nat, n: nat)
    requires i < n <= Two53
    ensures var k := (i * Two53 + n - 1) / n;
            k < Two53 && i * Two53 <= k * n < (i + 1) * Two53
  {
    var a := i * Two53 + n - 1;
    var k := a / n;
    var r := a % n;
    assert a == k * n + r && 0 <= r < n;
    assert i * Two53 <= k * n;
    assert k * n < (i + 1) * Two53;
    assert (i + 1) * Two53 <= n * Two53;
  }

  /** `floor(k / 2^53 * n) == i` when `k * n` lies in [i * 2^53, (i + 1) * 2^53). */
  lemma FloorOfGrid(k: int, n: nat, i: int)
    requires i * Two53 <= k * n < (i + 1) * Two53
    ensures (Grid(k) * n as real).Floor == i
  {
    var kn := k * n;
    assert Grid(k) * n as real == kn as real / 9007199254740992.0;
  }

  /** Every position of a list of at most `2^53` items is selected by some draw: `DrawFor(i, n)`. */
  lemma PickReaches(i: nat, n: nat)
    requires i < n <= Two53
    ensures IsDraw(DrawFor(i, n)) && Pick(DrawFor(i, n), n) == i
  {
    var k := (i * Two53 + n - 1) / n;
    CeilingStep(i, n);
    FloorOfGrid(k, n, i);
  }

  /** The `metadata` dict of a record for customer `c`. */
  function Metadata(c: Customer): Dict<Json>
  {
    [("customer_id", JStr(c.id)), ("zip_code", JStr(c.zip)), ("something_else", JStr("value"))]
  }

  /**
   * `generate_random_data()`: a dict with keys `measure_name` (one of the
   * measures), `measure_value` (in [0, 100)) and `metadata` (a customer's id
   * and zip code), in that order.
   */
  function GenerateRandomData(customerDraw: real, measureDraw: real, valueDraw: real): (r: Json)
    requires IsDraw(customerDraw) && IsDraw(measureDraw) && IsDraw(valueDraw)
    ensures r.JObj? && KeyList(r.fields) == ["measure_name", "measure_value", "metadata"]
    ensures r.fields[0].1.JStr? && r.fields[0].1.s in Measures
    ensures r.fields[1].1.JNum? && 0.0 <= r.fields[1].1.n < 100.0
    ensures exists c :: c in Customers && r.fields[2].1 == JObj(Metadata(c))
    ensures WellFormed(r)
  {
    var customer := Customers[Pick(customerDraw, |Customers|)];
    var fields := [
      ("measure_name", JStr(Measures[Pick(measureDraw, |Measures|)])),
      ("measure_value", JNum(valueDraw * 100.0)),
      ("metadata", JObj(Metadata(customer)))
    ];
    assert Distinct(fields) && Distinct(Metadata(customer)) by {
      DistinctThree(fields);
      DistinctThree(Metadata(customer));
    }
    assert WellFormed(JObj(Metadata(customer)));
    MeasureValue(valueDraw);
    assert KeyList(fields) == ["measure_name", "measure_value", "metadata"] by {
      var ks := KeyList(fields);
      assert |ks| == 3 && ks[0] == "measure_name" && ks[1] == "measure_value" && ks[2] == "metadata";
    }
    JObj(fields)
  }

  lemma DistinctThree<V>(d: Dict<V>)
    requires |d| == 3 && d[0].0 != d[1].0 && d[0].0 != d[2].0 && d[1].0 != d[2].0
    ensures Distinct(d)
  {
    var tail, last := d[1..], d[2..];
    assert last[1..] == [] && Keys(last[1..]) == {};
    assert Keys(last) == {d[2].0} && Distinct(last);
    assert tail[0] == d[1] && tail[1..] == last;
    assert Keys(tail) == {d[1].0, d[2].0} && Distinct(tail);
  }

  /** Every measure, every customer and every value the generator can draw, `100 * k / 2^53`, can be generated. */
  lemma GeneratesEveryRecord(m: nat, c: nat, k: nat)
    requires m < |Measures| && c < |Customers| && k < Two53
    ensures exists cd, md, vd :: IsDraw(cd) && IsDraw(md) && IsDraw(vd) &&
              GenerateRandomData(cd, md, vd) ==
                JObj([("measure_name", JStr(Measures[m])),
                      ("measure_value", JNum(Grid(k) * 100.0)),
                      ("metadata", JObj(Metadata(Customers[c])))])
  {
    var cd, md, vd := DrawFor(c, |Customers|), DrawFor(m, |Measures|), Grid(k);
    PickReaches(c, |Customers|);
    PickReaches(m, |Measures|);
    assert GenerateRandomData(cd, md, vd) ==
             JObj([("measure_name", JStr(Measures[m])),
                   ("measure_value", JNum(Grid(k) * 100.0)),
                   ("metadata", JObj(Metadata(Customers[c])))]);
  }
}
