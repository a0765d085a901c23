/**
 * Python's `dict` with string keys, as the sequence of its items in insertion
 * order. A dict built by `Put` and `PutAll` never holds a key twice (`Distinct`);
 * assigning to a key that is present keeps its position and replaces its value,
 * assigning to a new key appends it.
 */
module Dicts {
  import opened Wrappers

  type Dict<V> = seq<(string, V)>

  /** The keys of the items, as a set. */
  function Keys<V>(d: seq<(string, V)>): set<string>
  {
    if d == [] then {} else {d[0].0} + Keys(d[1..])
  }

  /** The keys of the items, in order: `list(d.keys())`. */
  function KeyList<V>(d: seq<(string, V)>): (ks: seq<string>)
    ensures |ks| == |d|
    ensures forall i :: 0 <= i < |d| ==> ks[i] == d[i].0
  {
    if d == [] then [] else [d[0].0] + KeyList(d[1..])
  }

  /** No key occurs twice: what every Python dict satisfies. */
  predicate Distinct<V>(d: seq<(string, V)>)
  {
    d == [] || (d[0].0 !in Keys(d[1..]) && Distinct(d[1..]))
  }

  /** `d.get(k)`: the value of the first item whose key is `k`. */
  function Get<V>(d: seq<(string, V)>, k: string): (r: Option<V>)
    ensures r.Some? <==> k in Keys(d)
    ensures r.Some? ==> (k, r.value) in d
  {
    if d == [] then None
    else if d[0].0 == k then Some(d[0].1)
    else Get(d[1..], k)
  }

  /** The value carried by the LAST pair whose key is `k`. */
  function GetLast<V>(ps: seq<(string, V)>, k: string): (r: Option<V>)
    ensures r.Some? <==> k in Keys(ps)
    ensures r.Some? ==> (k, r.value) in ps
  {
    if ps == [] then None
    else
      var later := GetLast(ps[1..], k);
      if later.Some? then later
      else if ps[0].0 == k then Some(ps[0].1)
      else None
  }

  /** `d[k] = v` */
  function Put<V>(d: Dict<V>, k: string, v: V): (r: Dict<V>)
    ensures Get(r, k) == Some(v)
    ensures forall k' :: k' != k ==> Get(r, k') == Get(d, k')
    ensures Keys(r) == Keys(d) + {k}
    ensures |r| <= |d| + 1
    ensures Distinct(d) ==> Distinct(r)
    ensures forall e :: e in r ==> e in d || e == (k, v)
  {
    if d == [] then [(k, v)]
    else if d[0].0 == k then [(k, v)] + d[1..]
    else [d[0]] + Put(d[1..], k, v)
  }

  /**
   * `d.update(ps)`: assigns the pairs of `ps` one after the other, so the last
   * pair with a given key wins. `PutAll([], ps)` is `dict(ps)`.
   */
  function PutAll<V>(d: Dict<V>, ps: seq<(string, V)>): (r: Dict<V>)
    ensures forall k :: Get(r, k) == if k in Keys(ps) then GetLast(ps, k) else Get(d, k)
    ensures Keys(r) == Keys(d) + Keys(ps)
    ensures |r| <= |d| + |ps|
    ensures Distinct(d) ==> Distinct(r)
    ensures forall e :: e in r ==> e in d || e in ps
    decreases ps
  {
    if ps == [] then d else PutAll(Put(d, ps[0].0, ps[0].1), ps[1..])
  }

  lemma {:induction false} KeysConcat<V>(a: seq<(string, V)>, b: seq<(string, V)>)
    ensures Keys(a + b) == Keys(a) + Keys(b)
  {
    if a == [] {
      assert a + b == b;
    } else {
      assert (a + b)[1..] == a[1..] + b;
      KeysConcat(a[1..], b);
    }
  }

  lemma {:induction false} KeyOfMember<V>(ps: seq<(string, V)>, k: string, v: V)
    requires (k, v) in ps
    ensures k in Keys(ps)
  {
    if ps[0] != (k, v) {
      KeyOfMember(ps[1..], k, v);
    }
  }

  /** Assigning twice to one key leaves only the second value. */
  lemma {:induction false} PutOverwrite<V>(d: Dict<V>, k: string, a: V, b: V)
    ensures Put(Put(d, k, a), k, b) == Put(d, k, b)
  {
    if d != [] && d[0].0 != k {
      PutOverwrite(d[1..], k, a, b);
    }
  }

  /** Assigning to a key already present commutes with any other assignment. */
  lemma {:induction false} PutCommute<V>(d: Dict<V>, k: string, v: V, k': string, w: V)
    requires k in Keys(d) && k != k'
    ensures Put(Put(d, k', w), k, v) == Put(Put(d, k, v), k', w)
  {
    if d[0].0 != k && d[0].0 != k' {
      PutCommute(d[1..], k, v, k', w);
    }
  }

  /** An assignment to a present key that no later pair touches can be done first. */
  lemma {:induction false} PutAllThenPut<V>(d: Dict<V>, ps: seq<(string, V)>, k: string, v: V)
    requires k in Keys(d) && k !in Keys(ps)
    ensures Put(PutAll(d, ps), k, v) == PutAll(Put(d, k, v), ps)
    decreases ps
  {
    if ps != [] {
      var d' := Put(d, ps[0].0, ps[0].1);
      PutAllThenPut(d', ps[1..], k, v);
      PutCommute(d, k, v, ps[0].0, ps[0].1);
    }
  }

  /** Updating with a dict after one assignment is updating and then assigning. */
  lemma {:induction false} PutAllPut<V>(d: Dict<V>, e: Dict<V>, k: string, v: V)
    requires Distinct(e)
    ensures PutAll(d, Put(e, k, v)) == Put(PutAll(d, e), k, v)
    decreases e
  {
    if e == [] {
    } else if e[0].0 == k {
      assert Put(e, k, v)[1..] == e[1..];
      PutAllThenPut(Put(d, k, e[0].1), e[1..], k, v);
      PutOverwrite(d, k, e[0].1, v);
    } else {
      assert Put(e, k, v)[1..] == Put(e[1..], k, v);
      PutAllPut(Put(d, e[0].0, e[0].1), e[1..], k, v);
    }
  }

  /**
   * `d.update(e.update(ps))` is `d.update(e)` followed by `d.update(ps)`; with
   * `e` empty: updating with `dict(ps)` is updating with the pairs `ps`.
   */
  lemma {:induction false} PutAllOfDict<V>(d: Dict<V>, e: Dict<V>, ps: seq<(string, V)>)
    requires Distinct(e)
    ensures PutAll(d, PutAll(e, ps)) == PutAll(PutAll(d, e), ps)
    decreases ps
  {
    if ps != [] {
      PutAllOfDict(d, Put(e, ps[0].0, ps[0].1), ps[1..]);
      PutAllPut(d, e, ps[0].0, ps[0].1);
    }
  }

  lemma {:induction false} PutAllConcat<V>(d: Dict<V>, xs: seq<(string, V)>, ys: seq<(string, V)>)
    ensures PutAll(d, xs + ys) == PutAll(PutAll(d, xs), ys)
    decreases xs
  {
    if xs == [] {
      assert xs + ys == ys;
    } else {
      var d' := Put(d, xs[0].0, xs[0].1);
      assert (xs + ys)[0] == xs[0] && (xs + ys)[1..] == xs[1..] + ys;
      assert PutAll(d, xs + ys) == PutAll(d', xs[1..] + ys);
      PutAllConcat(d', xs[1..], ys);
    }
  }

  /** Assigning to a new key appends the item at the end. */
  lemma {:induction false} PutFresh<V>(d: Dict<V>, k: string, v: V)
    requires k !in Keys(d)
    ensures Put(d, k, v) == d + [(k, v)]
  {
    if d != [] {
      calc {
        Put(d, k, v);
        [d[0]] + Put(d[1..], k, v);
        { PutFresh(d[1..], k, v); }
        [d[0]] + (d[1..] + [(k, v)]);
        { assert [d[0]] + d[1..] == d; }
        d + [(k, v)];
      }
    }
  }

  /** Assigning to a key that is present replaces its value in place: no item moves. */
  lemma {:induction false} PutPresent<V>(d: Dict<V>, k: string, v: V)
    requires Distinct(d) && k in Keys(d)
    ensures |Put(d, k, v)| == |d|
    ensures forall i :: 0 <= i < |d| ==> Put(d, k, v)[i] == if d[i].0 == k then (k, v) else d[i]
  {
    if d[0].0 != k {
      PutPresent(d[1..], k, v);
    } else {
      forall i | 1 <= i < |d|
        ensures d[i].0 != k
      {
        assert d[i] == d[1..][i - 1];
        KeyOfMember(d[1..], d[i].0, d[i].1);
      }
    }
  }

  lemma {:induction false} DistinctConcat<V>(a: seq<(string, V)>, b: seq<(string, V)>)
    ensures Distinct(a + b) <==> Distinct(a) && Distinct(b) && Keys(a) !! Keys(b)
  {
    if a == [] {
      assert a + b == b;
    } else {
      assert (a + b)[0] == a[0] && (a + b)[1..] == a[1..] + b;
      DistinctConcat(a[1..], b);
      KeysConcat(a[1..], b);
    }
  }

  lemma PutAllOne<V>(d: Dict<V>, k: string, v: V)
    ensures PutAll(d, [(k, v)]) == Put(d, k, v)
  {
    assert [(k, v)][1..] == [];
  }

  /** Pairs with distinct keys none of which is in `d` are appended as they are. */
  lemma {:induction false} PutAllFresh<V>(d: Dict<V>, ps: seq<(string, V)>)
    requires Distinct(d + ps)
    ensures PutAll(d, ps) == d + ps
    decreases |ps|
  {
    if ps == [] {
      assert d + ps == d;
    } else {
      var init, x := ps[..|ps| - 1], ps[|ps| - 1];
      assert ps == init + [x];
      assert d + ps == (d + init) + [x];
      DistinctConcat(d + init, [x]);
      assert [x][1..] == [];
      PutAllFresh(d, init);
      PutAllConcat(d, init, [x]);
      PutAllOne(d + init, x.0, x.1);
      PutFresh(d + init, x.0, x.1);
    }
  }

  /** When every pair with key `k` carries `v`, the last one does. */
  lemma {:induction false} GetLastUniform<V>(ps: seq<(string, V)>, k: string, v: V)
    requires k in Keys(ps)
    requires forall e :: e in ps && e.0 == k ==> e.1 == v
    ensures GetLast(ps, k) == Some(v)
  {
  }
}
