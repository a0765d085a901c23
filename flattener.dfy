/**
 * `flatten` of KinesisToFirehoseToS3/lambda/flattener.py: a nested dict becomes
 * a one-level dict whose keys are the dotted paths to the non-dict values.
 *
 * The method `Flatten` follows the Python code: a loop over the items that
 * assigns leaves into `items` and merges the result of a recursive call for a
 * nested dict. `FlattenFrom` is the same computation as a function, and
 * `Leaves` is an independent description: the depth-first list of leaves under
 * their dotted keys. `FlattenedIsDictOfLeaves` proves that flatten(data) is
 * dict(Leaves(data)), from which the key, value, size and idempotence lemmas
 * follow.
 */
module Flattener {
  import opened Wrappers
  import opened Dicts
  import opened JsonValues

  /** The key of child `k` below `parentKey`; an empty parent key adds no prefix. */
  function NewKey(parentKey: string, sep: string, k: string): string
  {
    if parentKey != "" then parentKey + sep + k else k
  }

  /**
   * The dict the loop of `flatten` holds at the end when it holds `items`
   * before visiting item `i` of `fields`.
   */
  function FlattenFrom(items: Dict<Json>, fields: Dict<Json>, i: nat, parentKey: string, sep: string): (r: Dict<Json>)
    requires i <= |fields|
    ensures Distinct(items) ==> Distinct(r)
    ensures Flat(items) ==> Flat(r)
    decreases JObj(fields), |fields| - i
  {
    if i == |fields| then items
    else
      var (k, v) := fields[i];
      var newKey := NewKey(parentKey, sep, k);
      var items' := if v.JObj? then PutAll(items, FlattenFrom([], v.fields, 0, newKey, sep)) else Put(items, newKey, v);
      FlattenFrom(items', fields, i + 1, parentKey, sep)
  }

  /** `flatten(data, parent_key, sep)` */
  function Flattened(data: Dict<Json>, parentKey: string, sep: string): (r: Dict<Json>)
    ensures Distinct(r) && Flat(r)
  {
    FlattenFrom([], data, 0, parentKey, sep)
  }

  /** `flatten` as the source writes it: a loop over the items, recursing into nested dicts. */
  method Flatten(data: Dict<Json>, parentKey: string, sep: string) returns (items: Dict<Json>)
    ensures items == Flattened(data, parentKey, sep)
    decreases JObj(data), 0
  {
    items := [];
    var i := 0;
    while i < |data|
      invariant 0 <= i <= |data|
      invariant FlattenFrom(items, data, i, parentKey, sep) == Flattened(data, parentKey, sep)
    {
      var k, v := data[i].0, data[i].1;
      items := FlattenItem(items, NewKey(parentKey, sep, k), v, sep);
      i := i + 1;
    }
  }

  /**
   * The body of the loop of `flatten` for one item: a nested dict is flattened
   * below its key and merged into `items`, any other value is assigned.
   */
  method FlattenItem(items: Dict<Json>, newKey: string, v: Json, sep: string) returns (r: Dict<Json>)
    ensures r == if v.JObj? then PutAll(items, Flattened(v.fields, newKey, sep)) else Put(items, newKey, v)
    decreases v, 1
  {
    if v.JObj? {
      var nested := Flatten(v.fields, newKey, sep);
      r := PutAll(items, nested);
    } else {
      r := Put(items, newKey, v);
    }
  }

  /**
   * The non-dict values inside `fields` from item `i` on, in the order a
   * depth-first walk meets them, each paired with its dotted key.
   */
  function LeavesFrom(fields: Dict<Json>, i: nat, parentKey: string, sep: string): (ls: seq<(string, Json)>)
    requires i <= |fields|
    ensures Flat(ls)
    decreases JObj(fields), |fields| - i, 1
  {
    if i == |fields| then []
    else EntryLeaves(fields, i, parentKey, sep) + LeavesFrom(fields, i + 1, parentKey, sep)
  }

  /** The leaves below item `j` of `fields`: the item itself when its value is not a dict. */
  function EntryLeaves(fields: Dict<Json>, j: nat, parentKey: string, sep: string): (ls: seq<(string, Json)>)
    requires j < |fields|
    ensures Flat(ls)
    decreases JObj(fields), |fields| - j, 0
  {
    var (k, v) := fields[j];
    var newKey := NewKey(parentKey, sep, k);
    if v.JObj? then LeavesFrom(v.fields, 0, newKey, sep) else [(newKey, v)]
  }

  /** All the leaves of `fields`. */
  function Leaves(fields: Dict<Json>, parentKey: string, sep: string): (ls: seq<(string, Json)>)
  {
    LeavesFrom(fields, 0, parentKey, sep)
  }

  /** The key under which the value reached by `path` below `parentKey` is stored. */
  function PathKey(parentKey: string, sep: string, path: seq<string>): string
    decreases path
  {
    if path == [] then parentKey else PathKey(NewKey(parentKey, sep, path[0]), sep, path[1..])
  }

  /** `sep.join(path)` */
  function Join(sep: string, path: seq<string>): string
    requires path != []
  {
    if |path| == 1 then path[0] else path[0] + sep + Join(sep, path[1..])
  }

  /** The leaves of an item depend only on the item. */
  lemma SameEntryLeaves(f: Dict<Json>, i: nat, g: Dict<Json>, j: nat, parentKey: string, sep: string)
    requires i < |f| && j < |g| && f[i] == g[j]
    ensures EntryLeaves(f, i, parentKey, sep) == EntryLeaves(g, j, parentKey, sep)
  {
  }

  lemma {:induction false} LeavesShift(a: Dict<Json>, b: Dict<Json>, j: nat, parentKey: string, sep: string)
    requires j <= |b|
    ensures LeavesFrom(a + b, |a| + j, parentKey, sep) == LeavesFrom(b, j, parentKey, sep)
    decreases |b| - j
  {
    if j < |b| {
      SameEntryLeaves(a + b, |a| + j, b, j, parentKey, sep);
      LeavesShift(a, b, j + 1, parentKey, sep);
      assert LeavesFrom(a + b, |a| + j, parentKey, sep)
          == EntryLeaves(a + b, |a| + j, parentKey, sep) + LeavesFrom(a + b, |a| + j + 1, parentKey, sep);
    }
  }

  lemma {:induction false} LeavesFromConcat(a: Dict<Json>, b: Dict<Json>, i: nat, parentKey: string, sep: string)
    requires i <= |a|
    ensures LeavesFrom(a + b, i, parentKey, sep) == LeavesFrom(a, i, parentKey, sep) + Leaves(b, parentKey, sep)
    decreases |a| - i
  {
    if i == |a| {
      LeavesShift(a, b, 0, parentKey, sep);
      assert LeavesFrom(a, i, parentKey, sep) == [];
      assert [] + Leaves(b, parentKey, sep) == Leaves(b, parentKey, sep);
    } else {
      var here := EntryLeaves(a, i, parentKey, sep);
      SameEntryLeaves(a + b, i, a, i, parentKey, sep);
      LeavesFromConcat(a, b, i + 1, parentKey, sep);
      calc {
        LeavesFrom(a + b, i, parentKey, sep);
        here + LeavesFrom(a + b, i + 1, parentKey, sep);
        here + (LeavesFrom(a, i + 1, parentKey, sep) + Leaves(b, parentKey, sep));
        (here + LeavesFrom(a, i + 1, parentKey, sep)) + Leaves(b, parentKey, sep);
        LeavesFrom(a, i, parentKey, sep) + Leaves(b, parentKey, sep);
      }
    }
  }

  lemma LeavesConcat(a: Dict<Json>, b: Dict<Json>, parentKey: string, sep: string)
    ensures Leaves(a + b, parentKey, sep) == Leaves(a, parentKey, sep) + Leaves(b, parentKey, sep)
  {
    LeavesFromConcat(a, b, 0, parentKey, sep);
  }

  /** Running the loop from item `i` holding `items` is updating `items` with the leaves, one after the other. */
  lemma {:induction false} FlattenFromLeaves(items: Dict<Json>, fields: Dict<Json>, i: nat, parentKey: string, sep: string)
    requires i <= |fields| && Distinct(items)
    ensures FlattenFrom(items, fields, i, parentKey, sep) == PutAll(items, LeavesFrom(fields, i, parentKey, sep))
    decreases JObj(fields), |fields| - i, 1
  {
    if i < |fields| {
      if fields[i].1.JObj? {
        NestedStepLeaves(items, fields, i, parentKey, sep);
      } else {
        LeafStepLeaves(items, fields, i, parentKey, sep);
      }
    }
  }

  /** `FlattenFromLeaves` at an item whose value is a dict. */
  lemma {:induction false} NestedStepLeaves(items: Dict<Json>, fields: Dict<Json>, i: nat, parentKey: string, sep: string)
    requires i < |fields| && fields[i].1.JObj? && Distinct(items)
    ensures FlattenFrom(items, fields, i, parentKey, sep) == PutAll(items, LeavesFrom(fields, i, parentKey, sep))
    decreases JObj(fields), |fields| - i, 0
  {
    var (k, v) := fields[i];
    var newKey := NewKey(parentKey, sep, k);
    var here := LeavesFrom(v.fields, 0, newKey, sep);
    var rest := LeavesFrom(fields, i + 1, parentKey, sep);
    assert LeavesFrom(fields, i, parentKey, sep) == here + rest;
    var items' := PutAll(items, here);
    calc {
      FlattenFrom(items, fields, i, parentKey, sep);
      FlattenFrom(PutAll(items, FlattenFrom([], v.fields, 0, newKey, sep)), fields, i + 1, parentKey, sep);
      { FlattenFromLeaves([], v.fields, 0, newKey, sep); }
      FlattenFrom(PutAll(items, PutAll([], here)), fields, i + 1, parentKey, sep);
      { PutAllOfDict(items, [], here); }
      FlattenFrom(items', fields, i + 1, parentKey, sep);
      { FlattenFromLeaves(items', fields, i + 1, parentKey, sep); }
      PutAll(items', rest);
      { PutAllConcat(items, here, rest); }
      PutAll(items, here + rest);
    }
  }

  /** `FlattenFromLeaves` at an item whose value is not a dict. */
  lemma {:induction false} LeafStepLeaves(items: Dict<Json>, fields: Dict<Json>, i: nat, parentKey: string, sep: string)
    requires i < |fields| && !fields[i].1.JObj? && Distinct(items)
    ensures FlattenFrom(items, fields, i, parentKey, sep) == PutAll(items, LeavesFrom(fields, i, parentKey, sep))
    decreases JObj(fields), |fields| - i, 0
  {
    var (k, v) := fields[i];
    var newKey := NewKey(parentKey, sep, k);
    var here := [(newKey, v)];
    var rest := LeavesFrom(fields, i + 1, parentKey, sep);
    assert LeavesFrom(fields, i, parentKey, sep) == here + rest;
    var items' := Put(items, newKey, v);
    calc {
      FlattenFrom(items, fields, i, parentKey, sep);
      FlattenFrom(items', fields, i + 1, parentKey, sep);
      { FlattenFromLeaves(items', fields, i + 1, parentKey, sep); }
      PutAll(items', rest);
      { PutAllOne(items, newKey, v); }
      PutAll(PutAll(items, here), rest);
      { PutAllConcat(items, here, rest); }
      PutAll(items, here + rest);
    }
  }

  /** `flatten(data)` is `dict(leaves)`: the dict built from the leaves in depth-first order. */
  lemma FlattenedIsDictOfLeaves(data: Dict<Json>, parentKey: string, sep: string)
    ensures Flattened(data, parentKey, sep) == PutAll([], Leaves(data, parentKey, sep))
  {
    FlattenFromLeaves([], data, 0, parentKey, sep);
  }

  /**
   * The output keys are exactly the dotted keys of the leaves, and each holds
   * the value of the LAST leaf with that key (last write wins).
   */
  lemma FlattenedLookup(data: Dict<Json>, parentKey: string, sep: string)
    ensures Keys(Flattened(data, parentKey, sep)) == Keys(Leaves(data, parentKey, sep))
    ensures forall k :: Get(Flattened(data, parentKey, sep), k) == GetLast(Leaves(data, parentKey, sep), k)
  {
    FlattenedIsDictOfLeaves(data, parentKey, sep);
  }

  /** The output has at most as many keys as the input has leaves. */
  lemma FlattenedSize(data: Dict<Json>, parentKey: string, sep: string)
    ensures |Flattened(data, parentKey, sep)| <= |Leaves(data, parentKey, sep)|
  {
    FlattenedIsDictOfLeaves(data, parentKey, sep);
  }

  /**
   * No key is lost exactly when no two leaves collide: then the output is the
   * leaves themselves, in depth-first order.
   */
  lemma FlattenedWithoutCollisions(data: Dict<Json>, parentKey: string, sep: string)
    ensures Flattened(data, parentKey, sep) == Leaves(data, parentKey, sep) <==> Distinct(Leaves(data, parentKey, sep))
  {
    var leaves := Leaves(data, parentKey, sep);
    if Distinct(leaves) {
      FlattenedIsDictOfLeaves(data, parentKey, sep);
      assert [] + leaves == leaves;
      PutAllFresh([], leaves);
    }
  }

  /**
   * `fields` with one item deleted, at any depth: `route[0]` is its position
   * among `fields`, `route[1]` its position in that item's dict, and so on.
   */
  function RemoveAt(fields: Dict<Json>, route: seq<nat>): Dict<Json>
    requires route != []
    decreases |route|
  {
    var i := route[0];
    if i >= |fields| then fields
    else if |route| == 1 then fields[..i] + fields[i + 1..]
    else if fields[i].1.JObj? then
      fields[..i] + [(fields[i].0, JObj(RemoveAt(fields[i].1.fields, route[1..])))] + fields[i + 1..]
    else fields
  }

  /** The item `route` reaches exists and its value is an empty dict. */
  predicate EmptyDictAt(fields: Dict<Json>, route: seq<nat>)
    requires route != []
    decreases |route|
  {
    var i := route[0];
    && i < |fields|
    && if |route| == 1 then fields[i].1 == JObj([])
       else fields[i].1.JObj? && EmptyDictAt(fields[i].1.fields, route[1..])
  }

  /** The leaves of a one-item dict. */
  lemma SingleLeaves(k: string, v: Json, parentKey: string, sep: string)
    ensures Leaves([(k, v)], parentKey, sep) ==
              if v.JObj? then Leaves(v.fields, NewKey(parentKey, sep, k), sep) else [(NewKey(parentKey, sep, k), v)]
  {
    var d := [(k, v)];
    assert LeavesFrom(d, 1, parentKey, sep) == [];
    assert Leaves(d, parentKey, sep) == EntryLeaves(d, 0, parentKey, sep) + [];
  }

  /** The leaves of `pre + [e] + post` are those of `pre`, of `e` and of `post`, in that order. */
  lemma SplitLeaves(pre: Dict<Json>, e: (string, Json), post: Dict<Json>, parentKey: string, sep: string)
    ensures Leaves(pre + [e] + post, parentKey, sep) ==
              Leaves(pre, parentKey, sep) + Leaves([e], parentKey, sep) + Leaves(post, parentKey, sep)
  {
    LeavesConcat(pre + [e], post, parentKey, sep);
    LeavesConcat(pre, [e], parentKey, sep);
  }

  /** Deleting an empty dict, at any depth, leaves the leaves unchanged. */
  lemma {:induction false} RemoveEmptyDictLeaves(fields: Dict<Json>, route: seq<nat>, parentKey: string, sep: string)
    requires route != [] && EmptyDictAt(fields, route)
    ensures Leaves(RemoveAt(fields, route), parentKey, sep) == Leaves(fields, parentKey, sep)
    decreases |route|
  {
    var i := route[0];
    var (k, v) := fields[i];
    var pre, post := fields[..i], fields[i + 1..];
    assert fields == pre + [(k, v)] + post;
    SplitLeaves(pre, (k, v), post, parentKey, sep);
    SingleLeaves(k, v, parentKey, sep);
    if |route| == 1 {
      assert Leaves(v.fields, NewKey(parentKey, sep, k), sep) == [];
      LeavesConcat(pre, post, parentKey, sep);
      assert Leaves(pre, parentKey, sep) + [] == Leaves(pre, parentKey, sep);
    } else {
      var v' := JObj(RemoveAt(v.fields, route[1..]));
      RemoveEmptyDictLeaves(v.fields, route[1..], NewKey(parentKey, sep, k), sep);
      SingleLeaves(k, v', parentKey, sep);
      SplitLeaves(pre, (k, v'), post, parentKey, sep);
    }
  }

  /**
   * An empty dict contributes no key: deleting an item whose value is an empty
   * dict, at any depth of the input, leaves the output unchanged.
   */
  lemma EmptyDictContributesNothing(data: Dict<Json>, route: seq<nat>, parentKey: string, sep: string)
    requires route != [] && EmptyDictAt(data, route)
    ensures Flattened(RemoveAt(data, route), parentKey, sep) == Flattened(data, parentKey, sep)
  {
    RemoveEmptyDictLeaves(data, route, parentKey, sep);
    FlattenedIsDictOfLeaves(RemoveAt(data, route), parentKey, sep);
    FlattenedIsDictOfLeaves(data, parentKey, sep);
  }

  /** At the top level a flat dict is its own leaf list. */
  lemma {:induction false} FlatLeaves(d: Dict<Json>, i: nat, sep: string)
    requires i <= |d| && Flat(d)
    ensures LeavesFrom(d, i, "", sep) == d[i..]
    decreases |d| - i
  {
    if i < |d| {
      assert d[i] in d;
      FlatLeaves(d, i + 1, sep);
      assert [d[i]] + d[i + 1..] == d[i..];
    }
  }

  /** `flatten(flatten(data)) == flatten(data)`: the output has no dict values and no repeated key. */
  lemma FlattenIdempotent(data: Dict<Json>, sep: string)
    ensures Flattened(Flattened(data, "", sep), "", sep) == Flattened(data, "", sep)
  {
    var flat := Flattened(data, "", sep);
    FlatLeaves(flat, 0, sep);
    assert flat[0..] == flat;
    FlattenedIsDictOfLeaves(flat, "", sep);
    assert [] + flat == flat;
    PutAllFresh([], flat);
  }

  /** Every leaf below item `j` is among the leaves from any earlier item `i` on. */
  lemma {:induction false} EntryLeavesIn(fields: Dict<Json>, i: nat, j: nat, parentKey: string, sep: string)
    requires i <= j < |fields|
    ensures forall e :: e in EntryLeaves(fields, j, parentKey, sep) ==> e in LeavesFrom(fields, i, parentKey, sep)
    decreases j - i
  {
    if i < j {
      EntryLeavesIn(fields, i + 1, j, parentKey, sep);
    }
  }

  /** The value reached by a path of keys is a leaf under the key `PathKey` builds from that path. */
  lemma {:induction false} LeafInLeaves(fields: Dict<Json>, parentKey: string, sep: string, path: seq<string>, v: Json)
    requires path != [] && At(JObj(fields), path) == Some(v) && !v.JObj?
    ensures (PathKey(parentKey, sep, path), v) in Leaves(fields, parentKey, sep)
    decreases JObj(fields)
  {
    var w := Get(fields, path[0]).value;
    var j :| 0 <= j < |fields| && fields[j] == (path[0], w);
    var newKey := NewKey(parentKey, sep, path[0]);
    EntryLeavesIn(fields, 0, j, parentKey, sep);
    if |path| == 1 {
      assert w == v;
      assert (newKey, v) in EntryLeaves(fields, j, parentKey, sep);
    } else {
      LeafInLeaves(w.fields, newKey, sep, path[1..], v);
      assert (PathKey(parentKey, sep, path), v) in EntryLeaves(fields, j, parentKey, sep);
    }
  }

  lemma {:induction false} PathKeyJoin(parentKey: string, sep: string, path: seq<string>)
    requires parentKey != "" && path != []
    ensures PathKey(parentKey, sep, path) == parentKey + sep + Join(sep, path)
    decreases path
  {
    if |path| > 1 {
      PathKeyJoin(parentKey + sep + path[0], sep, path[1..]);
      assert parentKey + sep + path[0] + sep + Join(sep, path[1..])
          == parentKey + sep + (path[0] + sep + Join(sep, path[1..]));
    }
  }

  /** From the top, a path whose first key is non-empty gives the plain dotted key k1.k2...kn. */
  lemma TopPathKey(sep: string, path: seq<string>)
    requires path != [] && path[0] != ""
    ensures PathKey("", sep, path) == Join(sep, path)
  {
    if |path| > 1 {
      PathKeyJoin(path[0], sep, path[1..]);
    }
  }

  /**
   * A leaf reached by the keys k1, ..., kn appears under `k1 + sep + ... + sep + kn`,
   * and holds its value unchanged unless a later leaf is written under the same key.
   */
  lemma LeafAppearsUnderDottedKey(data: Dict<Json>, sep: string, path: seq<string>, v: Json)
    requires path != [] && path[0] != "" && At(JObj(data), path) == Some(v) && !v.JObj?
    ensures Join(sep, path) in Keys(Flattened(data, "", sep))
    ensures (forall e :: e in Leaves(data, "", sep) && e.0 == Join(sep, path) ==> e.1 == v) ==>
              Get(Flattened(data, "", sep), Join(sep, path)) == Some(v)
  {
    LeafInLeaves(data, "", sep, path, v);
    TopPathKey(sep, path);
    FlattenedLookup(data, "", sep);
    KeyOfMember(Leaves(data, "", sep), Join(sep, path), v);
    if forall e :: e in Leaves(data, "", sep) && e.0 == Join(sep, path) ==> e.1 == v {
      GetLastUniform(Leaves(data, "", sep), Join(sep, path), v);
    }
  }

  /** A top-level non-dict value keeps its key unchanged. */
  lemma TopLevelLeafKeepsKey(data: Dict<Json>, sep: string, k: string, v: Json)
    requires Get(data, k) == Some(v) && !v.JObj?
    ensures k in Keys(Flattened(data, "", sep))
    ensures (forall e :: e in Leaves(data, "", sep) && e.0 == k ==> e.1 == v) ==>
              Get(Flattened(data, "", sep), k) == Some(v)
  {
    assert At(JObj(data), [k]) == Some(v);
    LeafInLeaves(data, "", sep, [k], v);
    FlattenedLookup(data, "", sep);
    KeyOfMember(Leaves(data, "", sep), k, v);
    if forall e :: e in Leaves(data, "", sep) && e.0 == k ==> e.1 == v {
      GetLastUniform(Leaves(data, "", sep), k, v);
    }
  }

  /** Colliding keys: the later write wins, `{"a.b": 1, "a": {"b": 2}}` flattens to `{"a.b": 2}`. */
  lemma CollisionExample()
    ensures Flattened([("a.b", JNum(1.0)), ("a", JObj([("b", JNum(2.0))]))], "", ".") == [("a.b", JNum(2.0))]
  {
  }

  /** Leaves of a dict whose values are all well formed are well formed. */
  lemma {:induction false} LeavesWellFormed(fields: Dict<Json>, i: nat, parentKey: string, sep: string)
    requires i <= |fields|
    requires forall j :: 0 <= j < |fields| ==> WellFormed(fields[j].1)
    ensures forall e :: e in LeavesFrom(fields, i, parentKey, sep) ==> WellFormed(e.1)
    decreases JObj(fields), |fields| - i
  {
    if i < |fields| {
      var (k, v) := fields[i];
      var newKey := NewKey(parentKey, sep, k);
      assert WellFormed(fields[i].1);
      if v.JObj? {
        LeavesWellFormed(v.fields, 0, newKey, sep);
      }
      LeavesWellFormed(fields, i + 1, parentKey, sep);
    }
  }

  /** Flattening a well-formed dict gives a well-formed dict. */
  lemma FlattenedWellFormed(data: Dict<Json>, parentKey: string, sep: string)
    requires WellFormed(JObj(data))
    ensures WellFormed(JObj(Flattened(data, parentKey, sep)))
  {
    LeavesWellFormed(data, 0, parentKey, sep);
    FlattenedIsDictOfLeaves(data, parentKey, sep);
    var r := Flattened(data, parentKey, sep);
    forall i | 0 <= i < |r|
      ensures WellFormed(r[i].1)
    {
      assert r[i] in r;
    }
  }
}
