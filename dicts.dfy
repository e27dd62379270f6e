/** Python's `dict` restricted to what the scripts do with it: assign a key,
    and iterate over `items()` in insertion order. A dict is the sequence of
    its items, with no key twice. */
module Dicts {

  type Items = seq<(string, string)>

  function Keys(items: Items): (ks: seq<string>)
    ensures |ks| == |items|
    ensures forall i :: 0 <= i < |items| ==> ks[i] == items[i].0
  {
    seq(|items|, i requires 0 <= i < |items| => items[i].0)
  }

  predicate DistinctKeys(items: Items) {
    forall i, j :: 0 <= i < j < |items| ==> items[i].0 != items[j].0
  }

  type Dict = items: Items | DistinctKeys(items) witness []

  /** The position of key k among the items, or -1. */
  function IndexOfKey(items: Items, k: string): (r: int)
    ensures -1 <= r < |items|
    ensures r >= 0 ==> items[r].0 == k
    ensures r < 0 <==> k !in Keys(items)
  {
    if items == [] then -1
    else if items[0].0 == k then 0
    else
      var r := IndexOfKey(items[1..], k);
      assert Keys(items) == [items[0].0] + Keys(items[1..]);
      if r < 0 then -1 else r + 1
  }

  /** `d[k] = v`: an existing key keeps its position and takes the new value;
      a new key goes at the end. */
  function Put(d: Dict, k: string, v: string): (r: Dict)
    ensures k in Keys(d) ==> |r| == |d|
    ensures k in Keys(d) ==> forall i :: 0 <= i < |d| ==> r[i] == (if d[i].0 == k then (k, v) else d[i])
    ensures k !in Keys(d) ==> r == d + [(k, v)]
  {
    var i := IndexOfKey(d, k);
    if i < 0 then d + [(k, v)] else d[i := (k, v)]
  }

  /** The dict built by assigning the pairs of ps one after the other. */
  function FromPairs(ps: Items): Dict {
    if ps == [] then [] else
      var n := |ps| - 1;
      Put(FromPairs(ps[..n]), ps[n].0, ps[n].1)
  }

  lemma KeysAppend(ps: Items, k: string, v: string)
    ensures Keys(ps + [(k, v)]) == Keys(ps) + [k]
  {
  }

  lemma FromPairsAppend(ps: Items, k: string, v: string)
    ensures FromPairs(ps + [(k, v)]) == Put(FromPairs(ps), k, v)
  {
    assert (ps + [(k, v)])[..|ps|] == ps;
  }

  /** The first position of k in ks. */
  function FirstIndex(ks: seq<string>, k: string): (r: nat)
    requires k in ks
    ensures r < |ks| && ks[r] == k
    ensures forall j :: 0 <= j < r ==> ks[j] != k
  {
    if ks[0] == k then 0 else 1 + FirstIndex(ks[1..], k)
  }

  /** The last position of k in ks. */
  function LastIndex(ks: seq<string>, k: string): (r: nat)
    requires k in ks
    ensures r < |ks| && ks[r] == k
    ensures forall j :: r < j < |ks| ==> ks[j] != k
  {
    var n := |ks| - 1;
    if ks[n] == k then n else LastIndex(ks[..n], k)
  }

  ghost predicate KeysIn(d: Items, ks: seq<string>) {
    forall n :: 0 <= n < |d| ==> d[n].0 in ks
  }

  /** Keys of d appear in the order of their first occurrence in ks. */
  ghost predicate FirstSeenOrder(d: Items, ks: seq<string>)
    requires KeysIn(d, ks)
  {
    forall m, n :: 0 <= m < n < |d| ==> FirstIndex(ks, d[m].0) < FirstIndex(ks, d[n].0)
  }

  /** Each item of d is the last pair in ps with its key. */
  ghost predicate LastWriteWins(d: Items, ps: Items)
    requires KeysIn(d, Keys(ps))
  {
    forall n :: 0 <= n < |d| ==> d[n] == ps[LastIndex(Keys(ps), d[n].0)]
  }

  /** d holds one item per distinct key of ps, in order of first occurrence,
      each with the last value ps gives its key. */
  ghost predicate Summarises(d: Items, ps: Items) {
    && (forall k :: k in Keys(d) <==> k in Keys(ps))
    && KeysIn(d, Keys(ps))
    && FirstSeenOrder(d, Keys(ps))
    && LastWriteWins(d, ps)
  }

  /** Assigning the pairs of ps in order leaves exactly one item per distinct
      key, in order of first assignment, holding the last value assigned. */
  lemma {:induction false} FromPairsShape(ps: Items)
    ensures Summarises(FromPairs(ps), ps)
  {
    if ps != [] {
      var n := |ps| - 1;
      FromPairsShape(ps[..n]);
      assert ps == ps[..n] + [ps[n]];
      PutStep(FromPairs(ps[..n]), ps[..n], ps[n].0, ps[n].1);
    }
  }

  /** One more assignment keeps a dict summarising the pairs assigned so far. */
  lemma PutStep(d: Dict, ps: Items, k: string, v: string)
    requires Summarises(d, ps)
    ensures Summarises(Put(d, k, v), ps + [(k, v)])
  {
    var r, ps' := Put(d, k, v), ps + [(k, v)];
    var ks, ks' := Keys(ps), Keys(ps');
    assert ks' == ks + [k];
    forall x | x in ks
      ensures FirstIndex(ks', x) == FirstIndex(ks, x)
    {
      FirstIndexOfPrefix(ks, k, x);
    }
    forall x | x in ks && x != k
      ensures LastIndex(ks', x) == LastIndex(ks, x)
    {
      assert ks'[..|ps|] == ks;
    }
    assert LastIndex(ks', k) == |ps|;
    if k in Keys(d) {
      PutExistingStep(d, ps, k, v);
    } else {
      PutNewStep(d, ps, k, v);
    }
  }

  lemma PutExistingStep(d: Dict, ps: Items, k: string, v: string)
    requires Summarises(d, ps) && k in Keys(d)
    requires Keys(ps + [(k, v)]) == Keys(ps) + [k]
    requires forall x :: x in Keys(ps) ==> FirstIndex(Keys(ps + [(k, v)]), x) == FirstIndex(Keys(ps), x)
    requires forall x :: x in Keys(ps) && x != k ==> LastIndex(Keys(ps + [(k, v)]), x) == LastIndex(Keys(ps), x)
    requires LastIndex(Keys(ps + [(k, v)]), k) == |ps|
    ensures Summarises(Put(d, k, v), ps + [(k, v)])
  {
    var r, ps' := Put(d, k, v), ps + [(k, v)];
    var ks, ks' := Keys(ps), Keys(ps');
    assert ks' == ks + [k];
    assert Keys(r) == Keys(d);
    assert KeysIn(r, ks') by {
      forall j | 0 <= j < |r| ensures r[j].0 in ks' {
        assert r[j].0 == d[j].0 && d[j].0 in ks;
      }
    }
    forall m, j | 0 <= m < j < |r|
      ensures FirstIndex(ks', r[m].0) < FirstIndex(ks', r[j].0)
    {
      assert r[m].0 == d[m].0 && r[j].0 == d[j].0;
    }
    forall j | 0 <= j < |r|
      ensures r[j] == ps'[LastIndex(ks', r[j].0)]
    {
      if d[j].0 != k {
        assert r[j] == d[j];
      }
    }
  }

  lemma PutNewStep(d: Dict, ps: Items, k: string, v: string)
    requires Summarises(d, ps) && k !in Keys(d)
    requires Keys(ps + [(k, v)]) == Keys(ps) + [k]
    requires forall x :: x in Keys(ps) ==> FirstIndex(Keys(ps + [(k, v)]), x) == FirstIndex(Keys(ps), x)
    requires forall x :: x in Keys(ps) && x != k ==> LastIndex(Keys(ps + [(k, v)]), x) == LastIndex(Keys(ps), x)
    requires LastIndex(Keys(ps + [(k, v)]), k) == |ps|
    ensures Summarises(Put(d, k, v), ps + [(k, v)])
  {
    var r, ps' := Put(d, k, v), ps + [(k, v)];
    var ks, ks' := Keys(ps), Keys(ps');
    assert r == d + [(k, v)];
    assert k !in ks;
    assert Keys(r) == Keys(d) + [k];
    assert KeysIn(r, ks') by {
      forall j | 0 <= j < |r| ensures r[j].0 in ks' {
        if j < |d| { assert d[j].0 in ks; }
      }
    }
    NewKeyOrder(d, ks, k, v);
    forall j | 0 <= j < |r|
      ensures r[j] == ps'[LastIndex(ks', r[j].0)]
    {
      if j < |d| {
        assert r[j] == d[j] && d[j].0 in ks;
      }
    }
  }

  /** A key first seen at the end comes after all keys seen before. */
  lemma NewKeyOrder(d: Dict, ks: seq<string>, k: string, v: string)
    requires KeysIn(d, ks) && FirstSeenOrder(d, ks) && k !in ks
    requires forall x :: x in ks ==> FirstIndex(ks + [k], x) == FirstIndex(ks, x)
    ensures KeysIn(d + [(k, v)], ks + [k])
    ensures FirstSeenOrder(d + [(k, v)], ks + [k])
  {
    var r, ks' := d + [(k, v)], ks + [k];
    assert FirstIndex(ks', k) == |ks|;
    forall m, j | 0 <= m < j < |r|
      ensures FirstIndex(ks', r[m].0) < FirstIndex(ks', r[j].0)
    {
      assert r[m] == d[m] && d[m].0 in ks;
      if j < |d| {
        assert r[j] == d[j] && d[j].0 in ks;
      }
    }
  }

  lemma FirstIndexOfPrefix(ks: seq<string>, y: string, x: string)
    requires x in ks
    ensures FirstIndex(ks + [y], x) == FirstIndex(ks, x)
  {
    var a, b := FirstIndex(ks + [y], x), FirstIndex(ks, x);
    assert (ks + [y])[b] == x;
  }

  /** A dict whose items the methods of the scripts update in place. */
  class PyDict {
    var items: Dict

    /** `{}` */
    constructor ()
      ensures items == []
    {
      items := [];
    }

    /** `self[key] = value` */
    method SetItem(key: string, value: string)
      modifies this
      ensures items == Put(old(items), key, value)
    {
      items := Put(items, key, value);
    }
  }
}
