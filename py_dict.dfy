/** A Python `dict` with string keys: pairs in insertion order. Assigning to a key that is
    already present replaces its value where it stands; a new key goes at
    the end. */
module PyDict {
  import opened Outcomes

  type Dict<V> = seq<(string, V)>

  /** The keys, in order (`list(d)`). */
  function Keys<V>(d: Dict<V>): (ks: seq<string>)
    ensures |ks| == |d|
    ensures forall i :: 0 <= i < |d| ==> ks[i] == d[i].0
  {
    seq(|d|, i requires 0 <= i < |d| => d[i].0)
  }

  /** The values, in order (`list(d.values())`). */
  function Values<V>(d: Dict<V>): (vs: seq<V>)
    ensures |vs| == |d|
    ensures forall i :: 0 <= i < |d| ==> vs[i] == d[i].1
  {
    seq(|d|, i requires 0 <= i < |d| => d[i].1)
  }

  /** No key appears twice, as in every dict Python builds. */
  predicate UniqueKeys<V>(d: Dict<V>) {
    forall i, j :: 0 <= i < j < |d| ==> d[i].0 != d[j].0
  }

  /** The position of `k`, or -1 when it is not a key. */
  function IndexOf<V>(d: Dict<V>, k: string): (i: int)
    ensures -1 <= i < |d|
    ensures i >= 0 ==> d[i].0 == k && forall j :: 0 <= j < i ==> d[j].0 != k
    ensures i < 0 ==> forall j :: 0 <= j < |d| ==> d[j].0 != k
  {
    if d == [] then -1
    else if d[0].0 == k then 0
    else
      var j := IndexOf(d[1..], k);
      if j < 0 then -1 else j + 1
  }

  /** Where a key sits depends on the keys alone. */
  lemma IndexOfByKeys<V, W>(d: Dict<V>, e: Dict<W>, k: string)
    requires Keys(d) == Keys(e)
    ensures IndexOf(d, k) == IndexOf(e, k)
  {
    var i, j := IndexOf(d, k), IndexOf(e, k);
    assert forall m :: 0 <= m < |d| ==> d[m].0 == e[m].0 by {
      forall m | 0 <= m < |d| ensures d[m].0 == e[m].0 { assert Keys(d)[m] == Keys(e)[m]; }
    }
  }

  /** `d.get(k)` */
  function Get<V>(d: Dict<V>, k: string): (r: Option<V>)
    ensures r.Some? <==> k in Keys(d)
    ensures r.Some? ==> (k, r.value) in d
  {
    var i := IndexOf(d, k);
    if i < 0 then None else Some(d[i].1)
  }

  /** `d[k] = v` */
  function Set<V>(d: Dict<V>, k: string, v: V): (r: Dict<V>)
    ensures Get(r, k) == Some(v)
    ensures forall k' :: k' != k ==> Get(r, k') == Get(d, k')
    ensures forall k' :: k' in Keys(r) <==> k' in Keys(d) || k' == k
    ensures k in Keys(d) ==> |r| == |d| && Keys(r) == Keys(d)
    ensures k !in Keys(d) ==> r == d + [(k, v)]
    ensures forall i :: 0 <= i < |d| && d[i].0 != k ==> r[i] == d[i]
    ensures v in Values(r)
    ensures forall x :: x in Values(r) ==> x == v || x in Values(d)
    ensures forall j :: 0 <= j < |r| ==> r[j] == (k, v) || (j < |d| && r[j] == d[j])
  {
    var i := IndexOf(d, k);
    var r := if i < 0 then d + [(k, v)] else d[i := (k, v)];
    SetLookups(d, k, v, i, r);
    SetShape(d, k, v, i, r);
    r
  }

  lemma SetLookups<V>(d: Dict<V>, k: string, v: V, i: int, r: Dict<V>)
    requires i == IndexOf(d, k)
    requires r == if i < 0 then d + [(k, v)] else d[i := (k, v)]
    ensures Get(r, k) == Some(v)
    ensures forall k' :: k' != k ==> Get(r, k') == Get(d, k')
  {
    assert IndexOf(r, k) == if i < 0 then |d| else i by {
      if i < 0 { assert r[|d|].0 == k; } else { assert r[i].0 == k; }
    }
    forall k' | k' != k ensures Get(r, k') == Get(d, k') {
      var j := IndexOf(d, k');
      assert IndexOf(r, k') == j by {
        if j >= 0 { assert r[j].0 == k'; } else if i < 0 { assert r[|d|].0 != k'; }
      }
    }
  }

  lemma SetShape<V>(d: Dict<V>, k: string, v: V, i: int, r: Dict<V>)
    requires i == IndexOf(d, k)
    requires r == if i < 0 then d + [(k, v)] else d[i := (k, v)]
    ensures forall k' :: k' in Keys(r) <==> k' in Keys(d) || k' == k
    ensures k in Keys(d) ==> |r| == |d| && Keys(r) == Keys(d)
    ensures v in Values(r)
    ensures forall x :: x in Values(r) ==> x == v || x in Values(d)
    ensures forall j :: 0 <= j < |r| ==> r[j] == (k, v) || (j < |d| && r[j] == d[j])
  {
    assert Keys(r) == if i < 0 then Keys(d) + [k] else Keys(d);
    assert Values(r) == if i < 0 then Values(d) + [v] else Values(d)[i := v];
  }

  /** Assigning to a key keeps the keys that were there, in their order, and
      adds at most one. */
  lemma SetGrowsKeys<V>(d: Dict<V>, k: string, v: V)
    ensures Keys(d) <= Keys(Set(d, k, v))
    ensures |Set(d, k, v)| <= |d| + 1
  {
    var r := Set(d, k, v);
    if k !in Keys(d) {
      assert Keys(r) == Keys(d) + [k];
    }
  }

  /** Assigning to a key keeps a dict free of repeated keys. */
  lemma {:induction false} SetKeepsUniqueKeys<V>(d: Dict<V>, k: string, v: V)
    requires UniqueKeys(d)
    ensures UniqueKeys(Set(d, k, v))
  {
    var r := Set(d, k, v);
    if k in Keys(d) {
      forall i, j | 0 <= i < j < |r| ensures r[i].0 != r[j].0 {
        assert Keys(r)[i] == Keys(d)[i] && Keys(r)[j] == Keys(d)[j];
      }
    } else {
      forall i, j | 0 <= i < j < |r| ensures r[i].0 != r[j].0 {
        if j == |d| {
          assert r[i].0 == Keys(d)[i];
        }
      }
    }
  }
}
