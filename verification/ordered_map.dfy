/** Python's `dict`: keys are unique and iterate in insertion order;
    assigning to an existing key keeps its position. */
module OrderedMaps {
  import opened Wrappers

  datatype OrderedMap<K, V> = OrderedMap(entries: seq<(K, V)>)

  /** No key occurs twice. */
  ghost predicate Valid<K, V>(m: OrderedMap<K, V>)
  {
    forall i, j :: 0 <= i < j < |m.entries| ==> m.entries[i].0 != m.entries[j].0
  }

  function Empty<K, V>(): (m: OrderedMap<K, V>)
    ensures Valid(m) && |m.entries| == 0
  {
    OrderedMap([])
  }

  /** `list(d.keys())`. */
  function Keys<K, V>(m: OrderedMap<K, V>): (ks: seq<K>)
    ensures |ks| == |m.entries|
    ensures forall i :: 0 <= i < |ks| ==> ks[i] == m.entries[i].0
    decreases |m.entries|
  {
    if |m.entries| == 0 then [] else [m.entries[0].0] + Keys(OrderedMap(m.entries[1..]))
  }

  /** `list(d.values())`. */
  function Values<K, V>(m: OrderedMap<K, V>): (vs: seq<V>)
    ensures |vs| == |m.entries|
    ensures forall i :: 0 <= i < |vs| ==> vs[i] == m.entries[i].1
    decreases |m.entries|
  {
    if |m.entries| == 0 then [] else [m.entries[0].1] + Values(OrderedMap(m.entries[1..]))
  }

  /** Position of `k` among the entries, or the number of entries when
      `k` is absent. */
  function Find<K(==), V>(m: OrderedMap<K, V>, k: K): (i: nat)
    ensures i <= |m.entries|
    ensures i < |m.entries| ==> m.entries[i].0 == k
    ensures forall j :: 0 <= j < i ==> m.entries[j].0 != k
    decreases |m.entries|
  {
    if |m.entries| == 0 then 0
    else if m.entries[0].0 == k then 0
    else
      var tail := OrderedMap(m.entries[1..]);
      var i := Find(tail, k);
      assert forall j :: 1 <= j < i + 1 ==> m.entries[j] == tail.entries[j - 1];
      i + 1
  }

  /** `Find` returns the first position holding `k`; any position with
      that property is the one it returns. */
  lemma FindUnique<K, V>(m: OrderedMap<K, V>, k: K, i: nat)
    requires i <= |m.entries|
    requires i < |m.entries| ==> m.entries[i].0 == k
    requires forall j :: 0 <= j < i ==> m.entries[j].0 != k
    ensures Find(m, k) == i
  {
  }

  /** `d.get(k)`. */
  function Get<K(==), V>(m: OrderedMap<K, V>, k: K): (r: Option<V>)
    ensures r.None? <==> k !in Keys(m)
    ensures r.Some? ==> (k, r.value) in m.entries
  {
    var i := Find(m, k);
    if i < |m.entries| then
      assert Keys(m)[i] == k;
      Some(m.entries[i].1)
    else
      assert forall j :: 0 <= j < |Keys(m)| ==> Keys(m)[j] != k;
      None
  }

  /** In a valid map, `d[k]` is the value stored with `k`. */
  lemma GetAt<K, V>(m: OrderedMap<K, V>, i: nat)
    requires Valid(m) && i < |m.entries|
    ensures Get(m, m.entries[i].0) == Some(m.entries[i].1)
  {
    FindUnique(m, m.entries[i].0, i);
  }

  /** The value `d.get(k)` finds is among `d.values()`. */
  lemma GetInValues<K, V>(m: OrderedMap<K, V>, k: K)
    requires Get(m, k).Some?
    ensures Get(m, k).value in Values(m)
  {
    var idx :| 0 <= idx < |m.entries| && m.entries[idx] == (k, Get(m, k).value);
    assert Values(m)[idx] == Get(m, k).value;
  }

  /** `d[k] = v`: replaces the value in place, or appends a new entry. */
  function Put<K(==,!new), V>(m: OrderedMap<K, V>, k: K, v: V): (r: OrderedMap<K, V>)
    requires Valid(m)
    ensures Valid(r)
    ensures k in Keys(m) ==> Keys(r) == Keys(m)
    ensures k !in Keys(m) ==> Keys(r) == Keys(m) + [k]
    ensures Get(r, k) == Some(v)
    ensures forall k' :: k' != k ==> Get(r, k') == Get(m, k')
  {
    var i := Find(m, k);
    var r := if i < |m.entries| then OrderedMap(m.entries[i := (k, v)])
             else OrderedMap(m.entries + [(k, v)]);
    PutBuilt(m, k, v, i, r);
    r
  }

  /** The map `Put` builds, with the facts its contract states. */
  lemma PutBuilt<K(!new), V>(m: OrderedMap<K, V>, k: K, v: V, i: nat, r: OrderedMap<K, V>)
    requires Valid(m) && i == Find(m, k)
    requires r == if i < |m.entries| then OrderedMap(m.entries[i := (k, v)])
                  else OrderedMap(m.entries + [(k, v)])
    ensures Valid(r)
    ensures k in Keys(m) ==> Keys(r) == Keys(m)
    ensures k !in Keys(m) ==> Keys(r) == Keys(m) + [k]
    ensures Get(r, k) == Some(v)
    ensures forall k' :: k' != k ==> Get(r, k') == Get(m, k')
  {
    if i < |m.entries| {
      PutReplaces(m, k, v, i, r);
    } else {
      PutAppends(m, k, v, i, r);
    }
    FindUnique(r, k, i);
    PutOthers(m, r, k, i);
  }

  /** `Put` of a key already present: same keys, still no duplicates. */
  lemma PutReplaces<K, V>(m: OrderedMap<K, V>, k: K, v: V, i: nat, r: OrderedMap<K, V>)
    requires Valid(m) && i < |m.entries| && m.entries[i].0 == k
    requires r == OrderedMap(m.entries[i := (k, v)])
    ensures Valid(r) && Keys(r) == Keys(m) && k in Keys(m)
  {
    assert Keys(m)[i] == k;
  }

  /** `Put` of a new key: it joins the keys at the end, still unique. */
  lemma PutAppends<K, V>(m: OrderedMap<K, V>, k: K, v: V, i: nat, r: OrderedMap<K, V>)
    requires i == |m.entries| && forall j :: 0 <= j < i ==> m.entries[j].0 != k
    requires Valid(m) && r == OrderedMap(m.entries + [(k, v)])
    ensures Valid(r) && Keys(r) == Keys(m) + [k] && k !in Keys(m)
  {
  }

  /** Assigning to a key that is present replaces its value in place. */
  lemma PutInPlace<K(!new), V>(m: OrderedMap<K, V>, k: K, v: V)
    requires Valid(m) && Get(m, k).Some?
    ensures Find(m, k) < |m.entries|
    ensures Values(Put(m, k, v)) == Values(m)[Find(m, k) := v]
  {
    var i := Find(m, k);
    var r := Put(m, k, v);
    assert r.entries == m.entries[i := (k, v)];
    assert |Values(r)| == |Values(m)[i := v]|;
    forall j | 0 <= j < |Values(r)| ensures Values(r)[j] == Values(m)[i := v][j] {
    }
  }

  /** Keys other than `k` are found where they were before. */
  lemma PutOthers<K(!new), V>(m: OrderedMap<K, V>, r: OrderedMap<K, V>, k: K, i: nat)
    requires i == Find(m, k)
    requires i < |m.entries| ==> |r.entries| == |m.entries| && r.entries == m.entries[i := r.entries[i]] && r.entries[i].0 == k
    requires i == |m.entries| ==> |r.entries| == i + 1 && r.entries[..i] == m.entries && r.entries[i].0 == k
    ensures forall k' :: k' != k ==> Get(r, k') == Get(m, k')
  {
    assert forall j :: 0 <= j < |m.entries| && j != i ==> r.entries[j] == m.entries[j];
    forall k' | k' != k ensures Get(r, k') == Get(m, k') {
      PutOther(m, r, k, i, k');
    }
  }

  /** One key other than `k`: every entry of `r` is the entry of `m` at
      the same place, or holds `k`. */
  lemma PutOther<K(!new), V>(m: OrderedMap<K, V>, r: OrderedMap<K, V>, k: K, i: nat, k': K)
    requires i == Find(m, k) && k' != k
    requires |m.entries| <= |r.entries| <= |m.entries| + 1
    requires forall j :: 0 <= j < |m.entries| && j != i ==> r.entries[j] == m.entries[j]
    requires forall j :: 0 <= j < |r.entries| && (j == i || j >= |m.entries|) ==> r.entries[j].0 == k
    ensures Get(r, k') == Get(m, k')
  {
    var f := Find(m, k');
    if f < |m.entries| {
      assert f != i;
      FindUnique(r, k', f);
    } else {
      FindUnique(r, k', |r.entries|);
    }
  }
}
