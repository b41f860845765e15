/** List comprehensions over sequences (`[f(x) for x in s]`,
    `[x for x in s if p(x)]`, `sum`) and listings of Python sets: a set is
    iterated in some order the program does not control, which the model
    passes in as a duplicate-free sequence of its elements. */
module Seqs {

  // ---------------------------------------------------------------------
  // Comprehensions
  // ---------------------------------------------------------------------

  /** `[f(x) for x in s]`. */
  function Map<A, B>(f: A -> B, s: seq<A>): (r: seq<B>)
    ensures |r| == |s|
    ensures forall i :: 0 <= i < |s| ==> r[i] == f(s[i])
  {
    if |s| == 0 then [] else [f(s[0])] + Map(f, s[1..])
  }

  /** `[x for x in s if p(x)]`: each element is kept as often as it occurs
      when it passes the test, and dropped otherwise. */
  function Filter<A(!new)>(p: A -> bool, s: seq<A>): (r: seq<A>)
    ensures |r| <= |s|
    ensures forall x :: multiset(r)[x] == if p(x) then multiset(s)[x] else 0
    ensures forall i :: 0 <= i < |r| ==> p(r[i]) && r[i] in s
  {
    if |s| == 0 then []
    else
      var rest := Filter(p, s[1..]);
      assert s == [s[0]] + s[1..];
      assert multiset(s) == multiset{s[0]} + multiset(s[1..]);
      if p(s[0]) then [s[0]] + rest else rest
  }

  /** `sum(s)`. */
  function Sum(s: seq<int>): int
  {
    if |s| == 0 then 0 else s[0] + Sum(s[1..])
  }

  lemma MapAppend<A, B>(f: A -> B, a: seq<A>, b: seq<A>)
    ensures Map(f, a + b) == Map(f, a) + Map(f, b)
  {
  }

  lemma {:induction false} SumAppend(a: seq<int>, b: seq<int>)
    ensures Sum(a + b) == Sum(a) + Sum(b)
    decreases |a|
  {
    if |a| == 0 {
      assert a + b == b;
    } else {
      assert (a + b)[1..] == a[1..] + b;
      SumAppend(a[1..], b);
    }
  }

  lemma AppendAssoc<A>(a: seq<A>, b: seq<A>, c: seq<A>)
    ensures a + (b + c) == (a + b) + c
  {
  }

  /** Filtering a concatenation filters each part. */
  lemma {:induction false} FilterAppend<A(!new)>(p: A -> bool, a: seq<A>, b: seq<A>)
    ensures Filter(p, a + b) == Filter(p, a) + Filter(p, b)
    decreases |a|
  {
    if |a| == 0 {
      assert a + b == b;
    } else {
      assert (a + b)[0] == a[0];
      assert (a + b)[1..] == a[1..] + b;
      FilterAppend(p, a[1..], b);
    }
  }

  /** Filtering commutes with taking the same elements in another order. */
  lemma FilterPermutation<A(!new)>(p: A -> bool, a: seq<A>, b: seq<A>)
    requires multiset(a) == multiset(b)
    ensures multiset(Filter(p, a)) == multiset(Filter(p, b))
  {
  }

  /** Removing position `j` of `b` removes one occurrence of `b[j]`. */
  lemma RemoveAt<A>(b: seq<A>, j: nat)
    requires j < |b|
    ensures b == b[..j] + [b[j]] + b[j + 1..]
    ensures multiset(b[..j] + b[j + 1..]) == multiset(b) - multiset{b[j]}
  {
    assert b == b[..j] + [b[j]] + b[j + 1..];
  }

  /** The image of `b` is the image of `b` without position `j`, plus `f(b[j])`. */
  lemma MapRemoveAt<A, B>(f: A -> B, b: seq<A>, j: nat)
    requires j < |b|
    ensures multiset(Map(f, b)) == multiset(Map(f, b[..j] + b[j + 1..])) + multiset{f(b[j])}
  {
    RemoveAt(b, j);
    MapAppend(f, b[..j] + [b[j]], b[j + 1..]);
    MapAppend(f, b[..j], [b[j]]);
    MapAppend(f, b[..j], b[j + 1..]);
  }

  lemma SumRemoveAt(b: seq<int>, j: nat)
    requires j < |b|
    ensures Sum(b) == Sum(b[..j] + b[j + 1..]) + b[j]
  {
    RemoveAt(b, j);
    SumAppend(b[..j] + [b[j]], b[j + 1..]);
    SumAppend(b[..j], [b[j]]);
    SumAppend(b[..j], b[j + 1..]);
  }

  /** Mapping two arrangements of the same elements gives two arrangements
      of the same images. */
  lemma {:induction false} MapPermutation<A, B>(f: A -> B, a: seq<A>, b: seq<A>)
    requires multiset(a) == multiset(b)
    ensures multiset(Map(f, a)) == multiset(Map(f, b))
    decreases |a|
  {
    assert |a| == |multiset(a)| == |multiset(b)| == |b|;
    if |a| > 0 {
      assert a[0] in multiset(b);
      var j :| 0 <= j < |b| && b[j] == a[0];
      var rest := b[..j] + b[j + 1..];
      RemoveAt(b, j);
      RemoveAt(a, 0);
      assert a[..0] + a[1..] == a[1..];
      assert multiset(a[1..]) == multiset(rest);
      MapPermutation(f, a[1..], rest);
      MapRemoveAt(f, b, j);
      MapRemoveAt(f, a, 0);
    }
  }

  /** `sum` does not depend on the order of its terms. */
  lemma {:induction false} SumPermutation(a: seq<int>, b: seq<int>)
    requires multiset(a) == multiset(b)
    ensures Sum(a) == Sum(b)
    decreases |a|
  {
    assert |a| == |multiset(a)| == |multiset(b)| == |b|;
    if |a| > 0 {
      assert a[0] in multiset(b);
      var j :| 0 <= j < |b| && b[j] == a[0];
      RemoveAt(b, j);
      assert a == [a[0]] + a[1..];
      assert multiset(a[1..]) == multiset(a) - multiset{a[0]};
      SumPermutation(a[1..], b[..j] + b[j + 1..]);
      SumRemoveAt(b, j);
    }
  }

  // ---------------------------------------------------------------------
  // Listings of sets
  // ---------------------------------------------------------------------

  /** `order` lists the elements of `keys`, each once. */
  ghost predicate Enumerates<T(!new)>(order: seq<T>, keys: set<T>)
  {
    && (forall i, j :: 0 <= i < j < |order| ==> order[i] != order[j])
    && (forall k :: k in keys <==> k in order)
  }

  /** Every entry of a listing is an element of the set. */
  lemma EnumeratedKeys<T(!new)>(order: seq<T>, keys: set<T>)
    requires Enumerates(order, keys)
    ensures forall i :: 0 <= i < |order| ==> order[i] in keys
  {
    forall i | 0 <= i < |order| ensures order[i] in keys {
      assert order[i] in order;
    }
  }

  /** Dropping the first entry of a listing lists the rest of the set. */
  lemma EnumeratesTail<T(!new)>(order: seq<T>, keys: set<T>)
    requires Enumerates(order, keys) && |order| > 0
    ensures order[0] in keys
    ensures Enumerates(order[1..], keys - {order[0]})
  {
    var rest := order[1..];
    forall k ensures k in keys - {order[0]} <==> k in rest {
      if k in rest {
        var i :| 0 <= i < |rest| && rest[i] == k;
        assert order[i + 1] == k && order[0] != order[i + 1];
      }
      if k in keys - {order[0]} {
        var i :| 0 <= i < |order| && order[i] == k;
        assert i != 0;
        assert rest[i - 1] == k;
      }
    }
    forall i, j | 0 <= i < j < |rest| ensures rest[i] != rest[j] {
      assert rest[i] == order[i + 1] && rest[j] == order[j + 1];
    }
  }

  /** A listing of a set is as long as the set is large. */
  lemma {:induction false} EnumerationSize<T(!new)>(order: seq<T>, keys: set<T>)
    requires Enumerates(order, keys)
    ensures |order| == |keys|
    decreases |order|
  {
    if |order| > 0 {
      EnumeratesTail(order, keys);
      EnumerationSize(order[1..], keys - {order[0]});
    } else {
      assert forall k :: k in keys ==> k in order;
      assert forall k :: k !in keys;
      assert keys == {};
    }
  }

  /** A listing holds each element of the set exactly once. */
  lemma {:induction false} EnumerationMultiset<T(!new)>(order: seq<T>, keys: set<T>)
    requires Enumerates(order, keys)
    ensures forall k :: multiset(order)[k] == if k in keys then 1 else 0
    decreases |order|
  {
    if |order| > 0 {
      EnumeratesTail(order, keys);
      EnumerationMultiset(order[1..], keys - {order[0]});
      assert order == [order[0]] + order[1..];
      assert multiset(order) == multiset{order[0]} + multiset(order[1..]);
    } else {
      assert forall k :: k in keys ==> k in order;
    }
  }

  /** Two listings of the same set are arrangements of each other. */
  lemma EnumerationsPermute<T(!new)>(a: seq<T>, b: seq<T>, keys: set<T>)
    requires Enumerates(a, keys) && Enumerates(b, keys)
    ensures multiset(a) == multiset(b)
  {
    EnumerationMultiset(a, keys);
    EnumerationMultiset(b, keys);
  }
}
