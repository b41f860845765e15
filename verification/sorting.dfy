/** Python's `sorted(xs, key=k)` for string keys: a stable insertion sort
    ordered by `Strings.Below` (code-point order). */
module Sorting {
  import opened Strings
  import opened Seqs

  /** Every earlier element's key is at most every later element's key. */
  predicate SortedBy<T>(s: seq<T>, key: T -> string)
  {
    forall i, j :: 0 <= i < j < |s| ==> Below(key(s[i]), key(s[j]))
  }

  /** Inserts `x` after every element whose key is at most `x`'s key, so that
      among equal keys earlier insertions stay first. */
  function InsertBy<T>(x: T, s: seq<T>, key: T -> string): (r: seq<T>)
    requires SortedBy(s, key)
    ensures SortedBy(r, key)
    ensures multiset(r) == multiset(s) + multiset{x}
    ensures |r| == |s| + 1
  {
    if |s| == 0 then [x]
    else if Below(key(s[0]), key(x)) then
      var rest := InsertBy(x, s[1..], key);
      assert multiset(rest) == multiset(s[1..]) + multiset{x};
      assert s == [s[0]] + s[1..];
      InsertedRestAbove(s[0], x, s[1..], rest, key);
      [s[0]] + rest
    else
      BelowTotal(key(s[0]), key(x));
      forall j | 0 <= j < |s| ensures Below(key(x), key(s[j])) {
        if j > 0 { BelowTransitive(key(x), key(s[0]), key(s[j])); }
      }
      [x] + s
  }

  /** Helper for `InsertBy`: the head stays below everything in the rest. */
  lemma InsertedRestAbove<T>(head: T, x: T, tail: seq<T>, rest: seq<T>, key: T -> string)
    requires Below(key(head), key(x))
    requires forall j :: 0 <= j < |tail| ==> Below(key(head), key(tail[j]))
    requires SortedBy(rest, key)
    requires multiset(rest) == multiset(tail) + multiset{x}
    ensures SortedBy([head] + rest, key)
  {
    forall j | 0 <= j < |rest| ensures Below(key(head), key(rest[j])) {
      assert rest[j] in multiset(rest);
      if rest[j] != x {
        assert rest[j] in multiset(tail);
        var k :| 0 <= k < |tail| && tail[k] == rest[j];
      }
    }
    var r := [head] + rest;
    forall i, j | 0 <= i < j < |r| ensures Below(key(r[i]), key(r[j])) {
      if i > 0 { assert r[i] == rest[i - 1] && r[j] == rest[j - 1]; }
      else { assert r[j] == rest[j - 1]; }
    }
  }

  /** `sorted(s, key=key)`: a stable sort of `s` by `key`. */
  function SortBy<T>(s: seq<T>, key: T -> string): (r: seq<T>)
    ensures SortedBy(r, key)
    ensures multiset(r) == multiset(s)
    ensures |r| == |s|
  {
    if |s| == 0 then []
    else
      var init := s[..|s| - 1];
      assert s == init + [s[|s| - 1]];
      InsertBy(s[|s| - 1], SortBy(init, key), key)
  }

  /** The test "has key `k`". */
  function KeyIs<T>(key: T -> string, k: string): T -> bool
  {
    x => key(x) == k
  }

  /** Inserting keeps the elements of each key in the order they came:
      the new one goes after those with the same key. */
  lemma {:induction false} InsertByStable<T(!new)>(x: T, s: seq<T>, key: T -> string, k: string)
    requires SortedBy(s, key)
    ensures Filter(KeyIs(key, k), InsertBy(x, s, key)) == Filter(KeyIs(key, k), s) + Filter(KeyIs(key, k), [x])
    decreases |s|
  {
    if |s| == 0 {
      assert s + [x] == [x];
    } else if Below(key(s[0]), key(x)) {
      assert s == [s[0]] + s[1..];
      assert InsertBy(x, s, key) == [s[0]] + InsertBy(x, s[1..], key);
      SortedTail(s, key);
      InsertByStable(x, s[1..], key, k);
      StableAbove(x, [s[0]], s[1..], s, InsertBy(x, s[1..], key), KeyIs(key, k));
    } else {
      StableFront(x, s, key, k);
    }
  }

  /** Filtering a sequence that starts with `head`. */
  lemma StableAbove<T(!new)>(x: T, head: seq<T>, tail: seq<T>, s: seq<T>, rest: seq<T>, p: T -> bool)
    requires s == head + tail
    requires Filter(p, rest) == Filter(p, tail) + Filter(p, [x])
    ensures Filter(p, head + rest) == Filter(p, s) + Filter(p, [x])
  {
    FilterAppend(p, head, rest);
    FilterAppend(p, head, tail);
    AppendAssoc(Filter(p, head), Filter(p, tail), Filter(p, [x]));
  }

  /** `x` inserted in front of `s`. */
  lemma StableFront<T(!new)>(x: T, s: seq<T>, key: T -> string, k: string)
    requires SortedBy(s, key) && |s| > 0 && !Below(key(s[0]), key(x))
    ensures Filter(KeyIs(key, k), InsertBy(x, s, key)) == Filter(KeyIs(key, k), s) + Filter(KeyIs(key, k), [x])
  {
    assert InsertBy(x, s, key) == [x] + s;
    FilterAppend(KeyIs(key, k), [x], s);
    if key(x) == k {
      NoneWithKey(x, s, key, k);
    } else {
      assert Filter(KeyIs(key, k), [x]) == [];
    }
  }

  /** When `x` goes before every element of `s`, none of them shares its key. */
  lemma NoneWithKey<T(!new)>(x: T, s: seq<T>, key: T -> string, k: string)
    requires SortedBy(s, key) && |s| > 0 && !Below(key(s[0]), key(x)) && key(x) == k
    ensures Filter(KeyIs(key, k), s) == []
  {
    var f := Filter(KeyIs(key, k), s);
    if |f| > 0 {
      assert KeyIs(key, k)(f[0]) && f[0] in s;
      var j :| 0 <= j < |s| && s[j] == f[0];
      if j == 0 {
        BelowReflexive(key(x));
      }
    }
  }

  /** `sorted` is stable: the elements of each key come out in the order
      they went in. */
  lemma {:induction false} SortByStable<T(!new)>(s: seq<T>, key: T -> string, k: string)
    ensures Filter(KeyIs(key, k), SortBy(s, key)) == Filter(KeyIs(key, k), s)
    decreases |s|
  {
    if |s| > 0 {
      var init, last := s[..|s| - 1], s[|s| - 1];
      assert s == init + [last];
      assert SortBy(s, key) == InsertBy(last, SortBy(init, key), key);
      SortByStable(init, key, k);
      StableStep(SortBy(init, key), init, last, s, key, k);
    }
  }

  /** One step of `SortBy`: inserting the last element into the sorted
      front keeps each key's elements in input order. */
  lemma StableStep<T(!new)>(sorted: seq<T>, init: seq<T>, last: T, s: seq<T>, key: T -> string, k: string)
    requires SortedBy(sorted, key) && s == init + [last]
    requires Filter(KeyIs(key, k), sorted) == Filter(KeyIs(key, k), init)
    ensures Filter(KeyIs(key, k), InsertBy(last, sorted, key)) == Filter(KeyIs(key, k), s)
  {
    InsertByStable(last, sorted, key, k);
    FilterAppend(KeyIs(key, k), init, [last]);
  }

  /** `sorted(names)` on plain strings. */
  function SortStrings(s: seq<string>): (r: seq<string>)
    ensures SortedBy(r, Identity)
    ensures multiset(r) == multiset(s)
  {
    SortBy(s, Identity)
  }

  function Identity(s: string): string { s }

  /** The tail of a sorted list is sorted. */
  lemma SortedTail<T>(s: seq<T>, key: T -> string)
    requires |s| > 0 && SortedBy(s, key)
    ensures SortedBy(s[1..], key)
  {
    forall x, y | 0 <= x < y < |s[1..]| ensures Below(key(s[1..][x]), key(s[1..][y])) {
      assert s[1..][x] == s[x + 1] && s[1..][y] == s[y + 1];
    }
  }

  /** The head of a sorted list of strings is at most each of its elements. */
  lemma SortedHeadLeast(s: seq<string>, x: string)
    requires SortedBy(s, Identity) && x in multiset(s)
    ensures Below(s[0], x)
  {
    var i :| 0 <= i < |s| && s[i] == x;
    if i > 0 { assert Below(Identity(s[0]), Identity(s[i])); } else { BelowReflexive(x); }
  }

  /** Two ascending lists of the same strings start with the same string. */
  lemma SortedHeads(a: seq<string>, b: seq<string>)
    requires SortedBy(a, Identity) && SortedBy(b, Identity)
    requires multiset(a) == multiset(b) && |a| > 0
    ensures |b| > 0 && a[0] == b[0]
  {
    assert a[0] in multiset(a);
    assert |b| > 0;
    SortedHeadLeast(b, a[0]);
    SortedHeadLeast(a, b[0]);
    BelowAntisymmetric(a[0], b[0]);
  }

  /** Two ascending lists of the same strings are the same list: the order
      `sorted` produces does not depend on the order of its input. */
  lemma {:induction false} SortedUnique(a: seq<string>, b: seq<string>)
    requires SortedBy(a, Identity) && SortedBy(b, Identity)
    requires multiset(a) == multiset(b)
    ensures a == b
    decreases |a|
  {
    if |a| == 0 {
      assert |b| == |multiset(b)| == 0;
    } else {
      SortedHeads(a, b);
      var ta, tb := a[1..], b[1..];
      assert a == [a[0]] + ta && b == [b[0]] + tb;
      assert multiset(ta) == multiset(tb) by {
        assert multiset(a) == multiset{a[0]} + multiset(ta);
        assert multiset(b) == multiset{b[0]} + multiset(tb);
        assert multiset(ta) == multiset(a) - multiset{a[0]};
        assert multiset(tb) == multiset(b) - multiset{b[0]};
      }
      SortedTail(a, Identity);
      SortedTail(b, Identity);
      SortedUnique(ta, tb);
    }
  }

  /** Sorting two permutations of the same strings gives the same list. */
  lemma SortStringsPermutation(a: seq<string>, b: seq<string>)
    requires multiset(a) == multiset(b)
    ensures SortStrings(a) == SortStrings(b)
  {
    SortedUnique(SortStrings(a), SortStrings(b));
  }
}
