/** Python's `sorted` and `list.sort`: a stable sort by a key.  The order is given on keys, so
    `reverse=True`, which Python also keeps stable, is the same sort with the order turned round. */
module StableSort {
  import opened Sequences

  ghost predicate TotalPreorder<K(!new)>(le: (K, K) -> bool)
  {
    && (forall a, b :: le(a, b) || le(b, a))
    && (forall a, b, c :: le(a, b) && le(b, c) ==> le(a, c))
  }

  predicate Sorted<T, K>(xs: seq<T>, key: T -> K, le: (K, K) -> bool)
  {
    forall i, j :: 0 <= i < j < |xs| ==> le(key(xs[i]), key(xs[j]))
  }

  /** Puts `x` before the first element that does not come strictly before it. */
  function Insert<T, K>(x: T, ys: seq<T>, key: T -> K, le: (K, K) -> bool): seq<T>
  {
    if ys == [] || le(key(x), key(ys[0])) then [x] + ys else [ys[0]] + Insert(x, ys[1..], key, le)
  }

  function Sort<T, K>(xs: seq<T>, key: T -> K, le: (K, K) -> bool): seq<T>
  {
    if xs == [] then [] else Insert(xs[0], Sort(xs[1..], key, le), key, le)
  }

  /** Whether `k` and the key of an element rank equally. */
  function Ties<T, K>(key: T -> K, le: (K, K) -> bool, k: K): T -> bool
  {
    x => le(k, key(x)) && le(key(x), k)
  }

  lemma {:induction false} InsertMembers<T, K>(x: T, ys: seq<T>, key: T -> K, le: (K, K) -> bool)
    ensures multiset(Insert(x, ys, key, le)) == multiset(ys) + multiset{x}
  {
    if ys != [] && !le(key(x), key(ys[0])) {
      InsertMembers(x, ys[1..], key, le);
      assert ys == [ys[0]] + ys[1..];
    }
  }

  lemma SortedPrepend<T, K>(x: T, ys: seq<T>, key: T -> K, le: (K, K) -> bool)
    requires Sorted(ys, key, le) && forall y :: y in ys ==> le(key(x), key(y))
    ensures Sorted([x] + ys, key, le)
  {
  }

  lemma {:induction false} InsertSorted<T, K(!new)>(x: T, ys: seq<T>, key: T -> K, le: (K, K) -> bool)
    requires TotalPreorder(le) && Sorted(ys, key, le)
    ensures Sorted(Insert(x, ys, key, le), key, le)
  {
    if ys == [] || le(key(x), key(ys[0])) {
      forall y | y in ys ensures le(key(x), key(y)) { HeadIsLeast(ys, y, key, le); }
      SortedPrepend(x, ys, key, le);
    } else {
      var rest := Insert(x, ys[1..], key, le);
      InsertSorted(x, ys[1..], key, le);
      InsertMembers(x, ys[1..], key, le);
      forall y | y in rest ensures le(key(ys[0]), key(y)) {
        assert y in multiset(rest);
        if y != x { HeadIsLeast(ys, y, key, le); }
      }
      SortedPrepend(ys[0], rest, key, le);
    }
  }

  lemma {:induction false} SortPermutes<T, K>(xs: seq<T>, key: T -> K, le: (K, K) -> bool)
    ensures multiset(Sort(xs, key, le)) == multiset(xs)
  {
    if xs != [] {
      SortPermutes(xs[1..], key, le);
      InsertMembers(xs[0], Sort(xs[1..], key, le), key, le);
      assert xs == [xs[0]] + xs[1..];
    }
  }

  lemma {:induction false} SortOrders<T, K(!new)>(xs: seq<T>, key: T -> K, le: (K, K) -> bool)
    requires TotalPreorder(le)
    ensures Sorted(Sort(xs, key, le), key, le)
  {
    if xs != [] {
      SortOrders(xs[1..], key, le);
      InsertSorted(xs[0], Sort(xs[1..], key, le), key, le);
    }
  }

  lemma SortSorted<T, K(!new)>(xs: seq<T>, key: T -> K, le: (K, K) -> bool)
    requires TotalPreorder(le)
    ensures Sorted(Sort(xs, key, le), key, le)
    ensures multiset(Sort(xs, key, le)) == multiset(xs)
    ensures |Sort(xs, key, le)| == |xs|
  {
    SortOrders(xs, key, le);
    SortPermutes(xs, key, le);
    assert |multiset(Sort(xs, key, le))| == |multiset(xs)|;
  }

  lemma SortOne<T, K>(x: T, key: T -> K, le: (K, K) -> bool)
    ensures Sort([x], key, le) == [x]
  {
    assert [x][1..] == [];
    assert Sort([x][1..], key, le) == [];
  }

  lemma SortMember<T, K(!new)>(xs: seq<T>, key: T -> K, le: (K, K) -> bool, x: T)
    requires TotalPreorder(le)
    ensures x in Sort(xs, key, le) <==> x in xs
  {
    SortSorted(xs, key, le);
    assert x in xs <==> x in multiset(xs);
    assert x in Sort(xs, key, le) <==> x in multiset(Sort(xs, key, le));
  }

  lemma FilterFirst<T>(x: T, ys: seq<T>, p: T -> bool)
    ensures Filter([x] + ys, p) == (if p(x) then [x] else []) + Filter(ys, p)
  {
    assert ([x] + ys)[1..] == ys;
  }

  lemma {:induction false} InsertStable<T, K(!new)>(x: T, ys: seq<T>, key: T -> K, le: (K, K) -> bool, k: K)
    requires TotalPreorder(le) && Sorted(ys, key, le)
    ensures Filter(Insert(x, ys, key, le), Ties(key, le, k)) == Filter([x] + ys, Ties(key, le, k))
  {
    var p := Ties(key, le, k);
    if ys != [] && !le(key(x), key(ys[0])) {
      var rest := ys[1..];
      InsertStable(x, rest, key, le, k);
      assert ys == [ys[0]] + rest;
      FilterFirst(ys[0], Insert(x, rest, key, le), p);
      FilterFirst(x, rest, p);
      FilterFirst(x, ys, p);
      FilterFirst(ys[0], rest, p);
    }
  }

  /** Stability: elements that rank equally keep their input order. */
  lemma {:induction false} SortStable<T, K(!new)>(xs: seq<T>, key: T -> K, le: (K, K) -> bool, k: K)
    requires TotalPreorder(le)
    ensures Filter(Sort(xs, key, le), Ties(key, le, k)) == Filter(xs, Ties(key, le, k))
  {
    if xs != [] {
      SortStable(xs[1..], key, le, k);
      SortSorted(xs[1..], key, le);
      var p := Ties(key, le, k);
      InsertStable(xs[0], Sort(xs[1..], key, le), key, le, k);
      FilterAppend([xs[0]], Sort(xs[1..], key, le), p);
      FilterAppend([xs[0]], xs[1..], p);
      assert xs == [xs[0]] + xs[1..];
    }
  }

  lemma FirstTie<T, K(!new)>(xs: seq<T>, key: T -> K, le: (K, K) -> bool)
    requires TotalPreorder(le) && xs != []
    ensures Filter(xs, Ties(key, le, key(xs[0]))) != [] && Filter(xs, Ties(key, le, key(xs[0])))[0] == xs[0]
  {
    assert le(key(xs[0]), key(xs[0]));
  }

  /** Sortedness and stability leave no choice: they determine the sequence. */
  lemma {:induction false} SortedUnique<T, K(!new)>(xs: seq<T>, ys: seq<T>, key: T -> K, le: (K, K) -> bool)
    requires TotalPreorder(le) && Sorted(xs, key, le) && Sorted(ys, key, le)
    requires forall k :: Filter(xs, Ties(key, le, k)) == Filter(ys, Ties(key, le, k))
    ensures xs == ys
  {
    if xs == [] {
      if ys != [] {
        FirstTie(ys, key, le);
        assert false;
      }
    } else {
      var k := key(xs[0]);
      FirstTie(xs, key, le);
      FilterMember(ys, Ties(key, le, k), xs[0]);
      assert xs[0] in Filter(ys, Ties(key, le, k));
      assert ys != [];
      var m := key(ys[0]);
      FirstTie(ys, key, le);
      FilterMember(xs, Ties(key, le, m), ys[0]);
      assert ys[0] in Filter(xs, Ties(key, le, m));
      HeadIsLeast(xs, ys[0], key, le);
      HeadIsLeast(ys, xs[0], key, le);
      assert xs[0] == ys[0] by {
        assert Ties(key, le, k)(ys[0]) && Ties(key, le, m)(xs[0]);
        assert Filter(ys, Ties(key, le, k))[0] == ys[0];
      }
      forall k'
        ensures Filter(xs[1..], Ties(key, le, k')) == Filter(ys[1..], Ties(key, le, k'))
      {
        var p := Ties(key, le, k');
        assert Filter(xs, p) == Filter(ys, p);
        assert Filter(xs, p) == (if p(xs[0]) then [xs[0]] else []) + Filter(xs[1..], p);
        assert Filter(ys, p) == (if p(ys[0]) then [ys[0]] else []) + Filter(ys[1..], p);
        var n := if p(xs[0]) then 1 else 0;
        assert Filter(xs[1..], p) == Filter(xs, p)[n..];
        assert Filter(ys[1..], p) == Filter(ys, p)[n..];
      }
      SortedUnique(xs[1..], ys[1..], key, le);
      assert xs == [xs[0]] + xs[1..] && ys == [ys[0]] + ys[1..];
    }
  }

  lemma HeadIsLeast<T, K(!new)>(xs: seq<T>, x: T, key: T -> K, le: (K, K) -> bool)
    requires TotalPreorder(le) && Sorted(xs, key, le) && x in xs
    ensures le(key(xs[0]), key(x))
  {
    var i :| 0 <= i < |xs| && xs[i] == x;
    assert le(key(xs[0]), key(xs[0]));
  }

  /** Any sorted sequence with the same ties in the same order is the sort. */
  lemma SortDetermined<T, K(!new)>(xs: seq<T>, ys: seq<T>, key: T -> K, le: (K, K) -> bool)
    requires TotalPreorder(le) && Sorted(ys, key, le)
    requires forall k :: Filter(xs, Ties(key, le, k)) == Filter(ys, Ties(key, le, k))
    ensures Sort(xs, key, le) == ys
  {
    SortSorted(xs, key, le);
    forall k ensures Filter(Sort(xs, key, le), Ties(key, le, k)) == Filter(ys, Ties(key, le, k)) {
      SortStable(xs, key, le, k);
    }
    SortedUnique(Sort(xs, key, le), ys, key, le);
  }

  lemma SortFixed<T, K(!new)>(xs: seq<T>, key: T -> K, le: (K, K) -> bool)
    requires TotalPreorder(le) && Sorted(xs, key, le)
    ensures Sort(xs, key, le) == xs
  {
    SortDetermined(xs, xs, key, le);
  }

  /** Sorting two already sorted halves gives what sorting everything at once gives. */
  lemma SortOfSorts<T, K(!new)>(xs: seq<T>, ys: seq<T>, key: T -> K, le: (K, K) -> bool)
    requires TotalPreorder(le)
    ensures Sort(Sort(xs, key, le) + Sort(ys, key, le), key, le) == Sort(xs + ys, key, le)
  {
    var a, b := Sort(xs, key, le), Sort(ys, key, le);
    SortSorted(xs + ys, key, le);
    forall k ensures Filter(a + b, Ties(key, le, k)) == Filter(Sort(xs + ys, key, le), Ties(key, le, k)) {
      var p := Ties(key, le, k);
      SortStable(xs, key, le, k);
      SortStable(ys, key, le, k);
      SortStable(xs + ys, key, le, k);
      FilterAppend(a, b, p);
      FilterAppend(xs, ys, p);
    }
    SortDetermined(a + b, Sort(xs + ys, key, le), key, le);
  }

  lemma {:induction false} FilterSorted<T, K(!new)>(xs: seq<T>, p: T -> bool, key: T -> K, le: (K, K) -> bool)
    requires TotalPreorder(le) && Sorted(xs, key, le)
    ensures Sorted(Filter(xs, p), key, le)
  {
    if xs != [] {
      FilterSorted(xs[1..], p, key, le);
      var rest := Filter(xs[1..], p);
      forall i | 0 <= i < |rest| ensures le(key(xs[0]), key(rest[i])) {
        FilterMember(xs[1..], p, rest[i]);
        HeadIsLeast(xs, rest[i], key, le);
      }
    }
  }

  /** Filtering commutes with sorting. */
  lemma SortFilter<T, K(!new)>(xs: seq<T>, p: T -> bool, key: T -> K, le: (K, K) -> bool)
    requires TotalPreorder(le)
    ensures Filter(Sort(xs, key, le), p) == Sort(Filter(xs, p), key, le)
  {
    var s := Sort(xs, key, le);
    SortSorted(xs, key, le);
    FilterSorted(s, p, key, le);
    forall k ensures Filter(Filter(xs, p), Ties(key, le, k)) == Filter(Filter(s, p), Ties(key, le, k)) {
      FilterSwap(xs, p, Ties(key, le, k));
      FilterSwap(s, p, Ties(key, le, k));
      SortStable(xs, key, le, k);
    }
    SortDetermined(Filter(xs, p), Filter(s, p), key, le);
  }
}
