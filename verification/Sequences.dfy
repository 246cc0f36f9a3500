/** Facts about filtering and summing sequences that several components share. */
module Sequences {

  datatype Option<+T> = None | Some(value: T)

  /** The elements of `xs` that satisfy `p`, in order: a Python list comprehension with an `if`. */
  function Filter<T>(xs: seq<T>, p: T -> bool): seq<T>
  {
    if xs == [] then [] else (if p(xs[0]) then [xs[0]] else []) + Filter(xs[1..], p)
  }

  /** One more element of a prefix. */
  lemma PrefixStep<T>(xs: seq<T>, i: nat)
    requires i < |xs|
    ensures xs[..i + 1] == xs[..i] + [xs[i]] && xs[..i + 1][..i] == xs[..i]
  {
  }

  /** An element is in front or it is the last. */
  lemma MembersOfInit<T>(xs: seq<T>)
    requires xs != []
    ensures forall x :: x in xs <==> x in xs[..|xs| - 1] || x == xs[|xs| - 1]
  {
    assert xs == xs[..|xs| - 1] + [xs[|xs| - 1]];
  }

  /** A Python list comprehension without an `if`. */
  function Map<T, U>(xs: seq<T>, f: T -> U): (ys: seq<U>)
    ensures |ys| == |xs|
    ensures forall i :: 0 <= i < |xs| ==> ys[i] == f(xs[i])
  {
    if xs == [] then [] else [f(xs[0])] + Map(xs[1..], f)
  }

  lemma MapLast<T, U>(xs: seq<T>, x: T, f: T -> U)
    ensures Map(xs + [x], f) == Map(xs, f) + [f(x)]
  {
  }

  lemma {:induction false} FilterAppend<T>(xs: seq<T>, ys: seq<T>, p: T -> bool)
    ensures Filter(xs + ys, p) == Filter(xs, p) + Filter(ys, p)
  {
    if xs == [] {
      assert xs + ys == ys;
    } else {
      var head := if p(xs[0]) then [xs[0]] else [];
      assert (xs + ys)[1..] == xs[1..] + ys;
      FilterAppend(xs[1..], ys, p);
      assert head + (Filter(xs[1..], p) + Filter(ys, p)) == (head + Filter(xs[1..], p)) + Filter(ys, p);
    }
  }

  lemma FilterLast<T>(xs: seq<T>, x: T, p: T -> bool)
    ensures Filter(xs + [x], p) == Filter(xs, p) + if p(x) then [x] else []
  {
    FilterAppend(xs, [x], p);
    assert [x][1..] == [];
  }

  lemma {:induction false} FilterMember<T>(xs: seq<T>, p: T -> bool, x: T)
    ensures x in Filter(xs, p) <==> x in xs && p(x)
  {
    if xs != [] {
      FilterMember(xs[1..], p, x);
    }
  }

  lemma {:induction false} FilterAll<T>(xs: seq<T>, p: T -> bool)
    requires forall x :: x in xs ==> p(x)
    ensures Filter(xs, p) == xs
  {
    if xs != [] {
      FilterAll(xs[1..], p);
    }
  }

  lemma {:induction false} FilterNone<T>(xs: seq<T>, p: T -> bool)
    requires forall x :: x in xs ==> !p(x)
    ensures Filter(xs, p) == []
  {
    if xs != [] {
      FilterNone(xs[1..], p);
    }
  }

  /** Filters commute. */
  lemma {:induction false} FilterSwap<T>(xs: seq<T>, p: T -> bool, q: T -> bool)
    ensures Filter(Filter(xs, p), q) == Filter(Filter(xs, q), p)
  {
    if xs != [] {
      var rest := xs[1..];
      FilterSwap(rest, p, q);
      FilterAppend(if p(xs[0]) then [xs[0]] else [], Filter(rest, p), q);
      FilterAppend(if q(xs[0]) then [xs[0]] else [], Filter(rest, q), p);
    }
  }

  /** Taking one occurrence of the first element of `xs` out of a permutation of `xs`. */
  lemma TakeOut<T>(xs: seq<T>, ys: seq<T>) returns (i: nat)
    requires xs != [] && multiset(xs) == multiset(ys)
    ensures i < |ys| && ys[i] == xs[0]
    ensures ys == ys[..i] + [ys[i]] + ys[i + 1..]
    ensures multiset(xs[1..]) == multiset(ys[..i] + ys[i + 1..])
  {
    assert xs[0] in multiset(xs);
    assert xs[0] in ys;
    i :| 0 <= i < |ys| && ys[i] == xs[0];
    assert xs == [xs[0]] + xs[1..];
    assert ys == ys[..i] + [ys[i]] + ys[i + 1..];
    assert multiset(ys) == multiset(ys[..i]) + multiset([ys[i]]) + multiset(ys[i + 1..]);
    assert multiset(xs[1..]) == multiset(xs) - multiset{xs[0]};
  }

  lemma {:induction false} FilterIgnoresOrder<T>(xs: seq<T>, ys: seq<T>, p: T -> bool)
    requires multiset(xs) == multiset(ys)
    ensures multiset(Filter(xs, p)) == multiset(Filter(ys, p))
  {
    if xs == [] {
      assert |multiset(ys)| == 0;
    } else {
      var i := TakeOut(xs, ys);
      FilterIgnoresOrder(xs[1..], ys[..i] + ys[i + 1..], p);
      FilterAppend(ys[..i], ys[i + 1..], p);
      FilterAppend(ys[..i] + [ys[i]], ys[i + 1..], p);
      FilterLast(ys[..i], ys[i], p);
    }
  }

  /** Two positions that satisfy `p` leave two elements. */
  lemma TwoKept<T>(xs: seq<T>, p: T -> bool, j: nat, k: nat)
    requires j < k < |xs| && p(xs[j]) && p(xs[k])
    ensures |Filter(xs, p)| >= 2
  {
    FilterMember(xs[..k], p, xs[j]);
    FilterMember(xs[k..], p, xs[k]);
    FilterAppend(xs[..k], xs[k..], p);
    assert xs == xs[..k] + xs[k..];
    assert xs[..k][j] in xs[..k] && xs[k..][0] in xs[k..];
  }

  /** And one position leaves one. */
  lemma OneKept<T>(xs: seq<T>, p: T -> bool, i: nat)
    requires i < |xs| && p(xs[i]) && forall j :: 0 <= j < |xs| && j != i ==> !p(xs[j])
    ensures |Filter(xs, p)| == 1
  {
    FilterAppend(xs[..i], xs[i..], p);
    assert xs == xs[..i] + xs[i..];
    forall x | x in xs[..i] ensures !p(x) {
      var j :| 0 <= j < i && xs[..i][j] == x;
      assert xs[j] == x;
    }
    forall x | x in xs[i + 1..] ensures !p(x) {
      var j :| 0 <= j < |xs[i + 1..]| && xs[i + 1..][j] == x;
      assert xs[i + 1 + j] == x;
    }
    FilterNone(xs[..i], p);
    FilterNone(xs[i + 1..], p);
    assert xs[i..][1..] == xs[i + 1..];
  }
}
