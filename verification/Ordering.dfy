/** Stable insertion sort: the model of Rust's `sort_by` and `sort_by_key`. */
module Ordering {
  import opened Prelude

  /** Put `x` in front of the first element it does not come after. */
  function Insert<T>(x: T, ys: seq<T>, le: (T, T) -> bool): (zs: seq<T>)
    ensures multiset(zs) == multiset(ys) + multiset{x}
    ensures |zs| == |ys| + 1
  {
    if ys == [] then [x]
    else if le(x, ys[0]) then [x] + ys
    else
      assert ys == [ys[0]] + ys[1..];
      [ys[0]] + Insert(x, ys[1..], le)
  }

  function SortBy<T(!new)>(xs: seq<T>, le: (T, T) -> bool): (ys: seq<T>) {
    if xs == [] then [] else Insert(xs[0], SortBy(xs[1..], le), le)
  }

  lemma SortElements<T(!new)>(xs: seq<T>, le: (T, T) -> bool)
    ensures multiset(SortBy(xs, le)) == multiset(xs) && |SortBy(xs, le)| == |xs|
    ensures forall x :: x in SortBy(xs, le) <==> x in xs
  {
    SortMultiset(xs, le);
    var ys := SortBy(xs, le);
    assert forall x :: x in ys <==> x in multiset(ys);
    assert forall x :: x in xs <==> x in multiset(xs);
    assert |multiset(ys)| == |ys| && |multiset(xs)| == |xs|;
  }

  lemma {:induction false} SortMultiset<T(!new)>(xs: seq<T>, le: (T, T) -> bool)
    ensures multiset(SortBy(xs, le)) == multiset(xs)
  {
    if xs != [] {
      SortMultiset(xs[1..], le);
      assert xs == [xs[0]] + xs[1..];
    }
  }

  ghost predicate Transitive<T(!new)>(rel: (T, T) -> bool) {
    forall x, y, z :: rel(x, y) && rel(y, z) ==> rel(x, z)
  }

  /**
   * `prec` is the order that a stable sort by `le` must produce on `xs`: the key decides, and
   * between equal keys the earlier element of `xs` comes first.
   */
  ghost predicate StableOrder<T(!new)>(xs: seq<T>, le: (T, T) -> bool, prec: (T, T) -> bool) {
    && Transitive(prec)
    && forall i, j :: 0 <= i < j < |xs| ==>
         if le(xs[i], xs[j]) then prec(xs[i], xs[j]) else prec(xs[j], xs[i])
  }

  lemma {:induction false} InsertPairwise<T(!new)>(x: T, ys: seq<T>, le: (T, T) -> bool, prec: (T, T) -> bool)
    requires Transitive(prec) && Pairwise(ys, prec)
    requires forall y :: y in ys ==> if le(x, y) then prec(x, y) else prec(y, x)
    ensures Pairwise(Insert(x, ys, le), prec)
  {
    if ys == [] {
    } else if le(x, ys[0]) {
      assert ys[0] in ys;
      forall j | 0 <= j < |ys| ensures prec(x, ys[j]) {
        if j > 0 { assert prec(ys[0], ys[j]); }
      }
    } else {
      assert ys[0] in ys;
      InsertPairwise(x, ys[1..], le, prec);
      var tail := Insert(x, ys[1..], le);
      forall j | 0 <= j < |tail| ensures prec(ys[0], tail[j]) {
        assert tail[j] in multiset(tail);
        if tail[j] != x {
          assert tail[j] in ys[1..];
        }
      }
    }
  }

  /** A stable sort puts its input into the stable order. */
  lemma {:induction false} SortPairwise<T(!new)>(xs: seq<T>, le: (T, T) -> bool, prec: (T, T) -> bool)
    requires StableOrder(xs, le, prec)
    ensures Pairwise(SortBy(xs, le), prec)
  {
    if xs != [] {
      forall i, j | 0 <= i < j < |xs[1..]|
        ensures if le(xs[1..][i], xs[1..][j]) then prec(xs[1..][i], xs[1..][j]) else prec(xs[1..][j], xs[1..][i])
      {
        assert xs[1..][i] == xs[i + 1] && xs[1..][j] == xs[j + 1];
      }
      SortPairwise(xs[1..], le, prec);
      SortElements(xs[1..], le);
      InsertPairwise(xs[0], SortBy(xs[1..], le), le, prec);
    }
  }

  /** For a total preorder the result is sorted by it, whatever the input. */
  lemma SortSorted<T(!new)>(xs: seq<T>, le: (T, T) -> bool)
    requires Transitive(le) && forall x, y :: le(x, y) || le(y, x)
    ensures Pairwise(SortBy(xs, le), le)
  {
    SortPairwise(xs, le, le);
  }

  lemma MapCons<T, U>(x: T, ys: seq<T>, f: T -> U)
    ensures Map([x] + ys, f) == [f(x)] + Map(ys, f)
  {
  }

  lemma {:induction false} InsertMap<T(!new), U(!new)>(
    x: T, ys: seq<T>, le: (T, T) -> bool, le': (U, U) -> bool, f: T -> U)
    requires forall a, b :: le(a, b) == le'(f(a), f(b))
    ensures Insert(f(x), Map(ys, f), le') == Map(Insert(x, ys, le), f)
  {
    if ys == [] || le(x, ys[0]) {
      MapCons(x, ys, f);
    } else {
      InsertMap(x, ys[1..], le, le', f);
      assert Map(ys, f)[1..] == Map(ys[1..], f);
      MapCons(ys[0], Insert(x, ys[1..], le), f);
    }
  }

  /** Sorting converted elements is converting sorted elements, when the conversion keeps the key. */
  lemma {:induction false} SortMap<T(!new), U(!new)>(xs: seq<T>, le: (T, T) -> bool, le': (U, U) -> bool, f: T -> U)
    requires forall a, b :: le(a, b) == le'(f(a), f(b))
    ensures SortBy(Map(xs, f), le') == Map(SortBy(xs, le), f)
  {
    if xs != [] {
      SortMap(xs[1..], le, le', f);
      assert Map(xs, f)[1..] == Map(xs[1..], f);
      InsertMap(xs[0], SortBy(xs[1..], le), le, le', f);
    }
  }
}
