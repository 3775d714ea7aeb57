/** Lexicographic order of strings, as `str::cmp` gives it on code points. */
module StringOrder {
  import opened Prelude
  import opened Ordering

  predicate StrLe(a: string, b: string) {
    a == "" || (b != "" && (a[0] < b[0] || (a[0] == b[0] && StrLe(a[1..], b[1..]))))
  }

  predicate StrLt(a: string, b: string) {
    StrLe(a, b) && a != b
  }

  lemma {:induction false} StrTotal(a: string, b: string)
    ensures StrLe(a, b) || StrLe(b, a)
    ensures StrLe(a, b) && StrLe(b, a) ==> a == b
  {
    if a != "" && b != "" {
      StrTotal(a[1..], b[1..]);
      assert a == [a[0]] + a[1..] && b == [b[0]] + b[1..];
    }
  }

  lemma {:induction false} StrTransitive(a: string, b: string, c: string)
    requires StrLe(a, b) && StrLe(b, c)
    ensures StrLe(a, c)
  {
    if a != "" && a[0] == b[0] == c[0] {
      StrTransitive(a[1..], b[1..], c[1..]);
    }
  }

  lemma StrOrder()
    ensures Transitive(StrLe) && (forall a, b :: StrLe(a, b) || StrLe(b, a))
    ensures Transitive(StrLt)
  {
    forall a, b ensures StrLe(a, b) || StrLe(b, a) { StrTotal(a, b); }
    forall a, b, c | StrLe(a, b) && StrLe(b, c) ensures StrLe(a, c) { StrTransitive(a, b, c); }
    forall a, b, c | StrLt(a, b) && StrLt(b, c) ensures StrLt(a, c) {
      StrTransitive(a, b, c);
      StrTotal(a, b);
      StrTotal(b, c);
    }
  }

  /** `dedup`: drop an element equal to the one before it. */
  function Dedup(xs: seq<string>): (ys: seq<string>)
    ensures xs != [] ==> ys != [] && ys[0] == xs[0]
  {
    if |xs| < 2 then xs
    else if xs[0] == xs[1] then Dedup(xs[1..]) else [xs[0]] + Dedup(xs[1..])
  }

  lemma {:induction false} DedupElements(xs: seq<string>)
    ensures forall x :: x in Dedup(xs) <==> x in xs
  {
    if |xs| >= 2 {
      DedupElements(xs[1..]);
      assert xs == [xs[0]] + xs[1..];
    }
  }

  lemma {:induction false} DedupStrict(xs: seq<string>)
    requires Pairwise(xs, StrLe)
    ensures Pairwise(Dedup(xs), StrLt)
  {
    if |xs| >= 2 {
      DedupStrict(xs[1..]);
      DedupElements(xs[1..]);
      if xs[0] != xs[1] {
        var ys := Dedup(xs[1..]);
        StrOrder();
        forall j | 0 <= j < |ys| ensures StrLt(xs[0], ys[j]) {
          assert ys[j] in xs[1..];
          var i :| 0 <= i < |xs[1..]| && xs[1..][i] == ys[j];
          assert xs[i + 1] == ys[j] && StrLe(xs[0], xs[1]);
          if ys[j] == xs[0] {
            assert StrLe(xs[1], xs[i + 1]) || i == 0;
            StrTotal(xs[0], xs[1]);
          }
        }
      }
    }
  }

  /** `sort` then `dedup`. */
  function SortDedup(xs: seq<string>): (ys: seq<string>) {
    Dedup(SortBy(xs, StrLe))
  }

  lemma SortDedupStrict(xs: seq<string>)
    ensures Pairwise(SortDedup(xs), StrLt)
    ensures forall x :: x in SortDedup(xs) <==> x in xs
  {
    StrOrder();
    SortElements(xs, StrLe);
    DedupElements(SortBy(xs, StrLe));
    SortSorted(xs, StrLe);
    DedupStrict(SortBy(xs, StrLe));
  }

  /** A strictly sorted list is determined by its elements. */
  lemma {:induction false} StrictUnique(xs: seq<string>, ys: seq<string>)
    requires Pairwise(xs, StrLt) && Pairwise(ys, StrLt) && forall x :: x in xs <==> x in ys
    ensures xs == ys
    decreases |xs|
  {
    assert |ys| > 0 ==> ys[0] in xs;
    if xs != [] {
      assert xs[0] in ys;
      var i :| 0 <= i < |ys| && ys[i] == xs[0];
      var j :| 0 <= j < |xs| && xs[j] == ys[0];
      assert xs[0] == ys[0] by {
        if i > 0 && j > 0 {
          assert StrLt(ys[0], ys[i]) && StrLt(xs[0], xs[j]);
          StrTotal(xs[0], ys[0]);
        }
      }
      forall x ensures x in xs[1..] <==> x in ys[1..] {
        TailElements(xs, x);
        TailElements(ys, x);
      }
      StrictUnique(xs[1..], ys[1..]);
      assert xs == [xs[0]] + xs[1..] && ys == [ys[0]] + ys[1..];
    }
  }

  lemma TailElements(xs: seq<string>, x: string)
    requires xs != [] && Pairwise(xs, StrLt)
    ensures x in xs[1..] <==> x in xs && x != xs[0]
  {
    if x in xs[1..] {
      var i :| 0 <= i < |xs[1..]| && xs[1..][i] == x;
      assert xs[i + 1] == x && StrLt(xs[0], xs[i + 1]);
    }
    assert xs == [xs[0]] + xs[1..];
  }
}
