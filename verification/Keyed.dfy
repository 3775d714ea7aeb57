/** Keyed lists: the vectors of `NetworkStatePayload`, edited by `retain`, `push` and `find`. */
module Keyed {
  import opened Prelude

  datatype Entry<K, V> = Entry(key: K, value: V)

  /** `retain(|e| e.key != k)`. */
  function Without<K(==), V>(xs: seq<Entry<K, V>>, k: K): (ys: seq<Entry<K, V>>)
    ensures |ys| <= |xs|
  {
    if xs == [] then []
    else if xs[0].key == k then Without(xs[1..], k)
    else [xs[0]] + Without(xs[1..], k)
  }

  /** `retain` followed by `push`. */
  function Put<K(==), V>(xs: seq<Entry<K, V>>, k: K, v: V): seq<Entry<K, V>> {
    Without(xs, k) + [Entry(k, v)]
  }

  /** `find(|e| e.key == k)`. */
  function Lookup<K(==), V>(xs: seq<Entry<K, V>>, k: K): Option<V> {
    if xs == [] then None
    else if xs[0].key == k then Some(xs[0].value)
    else Lookup(xs[1..], k)
  }

  ghost predicate UniqueKeys<K, V>(xs: seq<Entry<K, V>>) {
    forall i, j :: 0 <= i < j < |xs| ==> xs[i].key != xs[j].key
  }

  lemma {:induction false} LookupFinds<K, V>(xs: seq<Entry<K, V>>, k: K)
    ensures Lookup(xs, k).None? ==> forall i :: 0 <= i < |xs| ==> xs[i].key != k
    ensures Lookup(xs, k).Some? ==> exists i :: 0 <= i < |xs| && xs[i] == Entry(k, Lookup(xs, k).value)
  {
    if xs != [] && xs[0].key != k {
      LookupFinds(xs[1..], k);
      if Lookup(xs, k).Some? {
        var i :| 0 <= i < |xs[1..]| && xs[1..][i] == Entry(k, Lookup(xs, k).value);
        assert xs[i + 1] == xs[1..][i];
      } else {
        forall i | 0 <= i < |xs| ensures xs[i].key != k {
          if i > 0 { assert xs[i] == xs[1..][i - 1]; }
        }
      }
    }
  }

  lemma {:induction false} LookupOther<K, V>(xs: seq<Entry<K, V>>, k: K, other: K)
    ensures Lookup(Without(xs, k), other) == if other == k then None else Lookup(xs, other)
  {
    if xs != [] {
      LookupOther(xs[1..], k, other);
    }
  }

  lemma {:induction false} LookupAppend<K, V>(xs: seq<Entry<K, V>>, e: Entry<K, V>, k: K)
    ensures Lookup(xs + [e], k) ==
            if Lookup(xs, k).Some? then Lookup(xs, k) else if e.key == k then Some(e.value) else None
  {
    if xs == [] {
      assert xs + [e] == [e];
      assert [e][1..] == [];
    } else {
      assert (xs + [e])[1..] == xs[1..] + [e];
      LookupAppend(xs[1..], e, k);
    }
  }

  /** A `Put` decides its own key and no other. */
  lemma LookupPut<K, V>(xs: seq<Entry<K, V>>, k: K, v: V, other: K)
    ensures Lookup(Put(xs, k, v), other) == if other == k then Some(v) else Lookup(xs, other)
  {
    LookupOther(xs, k, other);
    LookupAppend(Without(xs, k), Entry(k, v), other);
  }

  /** Every entry of the filtered list is one of the original, with another key, in the same order. */
  lemma {:induction false} WithoutEntries<K(!new), V(!new)>(xs: seq<Entry<K, V>>, k: K)
    ensures forall e :: e in Without(xs, k) <==> e in xs && e.key != k
    ensures UniqueKeys(xs) ==> UniqueKeys(Without(xs, k))
  {
    if xs != [] {
      WithoutEntries(xs[1..], k);
      assert xs == [xs[0]] + xs[1..];
      var rest := Without(xs[1..], k);
      if UniqueKeys(xs) && xs[0].key != k {
        assert UniqueKeys(xs[1..]);
        forall j | 0 <= j < |rest| ensures rest[j].key != xs[0].key {
          assert rest[j] in rest;
          var i :| 0 <= i < |xs[1..]| && xs[1..][i] == rest[j];
          assert xs[i + 1] == rest[j];
        }
      }
    }
  }

  lemma PutEntries<K(!new), V(!new)>(xs: seq<Entry<K, V>>, k: K, v: V)
    ensures forall e :: e in Put(xs, k, v) <==> (e in xs && e.key != k) || e == Entry(k, v)
    ensures UniqueKeys(xs) ==> UniqueKeys(Put(xs, k, v))
  {
    WithoutEntries(xs, k);
    var ys := Without(xs, k);
    forall i | 0 <= i < |ys| ensures ys[i].key != k {
      assert ys[i] in ys;
    }
  }

  /** Removing an absent key changes nothing, and the length tells whether it was absent. */
  lemma {:induction false} WithoutAbsent<K, V>(xs: seq<Entry<K, V>>, k: K)
    ensures Lookup(xs, k).None? ==> Without(xs, k) == xs
    ensures |Without(xs, k)| == |xs| <==> Lookup(xs, k).None?
  {
    if xs != [] {
      WithoutAbsent(xs[1..], k);
      assert xs == [xs[0]] + xs[1..];
    }
  }

  lemma {:induction false} WithoutAppend<K, V>(xs: seq<Entry<K, V>>, e: Entry<K, V>, k: K)
    ensures Without(xs + [e], k) == Without(xs, k) + if e.key == k then [] else [e]
  {
    if xs == [] {
      assert xs + [e] == [e];
      assert [e][1..] == [];
    } else {
      assert (xs + [e])[1..] == xs[1..] + [e];
      WithoutAppend(xs[1..], e, k);
    }
  }

  lemma LookupOne<K, V>(a: Entry<K, V>, k: K)
    ensures Lookup([a], k) == if k == a.key then Some(a.value) else None
  {
    assert [a][1..] == [];
  }

  lemma LookupTwo<K, V>(a: Entry<K, V>, b: Entry<K, V>, k: K)
    ensures Lookup([a, b], k) == if k == a.key then Some(a.value) else Lookup([b], k)
  {
    assert [a, b][1..] == [b];
  }
}
