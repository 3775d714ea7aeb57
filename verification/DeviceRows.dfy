/** The device lookup that `rename` and `tag` go through. */
module DeviceRows {
  import opened Prelude
  import opened Keyed
  import opened TrustState

  type Index = seq<Entry<Fingerprint, IndexInfo>>

  lemma {:induction false} RowsMember(book: Book, index: Index, onDisk: set<Fingerprint>, selector: string,
                                      fp: Fingerprint)
    ensures fp in Rows(book, index, onDisk, selector) <==>
            Lookup(index, fp).Some? && fp in onDisk && selector <= book(fp).deviceId
  {
    if index != [] {
      RowsMember(book, index[1..], onDisk, selector, fp);
    }
  }

  lemma {:induction false} RowsAppend(
    book: Book, index: Index, onDisk: set<Fingerprint>, selector: string, e: Entry<Fingerprint, IndexInfo>)
    ensures Rows(book, index + [e], onDisk, selector) ==
            Rows(book, index, onDisk, selector) + if e.key in onDisk && selector <= book(e.key).deviceId then [e.key]
                else []
  {
    if index == [] {
      assert index + [e] == [e] && [e][1..] == [];
    } else {
      assert (index + [e])[1..] == index[1..] + [e];
      RowsAppend(book, index[1..], onDisk, selector, e);
    }
  }

  lemma RowsOne(book: Book, e: Entry<Fingerprint, IndexInfo>, onDisk: set<Fingerprint>, selector: string)
    ensures Rows(book, [e], onDisk, selector) ==
            if e.key in onDisk && selector <= book(e.key).deviceId then [e.key] else []
  {
    assert [e][1..] == [];
  }

  lemma RowsTwo(
    book: Book, e: Entry<Fingerprint, IndexInfo>, f: Entry<Fingerprint, IndexInfo>, onDisk: set<Fingerprint>,
    selector: string)
    ensures Rows(book, [e, f], onDisk, selector) ==
            (if e.key in onDisk && selector <= book(e.key).deviceId then [e.key] else [])
              + Rows(book, [f], onDisk, selector)
  {
    assert [e, f][1..] == [f];
  }

  /** Taking out a certificate of another device leaves the rows as they are. */
  lemma {:induction false} RowsWithout(book: Book, index: Index, onDisk: set<Fingerprint>, selector: string,
                                       fp: Fingerprint)
    requires !(selector <= book(fp).deviceId)
    ensures Rows(book, Without(index, fp), onDisk, selector) == Rows(book, index, onDisk, selector)
  {
    if index != [] {
      RowsWithout(book, index[1..], onDisk, selector, fp);
      if index[0].key != fp {
        assert ([index[0]] + Without(index[1..], fp))[1..] == Without(index[1..], fp);
      }
    }
  }

  lemma {:induction false} RowsGrow(
    book: Book, index: Index, onDisk: set<Fingerprint>, onDisk': set<Fingerprint>, selector: string)
    requires onDisk <= onDisk'
    ensures |Rows(book, index, onDisk, selector)| <= |Rows(book, index, onDisk', selector)|
  {
    if index != [] {
      RowsGrow(book, index[1..], onDisk, onDisk', selector);
    }
  }

  lemma {:induction false} RowsNarrow(
    book: Book, index: Index, onDisk: set<Fingerprint>, selector: string, longer: string)
    requires selector <= longer
    ensures |Rows(book, index, onDisk, longer)| <= |Rows(book, index, onDisk, selector)|
  {
    if index != [] {
      RowsNarrow(book, index[1..], onDisk, selector, longer);
    }
  }

  /** Whatever a selector finds is the only row of its device. */
  lemma ResolvedIsSole(book: Book, s: State, selector: string, fp: Fingerprint)
    requires Resolve(book, s, selector) == Ok(fp)
    ensures Sole(book, s, fp) && Indexed(s.payload, fp) && fp in s.onDisk && selector <= book(fp).deviceId
  {
    var index, device := s.payload.index, book(fp).deviceId;
    RowsMember(book, index, s.onDisk, selector, fp);
    RowsMember(book, index, s.onDisk, device, fp);
    RowsNarrow(book, index, s.onDisk, selector, device);
  }

  /** Some selector finds a certificate exactly if it is the only row of its device. */
  lemma SelectableExactly(book: Book, s: State, fp: Fingerprint)
    ensures (exists selector :: Resolve(book, s, selector) == Ok(fp)) <==> Unresolved(book, s, fp).None?
  {
    if Unresolved(book, s, fp).None? {
      assert Resolve(book, s, book(fp).deviceId) == Ok(fp);
    }
    forall selector | Resolve(book, s, selector) == Ok(fp) ensures Unresolved(book, s, fp).None? {
      ResolvedIsSole(book, s, selector, fp);
    }
  }
}
