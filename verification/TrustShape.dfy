/** The shape of the payload in every reachable state, and which certificates it can mention. */
module TrustShape {
  import opened Prelude
  import opened Ordering
  import opened Keyed
  import opened StringOrder
  import opened HintNames
  import opened TrustState
  import opened TrustRuns

  // --- Overrides: one per key, and never equal to the certificate ---

  ghost predicate Overrides(book: Book, p: Payload) {
    && UniqueKeys(p.disabled) && UniqueKeys(p.grants) && UniqueKeys(p.bindings) && UniqueKeys(p.ips)
    && (forall e :: e in p.grants ==> e.value.capabilities != book(e.key).capabilities)
    && (forall e :: e in p.bindings ==> e.value.hostname != book(e.key).hostname)
  }

  lemma DisabledUnique(book: Book, s: State, cmd: Command)
    requires UniqueKeys(s.payload.disabled)
    ensures UniqueKeys(Apply(book, s, cmd).0.payload.disabled)
  {
    DisabledStep(book, s, cmd);
    if cmd.Disable? {
      PutEntries(s.payload.disabled, cmd.fp, DisabledInfo(cmd.at, cmd.until, cmd.note));
    } else if cmd.Enable? {
      WithoutEntries(s.payload.disabled, cmd.fp);
    }
  }

  lemma AddressesUnique(book: Book, s: State, cmd: Command)
    requires UniqueKeys(s.payload.ips)
    ensures UniqueKeys(Apply(book, s, cmd).0.payload.ips)
  {
    if cmd.AssignIpv4? {
      if cmd.ipv4.Some? { PutEntries(s.payload.ips, book(cmd.fp).deviceId, cmd.ipv4.value); }
      WithoutEntries(s.payload.ips, book(cmd.fp).deviceId);
    }
  }

  /** Setting an override keeps a property of every entry, and one entry per key. */
  lemma SetOverrideEntries<V(!new)>(
    xs: seq<Entry<Fingerprint, V>>, fp: Fingerprint, redundant: bool, v: V, fine: (Fingerprint, V) -> bool)
    requires UniqueKeys(xs) && (redundant || fine(fp, v)) && forall e :: e in xs ==> fine(e.key, e.value)
    ensures UniqueKeys(SetOverride(xs, fp, redundant, v))
    ensures forall e :: e in SetOverride(xs, fp, redundant, v) ==> fine(e.key, e.value)
  {
    PutEntries(xs, fp, v);
    WithoutEntries(xs, fp);
  }

  lemma GrantsLean(book: Book, s: State, cmd: Command)
    requires Overrides(book, s.payload)
    ensures var grants := Apply(book, s, cmd).0.payload.grants;
            UniqueKeys(grants) && forall e :: e in grants ==> e.value.capabilities != book(e.key).capabilities
  {
    GrantsStep(book, s, cmd);
    if cmd.SetCapabilities? {
      var wanted := Edited(EffectiveCapabilities(book, s.payload, cmd.fp), cmd.edit);
      SetOverrideEntries(s.payload.grants, cmd.fp, wanted == book(cmd.fp).capabilities, Grant(wanted, cmd.at),
                         (fp, g: Grant) => g.capabilities != book(fp).capabilities);
    }
  }

  lemma BindingsLean(book: Book, s: State, cmd: Command)
    requires Overrides(book, s.payload)
    ensures var bindings := Apply(book, s, cmd).0.payload.bindings;
            UniqueKeys(bindings) && forall e :: e in bindings ==> e.value.hostname != book(e.key).hostname
  {
    BindingsStep(book, s, cmd);
    if cmd.SetHostname? {
      SetOverrideEntries(s.payload.bindings, cmd.fp, cmd.hostname == book(cmd.fp).hostname,
                         Binding(cmd.hostname, cmd.at),
                         (fp, b: Binding) => b.hostname != book(fp).hostname);
    }
  }

  lemma OverridesStep(book: Book, s: State, cmd: Command)
    requires Overrides(book, s.payload)
    ensures Overrides(book, Apply(book, s, cmd).0.payload)
  {
    DisabledUnique(book, s, cmd);
    AddressesUnique(book, s, cmd);
    GrantsLean(book, s, cmd);
    BindingsLean(book, s, cmd);
  }

  // --- Tags: non-empty, strictly sorted, at most MAX_TAGS ---

  ghost predicate TidyTags(tags: map<string, seq<Fingerprint>>) {
    forall t :: t in tags ==> tags[t] != [] && Pairwise(tags[t], FpLt)
  }

  lemma TagsWithTidy(tags: map<string, seq<Fingerprint>>, tag: string, fp: Fingerprint)
    requires TidyTags(tags) && fp !in Members(tags, tag)
    ensures TidyTags(TagsWith(tags, tag, fp))
  {
    var longer := Members(tags, tag) + [fp];
    forall i, j | 0 <= i < j < |longer| ensures longer[i] != longer[j] {
      if j == |longer| - 1 { assert longer[i] in Members(tags, tag); }
    }
    SortPairwise(longer, FpLe, FpLt);
  }

  lemma TagsWithoutTidy(tags: map<string, seq<Fingerprint>>, tag: string, fp: Fingerprint)
    requires TidyTags(tags)
    ensures TidyTags(TagsWithout(tags, tag, fp))
  {
    FilterPairwise(Members(tags, tag), (m: Fingerprint) => m != fp, FpLt);
  }

  lemma TagsTidyStep(book: Book, s: State, cmd: Command)
    requires TidyTags(s.payload.tags) && |s.payload.tags| <= MAX_TAGS
    ensures TidyTags(Apply(book, s, cmd).0.payload.tags) && |Apply(book, s, cmd).0.payload.tags| <= MAX_TAGS
  {
    TagsStep(book, s, cmd);
    if cmd.UpdateTag? {
      if cmd.fp !in Members(s.payload.tags, cmd.tag) { TagsWithTidy(s.payload.tags, cmd.tag, cmd.fp); }
      TagsWithoutTidy(s.payload.tags, cmd.tag, cmd.fp);
    }
  }

  // --- Peer hints: strictly sorted by URL, with normal capability names ---

  predicate UrlLt(a: Entry<string, Hint>, b: Entry<string, Hint>) {
    StrLt(a.key, b.key)
  }

  ghost predicate TidyHints(hints: seq<Entry<string, Hint>>) {
    Pairwise(hints, UrlLt) && forall e :: e in hints ==> Pairwise(e.value.capabilities, StrLt)
  }

  lemma TidyUnique(hints: seq<Entry<string, Hint>>)
    requires Pairwise(hints, UrlLt)
    ensures UniqueKeys(hints)
  {
    forall i, j | 0 <= i < j < |hints| ensures hints[i].key != hints[j].key {
      assert UrlLt(hints[i], hints[j]);
    }
  }

  lemma SortedByUrl(hints: seq<Entry<string, Hint>>)
    requires UniqueKeys(hints)
    ensures Pairwise(SortBy(hints, ByUrl), UrlLt)
  {
    StrOrder();
    assert Transitive(UrlLt) by {
      forall a, b, c | UrlLt(a, b) && UrlLt(b, c) ensures UrlLt(a, c) {
        assert StrLt(a.key, b.key) && StrLt(b.key, c.key);
      }
    }
    SortPairwise(hints, ByUrl, UrlLt);
  }

  lemma {:induction false} ReplaceEntries(hints: seq<Entry<string, Hint>>, url: string, hint: Hint)
    requires UniqueKeys(hints)
    ensures |Replace(hints, url, hint)| == |hints|
    ensures forall i :: 0 <= i < |hints| ==>
              Replace(hints, url, hint)[i] == if hints[i].key == url then Entry(url, hint) else hints[i]
  {
    if hints != [] {
      if hints[0].key == url {
        assert hints == [hints[0]] + hints[1..];
      } else {
        assert UniqueKeys(hints[1..]);
        ReplaceEntries(hints[1..], url, hint);
      }
    }
  }

  /** With one entry per key, `find` returns any entry that is there. */
  lemma LookupUnique<V>(xs: seq<Entry<string, V>>, e: Entry<string, V>)
    requires UniqueKeys(xs) && e in xs
    ensures Lookup(xs, e.key) == Some(e.value)
  {
    LookupFinds(xs, e.key);
    var i :| 0 <= i < |xs| && xs[i] == e;
    var j :| 0 <= j < |xs| && xs[j] == Entry(e.key, Lookup(xs, e.key).value);
    assert i == j;
  }

  lemma UpsertedEntries(hints: seq<Entry<string, Hint>>, url: string, hint: Hint)
    requires UniqueKeys(hints)
    ensures UniqueKeys(Upserted(hints, url, hint))
    ensures forall e :: e in Upserted(hints, url, hint) <==> e == Entry(url, hint) || (e in hints && e.key != url)
  {
    LookupFinds(hints, url);
    var after := Upserted(hints, url, hint);
    if Lookup(hints, url).Some? {
      ReplaceEntries(hints, url, hint);
      var at :| 0 <= at < |hints| && hints[at].key == url;
      assert after[at] == Entry(url, hint);
      forall e | e in hints && e.key != url ensures e in after {
        var i :| 0 <= i < |hints| && hints[i] == e;
        assert after[i] == e;
      }
    }
  }

  /** Two lists with unique keys and the same entries look up alike. */
  lemma SameEntriesSameLookup<V>(xs: seq<Entry<string, V>>, ys: seq<Entry<string, V>>, k: string)
    requires UniqueKeys(xs) && UniqueKeys(ys)
    requires forall e :: e in xs <==> e in ys
    ensures Lookup(xs, k) == Lookup(ys, k)
  {
    LookupFinds(xs, k);
    LookupFinds(ys, k);
    if Lookup(xs, k).Some? {
      LookupUnique(ys, Entry(k, Lookup(xs, k).value));
    } else if Lookup(ys, k).Some? {
      LookupUnique(xs, Entry(k, Lookup(ys, k).value));
    }
  }

  /** Adding a hint decides its URL, leaves every other URL alone and keeps the order. */
  lemma HintAdded(hints: seq<Entry<string, Hint>>, url: string, hint: Hint, other: string)
    requires Pairwise(hints, UrlLt)
    ensures var after := SortBy(Upserted(hints, url, hint), ByUrl);
            && Pairwise(after, UrlLt)
            && Lookup(after, url) == Some(hint)
            && (other != url ==> Lookup(after, other) == Lookup(hints, other))
  {
    TidyUnique(hints);
    UpsertedEntries(hints, url, hint);
    var raw := Upserted(hints, url, hint);
    SortElements(raw, ByUrl);
    var after := SortBy(raw, ByUrl);
    SortedByUrl(raw);
    TidyUnique(after);
    LookupUnique(after, Entry(url, hint));
    if other != url {
      WithoutEntries(hints, url);
      WithoutEntries(after, url);
      SameEntriesSameLookup(Without(hints, url), Without(after, url), other);
      LookupOther(hints, url, other);
      LookupOther(after, url, other);
    }
  }

  lemma HintRemoved(hints: seq<Entry<string, Hint>>, url: string, other: string)
    requires Pairwise(hints, UrlLt)
    ensures var after := SortBy(Without(hints, url), ByUrl);
            && Pairwise(after, UrlLt)
            && Lookup(after, other) == if other == url then None else Lookup(hints, other)
  {
    TidyUnique(hints);
    WithoutEntries(hints, url);
    var after := SortBy(Without(hints, url), ByUrl);
    SortedByUrl(Without(hints, url));
    SortElements(Without(hints, url), ByUrl);
    TidyUnique(after);
    SameEntriesSameLookup(Without(hints, url), after, other);
    LookupOther(hints, url, other);
  }

  lemma AddTidy(hints: seq<Entry<string, Hint>>, url: string, hint: Hint)
    requires TidyHints(hints) && Pairwise(hint.capabilities, StrLt)
    ensures TidyHints(SortBy(Upserted(hints, url, hint), ByUrl))
  {
    TidyUnique(hints);
    UpsertedEntries(hints, url, hint);
    SortedByUrl(Upserted(hints, url, hint));
    SortElements(Upserted(hints, url, hint), ByUrl);
  }

  lemma RemoveTidy(hints: seq<Entry<string, Hint>>, url: string)
    requires TidyHints(hints)
    ensures TidyHints(SortBy(Without(hints, url), ByUrl))
  {
    TidyUnique(hints);
    WithoutEntries(hints, url);
    SortedByUrl(Without(hints, url));
    SortElements(Without(hints, url), ByUrl);
  }

  lemma HintsStep(book: Book, s: State, cmd: Command)
    requires TidyHints(s.payload.hints)
    ensures TidyHints(Apply(book, s, cmd).0.payload.hints)
  {
    var hints, hints' := s.payload.hints, Apply(book, s, cmd).0.payload.hints;
    if hints' != hints {
      HintsChange(book, s, cmd);
      if cmd.AddHint? {
        NormalizedMeaning(cmd.capabilities);
        AddTidy(hints, cmd.url, Hint(cmd.title, Normalized(cmd.capabilities), cmd.at, cmd.expiresAt));
      } else {
        RemoveTidy(hints, cmd.url);
      }
    }
  }

  lemma HintsChange(book: Book, s: State, cmd: Command)
    requires Apply(book, s, cmd).0.payload.hints != s.payload.hints
    ensures var hints, hints' := s.payload.hints, Apply(book, s, cmd).0.payload.hints;
            || (cmd.AddHint? && hints' ==
                 SortBy(Upserted(hints, cmd.url, Hint(cmd.title, Normalized(cmd.capabilities), cmd.at, cmd.expiresAt)),
                        ByUrl))
            || (cmd.RemoveHint? && hints' == SortBy(Without(hints, cmd.url), ByUrl))
  {
    if cmd.AddHint? {
      AddHintIsEdit(book, s, cmd);
    } else if !cmd.RemoveHint? {
      HintsKept(book, s, cmd);
    }
  }

  lemma HintsKept(book: Book, s: State, cmd: Command)
    requires !cmd.AddHint? && !cmd.RemoveHint?
    ensures Apply(book, s, cmd).0.payload.hints == s.payload.hints
  {
  }

  /** A hint command's effect, read back through `find`. */
  lemma AddHintEffect(book: Book, s: State, cmd: Command, other: string)
    requires cmd.AddHint? && TidyHints(s.payload.hints)
    ensures var (s', out) := Apply(book, s, cmd);
            var hint := Hint(cmd.title, Normalized(cmd.capabilities), cmd.at, cmd.expiresAt);
            && out == (if Lookup(s.payload.hints, cmd.url) == Some(hint) then Unchanged else Changed)
            && Lookup(s'.payload.hints, cmd.url) == Some(hint)
            && s'.payload == s.payload.(hints := s'.payload.hints)
            && (other != cmd.url ==> Lookup(s'.payload.hints, other) == Lookup(s.payload.hints, other))
            && (Apply(book, s', cmd) == (s', Unchanged))
  {
    var hint := Hint(cmd.title, Normalized(cmd.capabilities), cmd.at, cmd.expiresAt);
    HintEditEffect(s.payload, cmd.url, hint, other);
    AddHintIsEdit(book, s, cmd);
    AddHintIsEdit(book, Apply(book, s, cmd).0, cmd);
  }

  /** Removing a hint: exactly if its URL is listed something changes, and then only that URL goes. */
  lemma RemoveHintEffect(book: Book, s: State, cmd: Command, other: string)
    requires cmd.RemoveHint? && TidyHints(s.payload.hints)
    ensures var (s', out) := Apply(book, s, cmd);
            && out == (if Lookup(s.payload.hints, cmd.url).Some? then Changed else Unchanged)
            && Lookup(s'.payload.hints, cmd.url) == None
            && (other != cmd.url ==> Lookup(s'.payload.hints, other) == Lookup(s.payload.hints, other))
            && s'.payload == s.payload.(hints := s'.payload.hints)
            && s'.version == (if out == Changed then Next(s.version) else s.version)
            && Apply(book, s', cmd) == (s', Unchanged)
  {
    RemovalEffect(s.payload, cmd.url, other);
    RemoveHintIsEdit(book, s, cmd);
    RemoveHintIsEdit(book, Apply(book, s, cmd).0, cmd);
  }

  lemma RemoveHintIsEdit(book: Book, s: State, cmd: Command)
    requires cmd.RemoveHint?
    ensures Apply(book, s, cmd) == Commit(s, HintRemoval(s.payload, cmd.url), s.onDisk)
  {
  }

  lemma RemovalEffect(p: Payload, url: string, other: string)
    requires TidyHints(p.hints)
    ensures var (p', out) := HintRemoval(p, url);
            && out == (if Lookup(p.hints, url).Some? then Changed else Unchanged)
            && Lookup(p'.hints, url) == None
            && (other != url ==> Lookup(p'.hints, other) == Lookup(p.hints, other))
            && p' == p.(hints := p'.hints)
            && HintRemoval(p', url) == (p', Unchanged)
  {
    WithoutAbsent(p.hints, url);
    HintRemoved(p.hints, url, url);
    HintRemoved(p.hints, url, other);
    WithoutAbsent(HintRemoval(p, url).0.hints, url);
  }

  lemma AddHintIsEdit(book: Book, s: State, cmd: Command)
    requires cmd.AddHint?
    ensures Apply(book, s, cmd) ==
            Commit(s, HintEdit(s.payload, cmd.url,
                               Hint(cmd.title, Normalized(cmd.capabilities), cmd.at, cmd.expiresAt)), s.onDisk)
  {
  }

  lemma HintEditEffect(p: Payload, url: string, hint: Hint, other: string)
    requires TidyHints(p.hints)
    ensures var (p', out) := HintEdit(p, url, hint);
            && !out.Failed? && p' == p.(hints := p'.hints)
            && Lookup(p'.hints, url) == Some(hint)
            && (other != url ==> Lookup(p'.hints, other) == Lookup(p.hints, other))
            && HintEdit(p', url, hint) == (p', Unchanged)
  {
    HintAdded(p.hints, url, hint, other);
  }

  // --- The whole shape ---

  ghost predicate Shape(book: Book, p: Payload) {
    Overrides(book, p) && TidyTags(p.tags) && |p.tags| <= MAX_TAGS && TidyHints(p.hints)
  }

  /** From the created network, or any well-shaped state, every run keeps the shape. */
  lemma {:induction false} RunKeepsShape(book: Book, s: State, cmds: seq<Command>)
    requires s == CREATED || Shape(book, s.payload)
    ensures Shape(book, Run(book, s, cmds).payload)
    decreases |cmds|
  {
    if cmds != [] {
      OverridesStep(book, s, cmds[0]);
      TagsTidyStep(book, s, cmds[0]);
      HintsStep(book, s, cmds[0]);
      RunKeepsShape(book, Apply(book, s, cmds[0]).0, cmds[1..]);
    }
  }
}
