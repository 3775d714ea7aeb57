/** What every run of commands keeps: version numbers, revocations and the frozen member. */
module TrustRuns {
  import opened Prelude
  import opened Ordering
  import opened Keyed
  import opened TrustState

  function Run(book: Book, s: State, cmds: seq<Command>): (s': State)
    decreases |cmds|
  {
    if cmds == [] then s else Run(book, Apply(book, s, cmds[0]).0, cmds[1..])
  }

  lemma {:induction false} RunSplit(book: Book, s: State, first: seq<Command>, rest: seq<Command>)
    ensures Run(book, s, first + rest) == Run(book, Run(book, s, first), rest)
    decreases |first|
  {
    if first == [] {
      assert first + rest == rest;
    } else {
      assert (first + rest)[1..] == first[1..] + rest;
      RunSplit(book, Apply(book, s, first[0]).0, first[1..], rest);
    }
  }

  // --- What one command can do to each part of the state ---

  /** The guards decide: a rename changes something exactly if they hold, and what it then leaves. */
  lemma RenameOutcome(book: Book, s: State, cmd: Command)
    requires cmd.Rename?
    ensures Apply(book, s, cmd).1 == Changed <==> Renames(book, s, cmd)
    ensures var out := Apply(book, s, cmd).1;
            if cmd.blank then out == Failed(EmptyLabel)
            else if !Indexed(s.payload, cmd.fp) || cmd.fp !in s.onDisk then out == Failed(DeviceNotFound)
            else if !Sole(book, s, cmd.fp) then out == Failed(AmbiguousDevice)
            else if Revoked(s.payload, cmd.fp) then out == Failed(IsRevoked)
            else out == if book(cmd.fp).name == cmd.name then Unchanged else Changed
    ensures Renames(book, s, cmd) ==>
              var p := s.payload;
              Apply(book, s, cmd).0 == State(
                Next(s.version),
                p.(revoked := p.revoked + [Entry(cmd.fp, RevokedInfo(cmd.at, true, cmd.note))],
                   index := Without(p.index, cmd.fp) + [Entry(cmd.newFp, IndexInfo(book(cmd.newFp).name))]),
                s.onDisk + {cmd.newFp})
  {
  }

  lemma VersionStep(book: Book, s: State, cmd: Command)
    ensures Apply(book, s, cmd).1 == Changed ==> Apply(book, s, cmd).0.version == Next(s.version)
    ensures Apply(book, s, cmd).1 != Changed ==>
              Apply(book, s, cmd).0.version == s.version && Apply(book, s, cmd).0.payload == s.payload
  {
  }

  /** Only a successful tag command changes the tags, and only those of a live member. */
  lemma TagsStep(book: Book, s: State, cmd: Command)
    ensures var p, p' := s.payload, Apply(book, s, cmd).0.payload;
            p'.tags != p.tags ==>
              && cmd.UpdateTag? && Apply(book, s, cmd).1 == Changed
              && Indexed(p, cmd.fp) && cmd.fp in s.onDisk && Sole(book, s, cmd.fp) && !Revoked(p, cmd.fp)
              && cmd.add == (cmd.fp !in Members(p.tags, cmd.tag))
              && p'.tags == (if cmd.add then TagsWith(p.tags, cmd.tag, cmd.fp)
                   else TagsWithout(p.tags, cmd.tag, cmd.fp))
              && |p'.tags| <= MAX_TAGS && MembersKnown(p, p'.tags)
  {
  }

  lemma DisabledStep(book: Book, s: State, cmd: Command)
    ensures var p, p' := s.payload, Apply(book, s, cmd).0.payload;
            p'.disabled != p.disabled ==>
              || (cmd.Disable? && !Revoked(p, cmd.fp) && Indexed(p, cmd.fp)
                  && p'.disabled == Put(p.disabled, cmd.fp, DisabledInfo(cmd.at, cmd.until, cmd.note)))
              || (cmd.Enable? && !Revoked(p, cmd.fp) && p'.disabled == Without(p.disabled, cmd.fp))
  {
  }

  lemma GrantsStep(book: Book, s: State, cmd: Command)
    ensures var p, p' := s.payload, Apply(book, s, cmd).0.payload;
            p'.grants != p.grants ==>
              && cmd.SetCapabilities? && !Revoked(p, cmd.fp) && Indexed(p, cmd.fp)
              && var wanted := Edited(EffectiveCapabilities(book, p, cmd.fp), cmd.edit);
                 p'.grants == SetOverride(p.grants, cmd.fp, wanted == book(cmd.fp).capabilities, Grant(wanted, cmd.at))
  {
  }

  lemma BindingsStep(book: Book, s: State, cmd: Command)
    ensures var p, p' := s.payload, Apply(book, s, cmd).0.payload;
            p'.bindings != p.bindings ==>
              && cmd.SetHostname? && Apply(book, s, cmd).1 == Changed && !Revoked(p, cmd.fp) && Indexed(p, cmd.fp)
              && p'.bindings == SetOverride(p.bindings, cmd.fp, cmd.hostname == book(cmd.fp).hostname,
                                            Binding(cmd.hostname, cmd.at))
  {
  }

  /** The index and the revocation list change together, and in three ways only. */
  lemma IndexStep(book: Book, s: State, cmd: Command)
    ensures var p, s' := s.payload, Apply(book, s, cmd).0;
            var p' := s'.payload;
            || (p'.index == p.index && p'.revoked == p.revoked)
            || (&& cmd.AddMember? && !Indexed(p, cmd.fp) && p'.revoked == p.revoked
                && p'.index == p.index + [Entry(cmd.fp, IndexInfo(book(cmd.fp).name))])
            || (&& cmd.Revoke? && Indexed(p, cmd.fp) && p'.index == p.index
                && p'.revoked == p.revoked + [Entry(cmd.fp, RevokedInfo(cmd.at, false, cmd.note))])
            || (&& Renames(book, s, cmd)
                && p'.index == Without(p.index, cmd.fp) + [Entry(cmd.newFp, IndexInfo(book(cmd.newFp).name))]
                && p'.revoked == p.revoked + [Entry(cmd.fp, RevokedInfo(cmd.at, true, cmd.note))])
  {
  }

  // --- Versions ---

  lemma {:induction false} VersionsGrow(book: Book, s: State, cmds: seq<Command>)
    requires s.version <= U64_MAX
    ensures s.version <= Run(book, s, cmds).version <= U64_MAX
    ensures Run(book, s, cmds).version == s.version < U64_MAX ==> Run(book, s, cmds).payload == s.payload
    decreases |cmds|
  {
    if cmds != [] {
      VersionStep(book, s, cmds[0]);
      VersionsGrow(book, Apply(book, s, cmds[0]).0, cmds[1..]);
    }
  }

  /** Along a run, below saturation, a version number determines the payload. */
  lemma VersionDeterminesPayload(book: Book, s: State, cmds: seq<Command>, i: nat, j: nat)
    requires s.version <= U64_MAX && i <= j <= |cmds|
    requires Run(book, s, cmds[..i]).version == Run(book, s, cmds[..j]).version < U64_MAX
    ensures Run(book, s, cmds[..i]).payload == Run(book, s, cmds[..j]).payload
  {
    assert cmds[..j] == cmds[..i] + cmds[i..j];
    RunSplit(book, s, cmds[..i], cmds[i..j]);
    VersionsGrow(book, s, cmds[..i]);
    VersionsGrow(book, Run(book, s, cmds[..i]), cmds[i..j]);
  }

  /** At the largest version two different payloads can carry the same number. */
  lemma VersionSaturates()
    ensures exists book: Book, s: State, cmd: Command ::
              s.version == U64_MAX && Apply(book, s, cmd).0.version == s.version
                  && Apply(book, s, cmd).0.payload != s.payload
  {
    var book: Book := _ => CertBody("d", "n", Capabilities(false, false, [], false), None, 0);
    var s := CREATED.(version := U64_MAX);
    var s' := Apply(book, s, AddMember(7)).0;
    assert |s'.payload.index| == 1;
  }

  /** Disable then enable gives the payload back exactly if the member was not disabled before. */
  lemma DisableEnableExactly(book: Book, s: State, fp: Fingerprint, at: nat, until: Option<nat>, note: Option<string>)
    requires Indexed(s.payload, fp) && !Revoked(s.payload, fp)
    ensures var s1 := Apply(book, s, Disable(fp, at, until, note)).0;
            var (s2, out) := Apply(book, s1, Enable(fp));
            && out == Changed
            && s2.version == Next(Next(s.version))
            && (s2.payload == s.payload <==> Lookup(s.payload.disabled, fp).None?)
  {
    var entry := Entry(fp, DisabledInfo(at, until, note));
    var rest := Without(s.payload.disabled, fp);
    WithoutAbsent(s.payload.disabled, fp);
    WithoutAppend(rest, entry, fp);
    LookupOther(s.payload.disabled, fp, fp);
    WithoutAbsent(rest, fp);
    assert rest + [] == rest;
    assert Apply(book, s, Disable(fp, at, until, note)).0.payload.disabled == rest + [entry];
  }

  // --- Revocation ---

  /** What the state overlays on one certificate. */
  datatype Facets = Facets(disabled: Option<DisabledInfo>, grant: Option<Grant>, binding: Option<Binding>)

  function FacetsOf(p: Payload, fp: Fingerprint): Facets {
    Facets(Lookup(p.disabled, fp), Lookup(p.grants, fp), Lookup(p.bindings, fp))
  }

  function TagsOf(p: Payload, fp: Fingerprint): set<string> {
    set t | t in p.tags && fp in p.tags[t]
  }

  /** A tag edit decides one membership and no other. */
  lemma TagEditDecides(tags: map<string, seq<Fingerprint>>, edited: string, target: Fingerprint, tag: string,
                       fp: Fingerprint)
    ensures fp in Members(TagsWith(tags, edited, target), tag) <==>
            (fp == target && tag == edited) || fp in Members(tags, tag)
    ensures fp in Members(TagsWithout(tags, edited, target), tag) <==>
            !(fp == target && tag == edited) && fp in Members(tags, tag)
  {
    SortElements(Members(tags, edited) + [target], FpLe);
    FilterElements(Members(tags, edited), (m: Fingerprint) => m != target);
  }

  /** The command is not about `fp`, or `fp` is revoked. */
  ghost predicate Bystander(s: State, cmd: Command, fp: Fingerprint) {
    Revoked(s.payload, fp) || cmd.AddHint? || cmd.RemoveHint? || cmd.fp != fp
  }

  lemma DisabledKept(book: Book, s: State, cmd: Command, fp: Fingerprint)
    requires Bystander(s, cmd, fp)
    ensures Lookup(Apply(book, s, cmd).0.payload.disabled, fp) == Lookup(s.payload.disabled, fp)
  {
    DisabledStep(book, s, cmd);
    if cmd.Disable? {
      LookupPut(s.payload.disabled, cmd.fp, DisabledInfo(cmd.at, cmd.until, cmd.note), fp);
    } else if cmd.Enable? {
      LookupOther(s.payload.disabled, cmd.fp, fp);
    }
  }

  lemma SetOverrideLookup<V>(xs: seq<Entry<Fingerprint, V>>, fp: Fingerprint, redundant: bool, v: V, other: Fingerprint)
    ensures Lookup(SetOverride(xs, fp, redundant, v), other) ==
            if other != fp then Lookup(xs, other) else if redundant then None else Some(v)
  {
    LookupPut(xs, fp, v, other);
    LookupOther(xs, fp, other);
  }

  lemma GrantKept(book: Book, s: State, cmd: Command, fp: Fingerprint)
    requires Bystander(s, cmd, fp)
    ensures Lookup(Apply(book, s, cmd).0.payload.grants, fp) == Lookup(s.payload.grants, fp)
  {
    GrantsStep(book, s, cmd);
    if cmd.SetCapabilities? {
      var wanted := Edited(EffectiveCapabilities(book, s.payload, cmd.fp), cmd.edit);
      SetOverrideLookup(s.payload.grants, cmd.fp, wanted == book(cmd.fp).capabilities, Grant(wanted, cmd.at), fp);
    }
  }

  lemma BindingKept(book: Book, s: State, cmd: Command, fp: Fingerprint)
    requires Bystander(s, cmd, fp)
    ensures Lookup(Apply(book, s, cmd).0.payload.bindings, fp) == Lookup(s.payload.bindings, fp)
  {
    BindingsStep(book, s, cmd);
    if cmd.SetHostname? {
      SetOverrideLookup(s.payload.bindings, cmd.fp, cmd.hostname == book(cmd.fp).hostname,
                        Binding(cmd.hostname, cmd.at), fp);
    }
  }

  /** A command leaves the facets of everyone but its target alone, and of everyone who is revoked. */
  lemma OtherFacetsKept(book: Book, s: State, cmd: Command, fp: Fingerprint)
    requires Bystander(s, cmd, fp)
    ensures FacetsOf(Apply(book, s, cmd).0.payload, fp) == FacetsOf(s.payload, fp)
  {
    DisabledKept(book, s, cmd, fp);
    GrantKept(book, s, cmd, fp);
    BindingKept(book, s, cmd, fp);
  }

  lemma OtherTagsKept(book: Book, s: State, cmd: Command, fp: Fingerprint)
    requires Revoked(s.payload, fp) || !cmd.UpdateTag? || cmd.fp != fp
    ensures TagsOf(Apply(book, s, cmd).0.payload, fp) == TagsOf(s.payload, fp)
  {
    TagsStep(book, s, cmd);
    var tags, tags' := s.payload.tags, Apply(book, s, cmd).0.payload.tags;
    if tags' != tags {
      forall t ensures fp in Members(tags', t) <==> fp in Members(tags, t) {
        TagEditDecides(tags, cmd.tag, cmd.fp, t, fp);
      }
      TagsByMembers(tags, tags', fp);
    }
  }

  lemma TagsByMembers(tags: map<string, seq<Fingerprint>>, tags': map<string, seq<Fingerprint>>, fp: Fingerprint)
    requires forall t :: fp in Members(tags', t) <==> fp in Members(tags, t)
    ensures (set t | t in tags' && fp in tags'[t]) == (set t | t in tags && fp in tags[t])
  {
    forall t ensures t in tags' && fp in tags'[t] <==> t in tags && fp in tags[t] {
      assert fp in Members(tags', t) <==> fp in Members(tags, t);
    }
  }

  lemma RevocationKept(book: Book, s: State, cmd: Command, fp: Fingerprint)
    ensures s.payload.revoked <= Apply(book, s, cmd).0.payload.revoked
    ensures Revoked(s.payload, fp) ==> Revoked(Apply(book, s, cmd).0.payload, fp)
  {
    IndexStep(book, s, cmd);
    if cmd.Revoke? {
      LookupAppend(s.payload.revoked, Entry(cmd.fp, RevokedInfo(cmd.at, false, cmd.note)), fp);
    } else if cmd.Rename? {
      LookupAppend(s.payload.revoked, Entry(cmd.fp, RevokedInfo(cmd.at, true, cmd.note)), fp);
    }
  }

  /**
   * Revocation is permanent and freezes the member: along every run the revocation list only
   * grows, and the member's disabled entry, grant, binding and tags never change again.
   */
  lemma {:induction false} RevokedMemberFrozen(book: Book, s: State, cmds: seq<Command>, fp: Fingerprint)
    requires Revoked(s.payload, fp)
    ensures s.payload.revoked <= Run(book, s, cmds).payload.revoked
    ensures Revoked(Run(book, s, cmds).payload, fp)
    ensures FacetsOf(Run(book, s, cmds).payload, fp) == FacetsOf(s.payload, fp)
    ensures TagsOf(Run(book, s, cmds).payload, fp) == TagsOf(s.payload, fp)
    decreases |cmds|
  {
    if cmds != [] {
      RevocationKept(book, s, cmds[0], fp);
      OtherFacetsKept(book, s, cmds[0], fp);
      OtherTagsKept(book, s, cmds[0], fp);
      RevokedMemberFrozen(book, Apply(book, s, cmds[0]).0, cmds[1..], fp);
    }
  }
}
