/** Members over whole runs: which certificates are current, what renaming does, whose hostname is whose. */
module TrustMembers {
  import opened Prelude
  import opened Keyed
  import opened TrustState
  import opened DeviceRows
  import opened TrustRuns
  import opened TrustShape

  // --- Which certificates the state can mention ---

  /** Some disabled entry, grant, binding or tag names this fingerprint. */
  ghost predicate Mentioned(p: Payload, fp: Fingerprint) {
    FacetsOf(p, fp) != Facets(None, None, None) || TagsOf(p, fp) != {}
  }

  /** The certificates the root signs for a command, as the handlers fill them in. */
  ghost predicate Signed(book: Book, s: State, cmd: Command) {
    match cmd
    case AddMember(fp) => book(fp).versionRef <= Next(s.version)
    case Rename(fp, name, _, newFp, _, _) =>
      Renames(book, s, cmd) ==> book(newFp) == book(fp).(name := name, versionRef := Next(s.version))
    case _ => true
  }

  ghost predicate RunSigned(book: Book, s: State, cmds: seq<Command>)
    decreases |cmds|
  {
    cmds == [] || (Signed(book, s, cmds[0]) && RunSigned(book, Apply(book, s, cmds[0]).0, cmds[1..]))
  }

  /** An indexed or revoked certificate is no newer than the state. */
  ghost predicate Dated(book: Book, s: State) {
    forall fp :: Indexed(s.payload, fp) || Revoked(s.payload, fp) ==> book(fp).versionRef <= s.version
  }

  /** Every indexed certificate is on disk, and only indexed or revoked ones are mentioned. */
  ghost predicate Accounted(s: State) {
    && (forall fp :: Indexed(s.payload, fp) ==> fp in s.onDisk)
    && (forall fp :: Mentioned(s.payload, fp) ==> Indexed(s.payload, fp) || Revoked(s.payload, fp))
  }

  lemma IndexedStep(book: Book, s: State, cmd: Command, fp: Fingerprint)
    ensures Indexed(Apply(book, s, cmd).0.payload, fp) <==>
              || (Indexed(s.payload, fp) && !(Renames(book, s, cmd) && cmd.fp == fp))
              || (cmd.AddMember? && cmd.fp == fp)
              || (Renames(book, s, cmd) && cmd.newFp == fp)
  {
    var index := s.payload.index;
    if cmd.AddMember? {
      LookupAppend(index, Entry(cmd.fp, IndexInfo(book(cmd.fp).name)), fp);
    } else if cmd.Rename? {
      LookupOther(index, cmd.fp, fp);
      LookupAppend(Without(index, cmd.fp), Entry(cmd.newFp, IndexInfo(book(cmd.newFp).name)), fp);
    }
  }

  lemma RevokedStep(book: Book, s: State, cmd: Command, fp: Fingerprint)
    ensures Revoked(Apply(book, s, cmd).0.payload, fp) <==>
              || Revoked(s.payload, fp)
              || (cmd.Revoke? && Indexed(s.payload, fp) && cmd.fp == fp)
              || (Renames(book, s, cmd) && cmd.fp == fp)
  {
    var revoked := s.payload.revoked;
    if cmd.Revoke? {
      LookupAppend(revoked, Entry(cmd.fp, RevokedInfo(cmd.at, false, cmd.note)), fp);
    } else if cmd.Rename? {
      LookupAppend(revoked, Entry(cmd.fp, RevokedInfo(cmd.at, true, cmd.note)), fp);
    }
  }

  /** A command brings one certificate into the index, and takes out only one that it revokes. */
  lemma MembershipStep(book: Book, s: State, cmd: Command, fp: Fingerprint)
    ensures var p, p' := s.payload, Apply(book, s, cmd).0.payload;
            && (Indexed(p', fp) <==>
                  || (Indexed(p, fp) && !(Renames(book, s, cmd) && cmd.fp == fp))
                  || (cmd.AddMember? && cmd.fp == fp)
                  || (Renames(book, s, cmd) && cmd.newFp == fp))
            && (Revoked(p', fp) <==>
                  || Revoked(p, fp)
                  || (cmd.Revoke? && Indexed(p, fp) && cmd.fp == fp)
                  || (Renames(book, s, cmd) && cmd.fp == fp))
  {
    IndexedStep(book, s, cmd, fp);
    RevokedStep(book, s, cmd, fp);
  }

  lemma DatedStep(book: Book, s: State, cmd: Command)
    requires Dated(book, s) && Signed(book, s, cmd) && s.version <= U64_MAX
    ensures Dated(book, Apply(book, s, cmd).0)
  {
    var s' := Apply(book, s, cmd).0;
    VersionStep(book, s, cmd);
    forall fp | Indexed(s'.payload, fp) || Revoked(s'.payload, fp) ensures book(fp).versionRef <= s'.version {
      MembershipStep(book, s, cmd, fp);
      if cmd.Rename? && cmd.fp == fp { IndexStep(book, s, cmd); }
    }
  }

  /** Only a member that is in the index, and its own command, make it mentioned. */
  lemma MentionedStep(book: Book, s: State, cmd: Command, fp: Fingerprint)
    requires Mentioned(Apply(book, s, cmd).0.payload, fp)
    ensures Mentioned(s.payload, fp) || Indexed(s.payload, fp)
  {
    if cmd.AddHint? || cmd.RemoveHint? || cmd.fp != fp {
      OtherFacetsKept(book, s, cmd, fp);
      OtherTagsKept(book, s, cmd, fp);
    } else if !Indexed(s.payload, fp) {
      UnindexedUntouched(book, s, cmd);
    }
  }

  lemma UnindexedUntouched(book: Book, s: State, cmd: Command)
    requires !cmd.AddHint? && !cmd.RemoveHint? && !Indexed(s.payload, cmd.fp)
    ensures Mentioned(Apply(book, s, cmd).0.payload, cmd.fp) ==> Mentioned(s.payload, cmd.fp)
  {
    TagsStep(book, s, cmd);
    if cmd.Enable? {
      LookupOther(s.payload.disabled, cmd.fp, cmd.fp);
    }
  }

  lemma AccountedStep(book: Book, s: State, cmd: Command)
    requires Accounted(s)
    ensures Accounted(Apply(book, s, cmd).0)
  {
    var s' := Apply(book, s, cmd).0;
    forall fp | Indexed(s'.payload, fp) ensures fp in s'.onDisk {
      MembershipStep(book, s, cmd, fp);
    }
    forall fp | Mentioned(s'.payload, fp) ensures Indexed(s'.payload, fp) || Revoked(s'.payload, fp) {
      MentionedStep(book, s, cmd, fp);
      MembershipStep(book, s, cmd, fp);
      assert Indexed(s.payload, fp) || Revoked(s.payload, fp);
    }
  }

  lemma {:induction false} RunKeepsAccounts(book: Book, s: State, cmds: seq<Command>)
    requires Dated(book, s) && Accounted(s) && s.version <= U64_MAX && RunSigned(book, s, cmds)
    ensures Dated(book, Run(book, s, cmds)) && Accounted(Run(book, s, cmds))
    decreases |cmds|
  {
    if cmds != [] {
      DatedStep(book, s, cmds[0]);
      AccountedStep(book, s, cmds[0]);
      VersionStep(book, s, cmds[0]);
      RunKeepsAccounts(book, Apply(book, s, cmds[0]).0, cmds[1..]);
    }
  }

  lemma CreatedIsAccounted(book: Book)
    ensures Dated(book, CREATED) && Accounted(CREATED)
  {
    assert forall fp :: TagsOf(CREATED.payload, fp) == {};
  }

  // --- Renaming ---

  /** Below saturation a reissued certificate is new: never indexed, revoked or mentioned before. */
  lemma RenameIsFresh(book: Book, s: State, cmd: Command)
    requires Renames(book, s, cmd)
    requires Dated(book, s) && Accounted(s) && Signed(book, s, cmd) && s.version < U64_MAX
    ensures !Indexed(s.payload, cmd.newFp) && !Revoked(s.payload, cmd.newFp) && !Mentioned(s.payload, cmd.newFp)
  {
  }

  ghost predicate UniqueIndex(p: Payload) {
    UniqueKeys(p.index)
  }

  lemma AppendUnique<V(!new)>(xs: seq<Entry<Fingerprint, V>>, e: Entry<Fingerprint, V>)
    requires UniqueKeys(xs)
    ensures UniqueKeys(xs + [e]) <==> Lookup(xs, e.key).None?
  {
    LookupFinds(xs, e.key);
    if Lookup(xs, e.key).Some? {
      var i :| 0 <= i < |xs| && xs[i] == Entry(e.key, Lookup(xs, e.key).value);
      assert (xs + [e])[i].key == (xs + [e])[|xs|].key;
    }
  }

  /** No certificate is indexed twice: a replacement that is indexed already would be a second row of its device. */
  lemma UniqueIndexStep(book: Book, s: State, cmd: Command)
    requires UniqueIndex(s.payload) && Accounted(s) && Signed(book, s, cmd)
    ensures UniqueIndex(Apply(book, s, cmd).0.payload)
  {
    IndexStep(book, s, cmd);
    var index := s.payload.index;
    if cmd.AddMember? {
      AppendUnique(index, Entry(cmd.fp, IndexInfo(book(cmd.fp).name)));
    } else if Renames(book, s, cmd) {
      RowsMember(book, index, s.onDisk, book(cmd.fp).deviceId, cmd.newFp);
      WithoutEntries(index, cmd.fp);
      LookupOther(index, cmd.fp, cmd.newFp);
      AppendUnique(Without(index, cmd.fp), Entry(cmd.newFp, IndexInfo(book(cmd.newFp).name)));
    }
  }

  /** So the index is free of duplicates after every run, at every version. */
  lemma {:induction false} RunKeepsUniqueIndex(book: Book, s: State, cmds: seq<Command>)
    requires UniqueIndex(s.payload) && Accounted(s) && RunSigned(book, s, cmds)
    ensures UniqueIndex(Run(book, s, cmds).payload)
    decreases |cmds|
  {
    if cmds != [] {
      UniqueIndexStep(book, s, cmds[0]);
      AccountedStep(book, s, cmds[0]);
      RunKeepsUniqueIndex(book, Apply(book, s, cmds[0]).0, cmds[1..]);
    }
  }

  /** The run is properly signed and ends in `end`. */
  ghost predicate Reaches(book: Book, s: State, cmds: seq<Command>, end: State) {
    RunSigned(book, s, cmds) && Run(book, s, cmds) == end
  }

  lemma PrependStep(book: Book, s: State, cmd: Command, s': State, rest: seq<Command>, end: State)
    requires Apply(book, s, cmd).0 == s' && Signed(book, s, cmd) && Reaches(book, s', rest, end)
    ensures Reaches(book, s, [cmd] + rest, end)
  {
    assert ([cmd] + rest)[1..] == rest;
  }

  /** Two certificates of one device, both signed at the largest version. */
  const LATE_BOOK: Book := (fp: Fingerprint) =>
    CertBody("d", if fp == 1 then "a" else "b", Capabilities(false, false, [], false), None, U64_MAX)

  const LATE: State := CREATED.(version := U64_MAX)
  const LATE_1: State := LATE.(payload := LATE.payload.(index := [Entry(1, IndexInfo("a"))]), onDisk := {1})

  lemma LateEnrolment()
    ensures Apply(LATE_BOOK, LATE, AddMember(1)).0 == LATE_1 && Signed(LATE_BOOK, LATE, AddMember(1))
  {
  }

  /** One indexed certificate on disk is the only row of its device. */
  lemma OnlyRow(book: Book, s: State, fp: Fingerprint)
    requires |s.payload.index| == 1 && s.payload.index[0].key == fp && fp in s.onDisk
    ensures Indexed(s.payload, fp) && Sole(book, s, fp)
  {
    assert s.payload.index[1..] == [];
  }

  /** Renaming there and back at the largest version reissues a revoked certificate. */
  lemma RenameReusesAtSaturation() returns (cmds: seq<Command>)
    ensures RunSigned(LATE_BOOK, LATE, cmds)
    ensures Indexed(Run(LATE_BOOK, LATE, cmds).payload, 1) && Revoked(Run(LATE_BOOK, LATE, cmds).payload, 1)
  {
    var there, back := Rename(1, "b", false, 2, 0, None), Rename(2, "a", false, 1, 0, None);
    var middle := Apply(LATE_BOOK, LATE_1, there).0;
    var end := Apply(LATE_BOOK, middle, back).0;
    OnlyRow(LATE_BOOK, LATE_1, 1);
    RenameOutcome(LATE_BOOK, LATE_1, there);
    MembershipStep(LATE_BOOK, LATE_1, there, 1);
    MembershipStep(LATE_BOOK, LATE_1, there, 2);
    assert Without(LATE_1.payload.index, 1) == [];
    OnlyRow(LATE_BOOK, middle, 2);
    LookupOne(Entry(1, RevokedInfo(0, true, None)), 2);
    RenameOutcome(LATE_BOOK, middle, back);
    MembershipStep(LATE_BOOK, middle, back, 1);
    LateEnrolment();
    assert Reaches(LATE_BOOK, end, [], end);
    PrependStep(LATE_BOOK, middle, back, end, [], end);
    PrependStep(LATE_BOOK, LATE_1, there, middle, [back] + [], end);
    cmds := [AddMember(1)] + ([there] + ([back] + []));
    PrependStep(LATE_BOOK, LATE, AddMember(1), LATE_1, [there] + ([back] + []), end);
  }

  /** Every index entry carries the name in its certificate. */
  ghost predicate NamedIndex(book: Book, p: Payload) {
    forall e :: e in p.index ==> e.value.name == book(e.key).name
  }

  lemma {:induction false} RunKeepsIndexNames(book: Book, s: State, cmds: seq<Command>)
    requires NamedIndex(book, s.payload)
    ensures NamedIndex(book, Run(book, s, cmds).payload)
    decreases |cmds|
  {
    if cmds != [] {
      IndexStep(book, s, cmds[0]);
      if cmds[0].Rename? { WithoutEntries(s.payload.index, cmds[0].fp); }
      RunKeepsIndexNames(book, Apply(book, s, cmds[0]).0, cmds[1..]);
    }
  }

  /** What other parts of the system see of a member. */
  datatype Standing = Standing(
    revoked: bool, disabled: bool, capabilities: Capabilities, hostname: Option<string>, tags: set<string>,
    ipv4: Option<Ipv4>)

  function StandingOf(book: Book, p: Payload, fp: Fingerprint): Standing {
    Standing(Revoked(p, fp), Lookup(p.disabled, fp).Some?, EffectiveCapabilities(book, p, fp),
             EffectiveHostname(book, p, fp), TagsOf(p, fp), Lookup(p.ips, book(fp).deviceId))
  }

  /**
   * A rename carries the device's standing over to the new certificate exactly if no disabled
   * entry, grant, binding or tag names the old one. The address always carries over, since it is
   * keyed by the device.
   */
  lemma RenameKeepsStandingExactly(book: Book, s: State, cmd: Command)
    requires Renames(book, s, cmd)
    requires Shape(book, s.payload) && Dated(book, s) && Accounted(s) && Signed(book, s, cmd) && s.version < U64_MAX
    ensures var s' := Apply(book, s, cmd).0;
            && Indexed(s'.payload, cmd.newFp) && !Indexed(s'.payload, cmd.fp) && Revoked(s'.payload, cmd.fp)
            && StandingOf(book, s'.payload, cmd.newFp).ipv4 == StandingOf(book, s.payload, cmd.fp).ipv4
            && (StandingOf(book, s'.payload, cmd.newFp) == StandingOf(book, s.payload, cmd.fp) <==>
                 !Mentioned(s.payload, cmd.fp))
  {
    RenameIsFresh(book, s, cmd);
    IndexStep(book, s, cmd);
    MembershipStep(book, s, cmd, cmd.newFp);
    MembershipStep(book, s, cmd, cmd.fp);
    OtherFacetsKept(book, s, cmd, cmd.newFp);
    OtherTagsKept(book, s, cmd, cmd.newFp);
    LookupFinds(s.payload.grants, cmd.fp);
    LookupFinds(s.payload.bindings, cmd.fp);
  }

  // --- Tags after a rename ---

  /** A tag lists a certificate that the index no longer knows. */
  ghost predicate Stale(p: Payload) {
    exists t, m :: t in p.tags && m in p.tags[t] && !Indexed(p, m)
  }

  lemma StaleMembers(p: Payload)
    ensures Stale(p) <==> !MembersKnown(p, p.tags)
  {
    if !MembersKnown(p, p.tags) {
      var t :| t in p.tags && exists i :: 0 <= i < |p.tags[t]| && !Indexed(p, p.tags[t][i]);
      var i :| 0 <= i < |p.tags[t]| && !Indexed(p, p.tags[t][i]);
      assert p.tags[t][i] in p.tags[t];
    }
  }

  lemma KnownByMembers(p: Payload, tags: map<string, seq<Fingerprint>>)
    ensures MembersKnown(p, tags) <==> forall t, m :: m in Members(tags, t) ==> Indexed(p, m)
  {
    if MembersKnown(p, tags) {
      forall t, m | m in Members(tags, t) ensures Indexed(p, m) {
        assert t in tags;
        var i :| 0 <= i < |tags[t]| && tags[t][i] == m;
      }
    }
    if forall t, m :: m in Members(tags, t) ==> Indexed(p, m) {
      forall t, i | t in tags && 0 <= i < |tags[t]| ensures Indexed(p, tags[t][i]) {
        assert tags[t][i] in Members(tags, t);
      }
    }
  }

  /** Editing the tags of an indexed member neither makes nor cures an unknown member. */
  lemma EditKeepsKnown(p: Payload, tag: string, fp: Fingerprint, add: bool)
    requires Indexed(p, fp)
    ensures MembersKnown(p, if add then TagsWith(p.tags, tag, fp) else TagsWithout(p.tags, tag, fp)) <==>
            MembersKnown(p, p.tags)
  {
    var tags' := if add then TagsWith(p.tags, tag, fp) else TagsWithout(p.tags, tag, fp);
    KnownByMembers(p, p.tags);
    KnownByMembers(p, tags');
    forall t, m | m != fp ensures m in Members(tags', t) <==> m in Members(p.tags, t) {
      TagEditDecides(p.tags, tag, fp, t, m);
    }
  }

  /**
   * A tag edit is performed exactly if it is of a live member that is its device's only row, would
   * change something, passes the policy's own checks, and no tag is stale.
   */
  lemma TagEditExactly(book: Book, s: State, cmd: Command)
    requires cmd.UpdateTag?
    ensures var p := s.payload;
            var tags' := if cmd.add then TagsWith(p.tags, cmd.tag, cmd.fp) else TagsWithout(p.tags, cmd.tag, cmd.fp);
            var admissible :=
              && Unresolved(book, s, cmd.fp).None? && !Revoked(p, cmd.fp)
              && cmd.add == (cmd.fp !in Members(p.tags, cmd.tag))
              && |tags'| <= MAX_TAGS && cmd.rulesValid && cmd.subnetsKnown;
            && (Apply(book, s, cmd).1 == Changed <==> admissible && !Stale(p))
            && (admissible && Stale(p) ==> Apply(book, s, cmd).1 == Failed(TagMemberNotFound))
  {
    StaleMembers(s.payload);
    if Indexed(s.payload, cmd.fp) {
      EditKeepsKnown(s.payload, cmd.tag, cmd.fp, cmd.add);
    }
  }

  /** The error of a refused tag edit: the lookup's, then revocation, then the policy's checks in their order. */
  lemma TagRefusals(book: Book, s: State, cmd: Command)
    requires cmd.UpdateTag?
    ensures var p, out := s.payload, Apply(book, s, cmd).1;
            var tags' := if cmd.add then TagsWith(p.tags, cmd.tag, cmd.fp) else TagsWithout(p.tags, cmd.tag, cmd.fp);
            if !Indexed(p, cmd.fp) || cmd.fp !in s.onDisk then out == Failed(DeviceNotFound)
            else if !Sole(book, s, cmd.fp) then out == Failed(AmbiguousDevice)
            else if Revoked(p, cmd.fp) then out == Failed(IsRevoked)
            else if cmd.add == (cmd.fp in Members(p.tags, cmd.tag)) then out == Unchanged
            else if |tags'| > 64 then out == Failed(TooManyTags)
            else if !cmd.rulesValid then out == Failed(InvalidRules)
            else if Stale(p) then out == Failed(TagMemberNotFound)
            else if !cmd.subnetsKnown then out == Failed(SubnetOrphan)
            else out == Changed
  {
    StaleMembers(s.payload);
    if Indexed(s.payload, cmd.fp) {
      EditKeepsKnown(s.payload, cmd.tag, cmd.fp, cmd.add);
    }
  }

  /** Renaming a tagged device makes its tags stale. */
  lemma RenameMakesStale(book: Book, s: State, cmd: Command)
    requires Renames(book, s, cmd) && TagsOf(s.payload, cmd.fp) != {} && cmd.newFp != cmd.fp
    ensures Stale(Apply(book, s, cmd).0.payload)
  {
    var p' := Apply(book, s, cmd).0.payload;
    MembershipStep(book, s, cmd, cmd.fp);
    TagsStep(book, s, cmd);
    var t :| t in TagsOf(s.payload, cmd.fp);
    assert t in p'.tags && cmd.fp in p'.tags[t] && !Indexed(p', cmd.fp);
  }

  /**
   * Once a tag lists a superseded certificate, no run changes any tag again unless it enrols that
   * very certificate anew.
   */
  lemma {:induction false} StaleTagsAreStuck(book: Book, s: State, cmds: seq<Command>, t: string, m: Fingerprint)
    requires t in s.payload.tags && m in s.payload.tags[t] && !Indexed(s.payload, m)
    requires Dated(book, s) && Accounted(s) && RunSigned(book, s, cmds)
    requires s.version <= Run(book, s, cmds).version < U64_MAX
    requires forall i :: 0 <= i < |cmds| ==> cmds[i] != AddMember(m)
    ensures Run(book, s, cmds).payload.tags == s.payload.tags
    ensures !Indexed(Run(book, s, cmds).payload, m)
    decreases |cmds|
  {
    if cmds != [] {
      var s' := Apply(book, s, cmds[0]).0;
      VersionStep(book, s, cmds[0]);
      VersionsGrow(book, s', cmds[1..]);
      StaleStep(book, s, cmds[0], t, m);
      DatedStep(book, s, cmds[0]);
      AccountedStep(book, s, cmds[0]);
      StaleTagsAreStuck(book, s', cmds[1..], t, m);
    }
  }

  lemma StaleStep(book: Book, s: State, cmd: Command, t: string, m: Fingerprint)
    requires t in s.payload.tags && m in s.payload.tags[t] && !Indexed(s.payload, m)
    requires Dated(book, s) && Accounted(s) && Signed(book, s, cmd) && s.version < U64_MAX && cmd != AddMember(m)
    ensures Apply(book, s, cmd).0.payload.tags == s.payload.tags
    ensures !Indexed(Apply(book, s, cmd).0.payload, m)
  {
    assert t in TagsOf(s.payload, m);
    assert Mentioned(s.payload, m);
    if Renames(book, s, cmd) { RenameIsFresh(book, s, cmd); }
    MembershipStep(book, s, cmd, m);
    TagsStep(book, s, cmd);
    if cmd.UpdateTag? && Indexed(s.payload, cmd.fp) {
      StaleMembers(s.payload);
      EditKeepsKnown(s.payload, cmd.tag, cmd.fp, cmd.add);
    }
  }
}
