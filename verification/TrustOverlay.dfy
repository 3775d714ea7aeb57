/** The overlays: requested values become effective, and hostnames stay unique among live members. */
module TrustOverlay {
  import opened Prelude
  import opened Keyed
  import opened StringOrder
  import opened TrustState
  import opened DeviceRows
  import opened TrustRuns
  import opened TrustMembers

  // --- Capabilities ---

  /** An edit sets what it names, keeps what it does not, and stores subnets as a strictly sorted list. */
  lemma EditedMeaning(base: Capabilities, e: CapabilityEdit)
    ensures var r := Edited(base, e);
            && r.relayData == (if e.relayData.Some? then e.relayData.value else base.relayData)
            && r.relayControl == (if e.relayControl.Some? then e.relayControl.value else base.relayControl)
            && r.exitNode == base.exitNode
            && (e.clearSubnets || e.subnets != [] ==> Pairwise(r.proxySubnets, StrLt))
            && (!e.clearSubnets && e.subnets == [] ==> r.proxySubnets == base.proxySubnets)
            && (!e.clearSubnets && e.subnets != [] ==> forall x :: x in r.proxySubnets <==> x in e.subnets)
            && (e.clearSubnets ==> r.proxySubnets == [])
            && Edited(r, e) == r
  {
    SortDedupStrict(e.subnets);
  }

  /** A capability command that does not fail makes the edit effective, for its target only, and is idempotent. */
  lemma SetCapabilitiesEffect(book: Book, s: State, cmd: Command, other: Fingerprint)
    requires cmd.SetCapabilities? && !Apply(book, s, cmd).1.Failed? && other != cmd.fp
    ensures var s' := Apply(book, s, cmd).0;
            && EffectiveCapabilities(book, s'.payload, cmd.fp) ==
               Edited(EffectiveCapabilities(book, s.payload, cmd.fp), cmd.edit)
            && EffectiveCapabilities(book, s'.payload, other) == EffectiveCapabilities(book, s.payload, other)
            && s'.payload == s.payload.(grants := s'.payload.grants)
            && Apply(book, s', cmd) == (s', Unchanged)
  {
    var base := EffectiveCapabilities(book, s.payload, cmd.fp);
    var wanted := Edited(base, cmd.edit);
    EditedMeaning(base, cmd.edit);
    var redundant := wanted == book(cmd.fp).capabilities;
    SetOverrideLookup(s.payload.grants, cmd.fp, redundant, Grant(wanted, cmd.at), cmd.fp);
    SetOverrideLookup(s.payload.grants, cmd.fp, redundant, Grant(wanted, cmd.at), other);
  }

  /** Exactly when and why a capability command is refused, and that it is a no-op exactly if nothing new is asked. */
  lemma SetCapabilitiesOutcome(book: Book, s: State, cmd: Command)
    requires cmd.SetCapabilities?
    ensures var out, base := Apply(book, s, cmd).1, EffectiveCapabilities(book, s.payload, cmd.fp);
            if !Indexed(s.payload, cmd.fp) then out == Failed(NotInIndex)
            else if Revoked(s.payload, cmd.fp) then out == Failed(IsRevoked)
            else if cmd.edit.clearSubnets && cmd.edit.subnets != [] then out == Failed(ConflictingOptions)
            else if cmd.edit == CapabilityEdit(None, None, false, []) then out == Failed(NoChangeRequested)
            else if cmd.fp !in s.onDisk then out == Failed(NoCertBody)
            else out == if Edited(base, cmd.edit) == base then Unchanged else Changed
  {
  }

  // --- Disabling, tags and addresses ---

  /** Disabling records exactly what was given, over any older entry, and touches nothing else. */
  lemma DisableEffect(book: Book, s: State, cmd: Command, other: Fingerprint)
    requires cmd.Disable? && other != cmd.fp
    ensures var (s', out) := Apply(book, s, cmd);
            && out == (if Revoked(s.payload, cmd.fp) then Failed(IsRevoked)
                       else if !Indexed(s.payload, cmd.fp) then Failed(NotInIndex)
                       else Changed)
            && (out == Changed ==>
                  Lookup(s'.payload.disabled, cmd.fp) == Some(DisabledInfo(cmd.at, cmd.until, cmd.note)))
            && Lookup(s'.payload.disabled, other) == Lookup(s.payload.disabled, other)
            && s'.payload == s.payload.(disabled := s'.payload.disabled)
  {
    LookupPut(s.payload.disabled, cmd.fp, DisabledInfo(cmd.at, cmd.until, cmd.note), cmd.fp);
    LookupPut(s.payload.disabled, cmd.fp, DisabledInfo(cmd.at, cmd.until, cmd.note), other);
  }

  /** Enabling succeeds exactly on a disabled member that is not revoked, in the index or not. */
  lemma EnableEffect(book: Book, s: State, cmd: Command, other: Fingerprint)
    requires cmd.Enable? && other != cmd.fp
    ensures var (s', out) := Apply(book, s, cmd);
            && out == (if Revoked(s.payload, cmd.fp) then Failed(IsRevoked)
                       else if Lookup(s.payload.disabled, cmd.fp).None? then Failed(NotDisabled)
                       else Changed)
            && (out == Changed ==> Lookup(s'.payload.disabled, cmd.fp).None?)
            && Lookup(s'.payload.disabled, other) == Lookup(s.payload.disabled, other)
            && s'.payload == s.payload.(disabled := s'.payload.disabled)
  {
    WithoutAbsent(s.payload.disabled, cmd.fp);
    LookupOther(s.payload.disabled, cmd.fp, cmd.fp);
    LookupOther(s.payload.disabled, cmd.fp, other);
  }

  /** A tag command that does not fail decides its own membership and no other. */
  lemma UpdateTagEffect(book: Book, s: State, cmd: Command, tag: string, fp: Fingerprint)
    requires cmd.UpdateTag? && !Apply(book, s, cmd).1.Failed?
    ensures var tags' := Apply(book, s, cmd).0.payload.tags;
            fp in Members(tags', tag) <==>
                if fp == cmd.fp && tag == cmd.tag then cmd.add else fp in Members(s.payload.tags, tag)
  {
    TagNoChange(book, s, cmd.fp, cmd.tag, cmd.add, cmd.rulesValid, cmd.subnetsKnown);
    TagEditDecides(s.payload.tags, cmd.tag, cmd.fp, tag, fp);
    UpdateTagIsEdit(book, s, cmd);
  }

  lemma UpdateTagIsEdit(book: Book, s: State, cmd: Command)
    requires cmd.UpdateTag?
    ensures Apply(book, s, cmd) ==
            Commit(s, TagEdit(book, s, cmd.fp, cmd.tag, cmd.add, cmd.rulesValid, cmd.subnetsKnown), s.onDisk)
  {
  }

  /** The policy stays only where the membership asked for is there already, or on failure. */
  lemma TagNoChange(book: Book, s: State, fp: Fingerprint, tag: string, add: bool, rulesValid: bool, subnetsKnown: bool)
    ensures var p := s.payload;
            var (p', out) := TagEdit(book, s, fp, tag, add, rulesValid, subnetsKnown);
            && (out == Unchanged ==> p' == p && add == (fp in Members(p.tags, tag)))
            && (out == Changed ==> p'.tags == if add then TagsWith(p.tags, tag, fp) else TagsWithout(p.tags, tag, fp))
  {
  }

  /**
   * An assignment that does not fail decides the device's address and no other device's; revocation
   * does not stop it.
   */
  lemma AssignIpv4Effect(book: Book, s: State, cmd: Command, device: string)
    requires cmd.AssignIpv4?
    ensures var (s', out) := Apply(book, s, cmd);
            && (out == Failed(NotInIndex) <==> !Indexed(s.payload, cmd.fp))
            && (out == Failed(NoCertBody) <==> Indexed(s.payload, cmd.fp) && cmd.fp !in s.onDisk)
            && (out.Failed? ==> out.error in {NotInIndex, NoCertBody})
            && (!out.Failed? ==> Lookup(s'.payload.ips, book(cmd.fp).deviceId) == cmd.ipv4)
            && (device != book(cmd.fp).deviceId ==> Lookup(s'.payload.ips, device) == Lookup(s.payload.ips, device))
            && s'.payload == s.payload.(ips := s'.payload.ips)
            && (!out.Failed? ==> Apply(book, s', cmd) == (s', Unchanged))
  {
    AddressLookup(s.payload.ips, book(cmd.fp).deviceId, cmd.ipv4, device);
    AddressLookup(s.payload.ips, book(cmd.fp).deviceId, cmd.ipv4, book(cmd.fp).deviceId);
  }

  lemma AddressLookup(ips: seq<Entry<string, Ipv4>>, target: string, ipv4: Option<Ipv4>, device: string)
    ensures Lookup(if ipv4.Some? then Put(ips, target, ipv4.value) else Without(ips, target), device) ==
            if device == target then ipv4 else Lookup(ips, device)
  {
    if ipv4.Some? { LookupPut(ips, target, ipv4.value, device); } else { LookupOther(ips, target, device); }
  }

  // --- Hostnames ---

  ghost predicate Live(s: State, fp: Fingerprint) {
    Indexed(s.payload, fp) && !Revoked(s.payload, fp) && fp in s.onDisk
  }

  ghost predicate UniqueHostnames(book: Book, s: State) {
    forall a, b :: Live(s, a) && Live(s, b) && a != b && EffectiveHostname(book, s.payload, a).Some? ==>
      EffectiveHostname(book, s.payload, a) != EffectiveHostname(book, s.payload, b)
  }

  /** A live member outside `except` has the effective hostname of `fp`. */
  ghost predicate Clash(book: Book, s: State, except: set<Fingerprint>, fp: Fingerprint) {
    && EffectiveHostname(book, s.payload, fp).Some?
    && exists other :: Live(s, other) && other !in except
         && EffectiveHostname(book, s.payload, other) == EffectiveHostname(book, s.payload, fp)
  }

  lemma TakenMeaning(book: Book, s: State, target: Fingerprint, hostname: string)
    ensures Taken(book, s, target, hostname) <==>
            exists fp :: Live(s, fp) && fp != target && EffectiveHostname(book, s.payload, fp) == Some(hostname)
  {
    forall i | 0 <= i < |s.payload.index| ensures Indexed(s.payload, s.payload.index[i].key) {
      LookupFinds(s.payload.index, s.payload.index[i].key);
    }
    forall fp | Indexed(s.payload, fp) ensures exists i :: 0 <= i < |s.payload.index| && s.payload.index[i].key == fp {
      LookupFinds(s.payload.index, fp);
    }
  }

  /** A hostname command that does not fail makes the hostname effective, for its target only, and is idempotent. */
  lemma SetHostnameEffect(book: Book, s: State, cmd: Command, other: Fingerprint)
    requires cmd.SetHostname? && !Apply(book, s, cmd).1.Failed? && other != cmd.fp
    ensures var s' := Apply(book, s, cmd).0;
            && EffectiveHostname(book, s'.payload, cmd.fp) == cmd.hostname
            && EffectiveHostname(book, s'.payload, other) == EffectiveHostname(book, s.payload, other)
            && s'.payload == s.payload.(bindings := s'.payload.bindings)
            && Apply(book, s', cmd) == (s', Unchanged)
  {
    var redundant := cmd.hostname == book(cmd.fp).hostname;
    SetOverrideLookup(s.payload.bindings, cmd.fp, redundant, Binding(cmd.hostname, cmd.at), cmd.fp);
    SetOverrideLookup(s.payload.bindings, cmd.fp, redundant, Binding(cmd.hostname, cmd.at), other);
  }

  /** Exactly when and why a hostname command is refused, and that it is a no-op exactly if nothing new is asked. */
  lemma SetHostnameOutcome(book: Book, s: State, cmd: Command)
    requires cmd.SetHostname?
    ensures var out := Apply(book, s, cmd).1;
            if !Indexed(s.payload, cmd.fp) then out == Failed(NotInIndex)
            else if Revoked(s.payload, cmd.fp) then out == Failed(IsRevoked)
            else if cmd.fp !in s.onDisk then out == Failed(NoCertBody)
            else if cmd.hostname == EffectiveHostname(book, s.payload, cmd.fp) then out == Unchanged
            else out == if HeldByOther(book, s, cmd.fp, cmd.hostname) then Failed(HostnameTaken) else Changed
  {
    if cmd.hostname.Some? { TakenMeaning(book, s, cmd.fp, cmd.hostname.value); }
  }

  /** Another live member has this hostname. */
  ghost predicate HeldByOther(book: Book, s: State, target: Fingerprint, hostname: Option<string>) {
    hostname.Some? && exists fp :: Live(s, fp) && fp != target && EffectiveHostname(book, s.payload, fp) == hostname
  }

  /** Who is live after a command. */
  lemma LiveStep(book: Book, s: State, cmd: Command, fp: Fingerprint)
    ensures var renamed := Renames(book, s, cmd);
            Live(Apply(book, s, cmd).0, fp) <==>
              && !Revoked(s.payload, fp) && !(cmd.Revoke? && cmd.fp == fp) && !(renamed && cmd.fp == fp)
              && (Live(s, fp) || (cmd.AddMember? && cmd.fp == fp) || (renamed && cmd.newFp == fp))
  {
    MembershipStep(book, s, cmd, fp);
  }

  lemma HostnameKept(book: Book, s: State, cmd: Command, fp: Fingerprint)
    requires !cmd.SetHostname? || cmd.fp != fp || Apply(book, s, cmd).1 != Changed
    ensures EffectiveHostname(book, Apply(book, s, cmd).0.payload, fp) == EffectiveHostname(book, s.payload, fp)
  {
    BindingsStep(book, s, cmd);
    if cmd.SetHostname? && cmd.fp != fp {
      SetOverrideLookup(s.payload.bindings, cmd.fp, cmd.hostname == book(cmd.fp).hostname,
                        Binding(cmd.hostname, cmd.at), fp);
    }
  }

  /** The command brings in a certificate whose hostname a live member has already. */
  ghost predicate Collides(book: Book, s: State, cmd: Command) {
    match cmd
    case AddMember(fp) => !Revoked(s.payload, fp) && Clash(book, s, {fp}, fp)
    case Rename(fp, _, _, newFp, _, _) =>
      && Renames(book, s, cmd)
      && newFp != fp && !Revoked(s.payload, newFp) && Clash(book, s, {fp, newFp}, newFp)
    case _ => false
  }

  /** Two members live after a hostname command do not share a hostname. */
  lemma SetHostnameSeparates(book: Book, s: State, cmd: Command, other: Fingerprint)
    requires cmd.SetHostname? && Apply(book, s, cmd).1 == Changed && cmd.hostname.Some?
    requires Live(s, other) && other != cmd.fp
    ensures EffectiveHostname(book, s.payload, other) != cmd.hostname
  {
    TakenMeaning(book, s, cmd.fp, cmd.hostname.value);
  }

  lemma StaysUnique(book: Book, s: State, cmd: Command, a: Fingerprint, b: Fingerprint)
    requires UniqueHostnames(book, s) && !Collides(book, s, cmd)
    requires var s' := Apply(book, s, cmd).0;
             Live(s', a) && Live(s', b) && a != b && EffectiveHostname(book, s'.payload, a).Some?
    ensures var p' := Apply(book, s, cmd).0.payload;
            EffectiveHostname(book, p', a) != EffectiveHostname(book, p', b)
  {
    LiveStep(book, s, cmd, a);
    LiveStep(book, s, cmd, b);
    if cmd.SetHostname? && Apply(book, s, cmd).1 == Changed && cmd.fp in {a, b} {
      SetHostnameEffect(book, s, cmd, if cmd.fp == a then b else a);
      if cmd.hostname.Some? { SetHostnameSeparates(book, s, cmd, if cmd.fp == a then b else a); }
    } else {
      HostnameKept(book, s, cmd, a);
      HostnameKept(book, s, cmd, b);
    }
  }

  /** A command keeps live hostnames distinct exactly if it does not bring in a certificate that collides. */
  lemma HostnamesStepExactly(book: Book, s: State, cmd: Command)
    requires UniqueHostnames(book, s)
    ensures UniqueHostnames(book, Apply(book, s, cmd).0) <==> !Collides(book, s, cmd)
  {
    var s' := Apply(book, s, cmd).0;
    if Collides(book, s, cmd) {
      var fp := if cmd.AddMember? then cmd.fp else cmd.newFp;
      var except := if cmd.AddMember? then {cmd.fp} else {cmd.fp, cmd.newFp};
      var other :| Live(s, other) && other !in except
                   && EffectiveHostname(book, s.payload, other) == EffectiveHostname(book, s.payload, fp);
      LiveStep(book, s, cmd, fp);
      LiveStep(book, s, cmd, other);
      HostnameKept(book, s, cmd, fp);
      HostnameKept(book, s, cmd, other);
      assert Live(s', fp) && Live(s', other);
    } else {
      forall a, b | Live(s', a) && Live(s', b) && a != b && EffectiveHostname(book, s'.payload, a).Some?
        ensures EffectiveHostname(book, s'.payload, a) != EffectiveHostname(book, s'.payload, b)
      {
        StaysUnique(book, s, cmd, a, b);
      }
    }
  }

  /** No certificate of the network carries a hostname of its own. */
  ghost predicate PlainIndex(book: Book, s: State) {
    forall fp :: Indexed(s.payload, fp) ==> book(fp).hostname.None?
  }

  ghost predicate PlainCerts(book: Book, cmds: seq<Command>) {
    forall i :: 0 <= i < |cmds| && cmds[i].AddMember? ==> book(cmds[i].fp).hostname.None?
  }

  /** A plain certificate that is neither live nor revoked has no hostname to collide with. */
  lemma PlainNeverCollides(book: Book, s: State, cmd: Command)
    requires UniqueHostnames(book, s) && Accounted(s) && PlainIndex(book, s) && Signed(book, s, cmd)
    requires cmd.AddMember? ==> book(cmd.fp).hostname.None?
    ensures !Collides(book, s, cmd)
  {
    if cmd.AddMember? || (Renames(book, s, cmd)) {
      IndexStep(book, s, cmd);
      var fp := if cmd.AddMember? then cmd.fp else cmd.newFp;
      if !Indexed(s.payload, fp) && !Revoked(s.payload, fp) {
        assert !Mentioned(s.payload, fp);
      } else if Indexed(s.payload, fp) && !Revoked(s.payload, fp) {
        assert Live(s, fp);
      }
    }
  }

  /** With the certificates the handlers issue, hostnames stay unique among live members in every run. */
  lemma {:induction false} RunKeepsHostnamesUnique(book: Book, s: State, cmds: seq<Command>)
    requires UniqueHostnames(book, s) && Accounted(s) && PlainIndex(book, s)
    requires RunSigned(book, s, cmds) && PlainCerts(book, cmds)
    ensures UniqueHostnames(book, Run(book, s, cmds))
    decreases |cmds|
  {
    if cmds != [] {
      var s' := Apply(book, s, cmds[0]).0;
      PlainNeverCollides(book, s, cmds[0]);
      HostnamesStepExactly(book, s, cmds[0]);
      AccountedStep(book, s, cmds[0]);
      forall fp | Indexed(s'.payload, fp) ensures book(fp).hostname.None? {
        MembershipStep(book, s, cmds[0], fp);
        IndexStep(book, s, cmds[0]);
      }
      RunKeepsHostnamesUnique(book, s', cmds[1..]);
    }
  }

  /** So every network grown from `create` keeps them unique. */
  lemma CreatedHostnamesUnique(book: Book, cmds: seq<Command>)
    requires RunSigned(book, CREATED, cmds) && PlainCerts(book, cmds)
    ensures UniqueHostnames(book, Run(book, CREATED, cmds))
  {
    CreatedIsAccounted(book);
    RunKeepsHostnamesUnique(book, CREATED, cmds);
  }

  // --- A run that ends with a hostname held twice ---

  /** One device whose certificate says `web`, before and after a rename, and another device. */
  const WEB_BOOK: Book := (fp: Fingerprint) =>
    var none := Capabilities(false, false, [], false);
    if fp == 1 then CertBody("d", "a", none, Some("web"), 1)
    else if fp == 2 then CertBody("d", "b", none, Some("web"), 6)
    else CertBody("e", "c", none, None, 1)

  const FIRST: Entry<Fingerprint, IndexInfo> := Entry(1, IndexInfo("a"))
  const OTHER: Entry<Fingerprint, IndexInfo> := Entry(3, IndexInfo("c"))
  const CLEARED: Entry<Fingerprint, Binding> := Entry(1, Binding(None, 0))
  const TAKEN: Entry<Fingerprint, Binding> := Entry(3, Binding(Some("web"), 0))

  function WebState(version: nat, index: seq<Entry<Fingerprint, IndexInfo>>, bindings: seq<Entry<Fingerprint, Binding>>,
                    onDisk: set<Fingerprint>): State
  {
    State(version, Payload(index, [], [], [], bindings, map[], [], []), onDisk)
  }

  lemma WebEnrolled()
    ensures Apply(WEB_BOOK, CREATED, AddMember(1)).0 == WebState(2, [FIRST], [], {1})
    ensures Apply(WEB_BOOK, WebState(3, [FIRST], [CLEARED], {1}), AddMember(3)).0 ==
            WebState(4, [FIRST, OTHER], [CLEARED], {1, 3})
  {
    LookupOne(FIRST, 3);
  }

  lemma WebCleared()
    ensures Apply(WEB_BOOK, WebState(2, [FIRST], [], {1}), SetHostname(1, None, 0)).0 ==
            WebState(3, [FIRST], [CLEARED], {1})
  {
    LookupOne(FIRST, 1);
  }

  lemma WebTaken()
    ensures Apply(WEB_BOOK, WebState(4, [FIRST, OTHER], [CLEARED], {1, 3}), SetHostname(3, Some("web"), 0)).0 ==
            WebState(5, [FIRST, OTHER], [CLEARED, TAKEN], {1, 3})
  {
    var s := WebState(4, [FIRST, OTHER], [CLEARED], {1, 3});
    LookupTwo(FIRST, OTHER, 3);
    LookupOne(OTHER, 3);
    LookupOne(CLEARED, 1);
    LookupOne(CLEARED, 3);
    TakenMeaning(WEB_BOOK, s, 3, "web");
    forall fp | Live(s, fp) ensures fp == 1 || fp == 3 {
      LookupTwo(FIRST, OTHER, fp);
      LookupOne(OTHER, fp);
    }
    assert [CLEARED][1..] == [];
    assert Put([CLEARED], 3, Binding(Some("web"), 0)) == [CLEARED, TAKEN];
  }

  lemma WebCollides()
    ensures var s := WebState(5, [FIRST, OTHER], [CLEARED, TAKEN], {1, 3});
            UniqueHostnames(WEB_BOOK, s) && Collides(WEB_BOOK, s, Rename(1, "b", false, 2, 0, None))
  {
    var s := WebState(5, [FIRST, OTHER], [CLEARED, TAKEN], {1, 3});
    forall fp ensures Indexed(s.payload, fp) <==> fp in {1, 3} {
      LookupTwo(FIRST, OTHER, fp);
      LookupOne(OTHER, fp);
    }
    forall fp | fp in {1, 2, 3}
      ensures EffectiveHostname(WEB_BOOK, s.payload, fp) == if fp == 1 then None else Some("web")
    {
      LookupTwo(CLEARED, TAKEN, fp);
      LookupOne(TAKEN, fp);
    }
    assert Live(s, 3) && Live(s, 1);
    RowsTwo(WEB_BOOK, FIRST, OTHER, {1, 3}, "d");
    RowsOne(WEB_BOOK, OTHER, {1, 3}, "d");
    assert WEB_BOOK(1).deviceId == "d" && WEB_BOOK(3).deviceId == "e" && "d"[0] != "e"[0];
    assert Sole(WEB_BOOK, s, 1);
    assert Clash(WEB_BOOK, s, {1, 2}, 2);
  }

  /**
   * With a hostname inside a certificate a run from the empty network can end with it held twice:
   * the device is enrolled, its hostname cleared, taken by another device, and the device renamed.
   */
  lemma RenameCanDuplicateHostname() returns (cmds: seq<Command>)
    ensures RunSigned(WEB_BOOK, CREATED, cmds) && !UniqueHostnames(WEB_BOOK, Run(WEB_BOOK, CREATED, cmds))
  {
    var s2, s3 := WebState(2, [FIRST], [], {1}), WebState(3, [FIRST], [CLEARED], {1});
    var s4, s5 := WebState(4, [FIRST, OTHER], [CLEARED], {1, 3}), WebState(5, [FIRST, OTHER], [CLEARED, TAKEN], {1, 3});
    var rename := Rename(1, "b", false, 2, 0, None);
    var end := Apply(WEB_BOOK, s5, rename).0;
    WebEnrolled();
    WebCleared();
    WebTaken();
    WebCollides();
    HostnamesStepExactly(WEB_BOOK, s5, rename);
    cmds := [];
    assert Reaches(WEB_BOOK, end, cmds, end);
    PrependStep(WEB_BOOK, s5, rename, end, cmds, end);
    cmds := [rename] + cmds;
    PrependStep(WEB_BOOK, s4, SetHostname(3, Some("web"), 0), s5, cmds, end);
    cmds := [SetHostname(3, Some("web"), 0)] + cmds;
    PrependStep(WEB_BOOK, s3, AddMember(3), s4, cmds, end);
    cmds := [AddMember(3)] + cmds;
    PrependStep(WEB_BOOK, s2, SetHostname(1, None, 0), s3, cmds, end);
    cmds := [SetHostname(1, None, 0)] + cmds;
    PrependStep(WEB_BOOK, CREATED, AddMember(1), s2, cmds, end);
    cmds := [AddMember(1)] + cmds;
  }
}
