/** The handlers themselves: each edits the payload vectors in place and re-signs. */
module TrustStores {
  import opened Prelude
  import opened Ordering
  import opened Keyed
  import opened StringOrder
  import opened HintNames
  import opened TrustState
  import opened DeviceRows

  class TrustStore {
    const book: Book
    var version: nat
    var index: seq<Entry<Fingerprint, IndexInfo>>
    var revoked: seq<Entry<Fingerprint, RevokedInfo>>
    var disabled: seq<Entry<Fingerprint, DisabledInfo>>
    var grants: seq<Entry<Fingerprint, Grant>>
    var bindings: seq<Entry<Fingerprint, Binding>>
    var tags: map<string, seq<Fingerprint>>
    var hints: seq<Entry<string, Hint>>
    var ips: seq<Entry<string, Ipv4>>
    var onDisk: set<Fingerprint>

    function Contents(): Payload
      reads this
    {
      Payload(index, revoked, disabled, grants, bindings, tags, hints, ips)
    }

    function Snapshot(): State
      reads this
    {
      State(version, Contents(), onDisk)
    }

    constructor (certificates: Book)
      ensures Snapshot() == CREATED && book == certificates
    {
      book := certificates;
      version := 1;
      index, revoked, disabled, grants, bindings, tags, hints, ips := [], [], [], [], [], map[], [], [];
      onDisk := {};
    }

    /** `sign_next_network_state` and the write to disk: `saturating_add(1)`. */
    method SignNext() returns (out: Outcome)
      modifies `version
      ensures version == Next(old(version)) && out == Changed
    {
      if version < U64_MAX { version := version + 1; } else { version := U64_MAX; }
      out := Changed;
    }

    /** `handle_trust_approve` and `handle_trust_bootstrap_self`. */
    method Enrol(fp: Fingerprint) returns (out: Outcome)
      modifies this
      ensures (Snapshot(), out) == Commit(old(Snapshot()), EnrolEdit(book, old(Contents()), fp), old(onDisk) + {fp})
      ensures !out.Failed? && Indexed(Contents(), fp) && fp in onDisk
      ensures version == if old(Indexed(Contents(), fp)) then old(version) else Next(old(version))
    {
      out := Unchanged;
      LookupAppend(index, Entry(fp, IndexInfo(book(fp).name)), fp);
      if !Indexed(Contents(), fp) {
        index := index + [Entry(fp, IndexInfo(book(fp).name))];
        out := SignNext();
      }
      onDisk := onDisk + {fp};
    }

    /** `handle_trust_revoke`. */
    method RevokeMember(fp: Fingerprint, at: nat, note: Option<string>) returns (out: Outcome)
      modifies this
      ensures (Snapshot(), out) == Commit(old(Snapshot()), RevokeEdit(old(Contents()), fp, at, note), old(onDisk))
      ensures out == if old(Indexed(Contents(), fp)) then Changed else Failed(NotInIndex)
      ensures forall other :: Revoked(Contents(), other) <==>
              old(Revoked(Contents(), other)) || (out == Changed && other == fp)
    {
      forall other
        ensures Lookup(revoked + [Entry(fp, RevokedInfo(at, false, note))], other).Some? <==>
                Revoked(Contents(), other) || other == fp
      {
        LookupAppend(revoked, Entry(fp, RevokedInfo(at, false, note)), other);
      }
      if !Indexed(Contents(), fp) { return Failed(NotInIndex); }
      out := SignNext();
      revoked := revoked + [Entry(fp, RevokedInfo(at, false, note))];
    }

    /** `handle_trust_disable`. */
    method DisableMember(fp: Fingerprint, at: nat, until: Option<nat>, note: Option<string>) returns (out: Outcome)
      modifies this
      ensures (Snapshot(), out) ==
              Commit(old(Snapshot()), DisableEdit(old(Contents()), fp, DisabledInfo(at, until, note)), old(onDisk))
      ensures forall other :: Lookup(disabled, other) ==
                if out == Changed && other == fp then Some(DisabledInfo(at, until, note))
                  else old(Lookup(disabled, other))
    {
      forall other
        ensures Lookup(Put(disabled, fp, DisabledInfo(at, until, note)), other) ==
                if other == fp then Some(DisabledInfo(at, until, note)) else Lookup(disabled, other)
      {
        LookupPut(disabled, fp, DisabledInfo(at, until, note), other);
      }
      if Revoked(Contents(), fp) { return Failed(IsRevoked); }
      if !Indexed(Contents(), fp) { return Failed(NotInIndex); }
      disabled := Without(disabled, fp);
      disabled := disabled + [Entry(fp, DisabledInfo(at, until, note))];
      out := SignNext();
    }

    /** `handle_trust_enable`: the removal is dropped when it removed nothing. */
    method EnableMember(fp: Fingerprint) returns (out: Outcome)
      modifies this
      ensures (Snapshot(), out) == Commit(old(Snapshot()), EnableEdit(old(Contents()), fp), old(onDisk))
      ensures out == Changed <==> !old(Revoked(Contents(), fp)) && old(Lookup(disabled, fp)).Some?
      ensures forall other ::
                Lookup(disabled, other) == if out == Changed && other == fp then None else old(Lookup(disabled, other))
    {
      WithoutAbsent(disabled, fp);
      forall other
        ensures Lookup(Without(disabled, fp), other) == if other == fp then None else Lookup(disabled, other)
      {
        LookupOther(disabled, fp, other);
      }
      if Revoked(Contents(), fp) { return Failed(IsRevoked); }
      var left := Without(disabled, fp);
      if |left| == |disabled| { return Failed(NotDisabled); }
      disabled := left;
      out := SignNext();
    }

    /** `resolve_device_view` over the member listing. */
    method ResolveDevice(selector: string) returns (r: Result<Fingerprint, Error>)
      ensures r == Resolve(book, Snapshot(), selector)
    {
      var matches := [];
      for i := 0 to |index|
        invariant matches == Rows(book, index[..i], onDisk, selector)
      {
        assert index[..i + 1] == index[..i] + [index[i]];
        RowsAppend(book, index[..i], onDisk, selector, index[i]);
        if index[i].key in onDisk && selector <= book(index[i].key).deviceId { matches := matches + [index[i].key]; }
      }
      assert index[..|index|] == index;
      if matches == [] { return Err(DeviceNotFound); }
      if |matches| == 1 { return Ok(matches[0]); }
      return Err(AmbiguousDevice);
    }

    /** `handle_trust_rename_device`: the old certificate is revoked and its index entry replaced. */
    method RenameDevice(selector: string, name: string, blank: bool, newFp: Fingerprint, at: nat, note: Option<string>)
        returns (out: Outcome)
      modifies this
      ensures var found := Resolve(book, old(Snapshot()), selector);
              (Snapshot(), out) ==
                if blank then (old(Snapshot()), Failed(EmptyLabel))
                else if found.Err? then (old(Snapshot()), Failed(found.error))
                else Apply(book, old(Snapshot()), Rename(found.value, name, blank, newFp, at, note))
    {
      if blank { return Failed(EmptyLabel); }
      var found := ResolveDevice(selector);
      if found.Err? { return Failed(found.error); }
      var fp := found.value;
      ResolvedIsSole(book, Snapshot(), selector, fp);
      if Revoked(Contents(), fp) { return Failed(IsRevoked); }
      if book(fp).name == name { return Unchanged; }
      revoked := revoked + [Entry(fp, RevokedInfo(at, true, note))];
      index := Without(index, fp);
      index := index + [Entry(newFp, IndexInfo(book(newFp).name))];
      onDisk := onDisk + {newFp};
      out := SignNext();
    }

    /** The requested capability set: an incremental edit of the effective one. */
    method Requested(base: Capabilities, edit: CapabilityEdit) returns (wanted: Capabilities)
      ensures wanted == Edited(base, edit)
    {
      wanted := base;
      if edit.relayData.Some? { wanted := wanted.(relayData := edit.relayData.value); }
      if edit.relayControl.Some? { wanted := wanted.(relayControl := edit.relayControl.value); }
      if edit.clearSubnets {
        wanted := wanted.(proxySubnets := []);
      } else if edit.subnets != [] {
        wanted := wanted.(proxySubnets := SortDedup(edit.subnets));
      }
    }

    method EditGrants(fp: Fingerprint, edit: CapabilityEdit, at: nat) returns (out: Outcome)
      modifies `grants
      ensures (Contents(), out) == CapabilitiesEdit(book, old(Snapshot()), fp, edit, at)
    {
      if !Indexed(Contents(), fp) { return Failed(NotInIndex); }
      if Revoked(Contents(), fp) { return Failed(IsRevoked); }
      if edit.clearSubnets && edit.subnets != [] { return Failed(ConflictingOptions); }
      if edit.relayData.None? && edit.relayControl.None? && !edit.clearSubnets && edit.subnets == [] {
        return Failed(NoChangeRequested);
      }
      if fp !in onDisk { return Failed(NoCertBody); }
      var base := EffectiveCapabilities(book, Contents(), fp);
      var wanted := Requested(base, edit);
      if wanted == base { return Unchanged; }
      grants := Without(grants, fp);
      if wanted != book(fp).capabilities {
        grants := grants + [Entry(fp, Grant(wanted, at))];
      }
      out := Changed;
    }

    /** `handle_trust_capability_set`. */
    method SetMemberCapabilities(fp: Fingerprint, edit: CapabilityEdit, at: nat) returns (out: Outcome)
      modifies this
      ensures (Snapshot(), out) ==
              Commit(old(Snapshot()), CapabilitiesEdit(book, old(Snapshot()), fp, edit, at), old(onDisk))
    {
      out := EditGrants(fp, edit, at);
      if out == Changed { out := SignNext(); }
    }

    /** `live_hostname_entries` and `check_hostname_unique`: a scan of the index. */
    method HostnameTakenBy(target: Fingerprint, hostname: string) returns (taken: bool)
      ensures taken <==> Taken(book, Snapshot(), target, hostname)
    {
      for i := 0 to |index|
        invariant forall k :: 0 <= k < i ==>
          !(&& index[k].key != target && !Revoked(Contents(), index[k].key) && index[k].key in onDisk
            && EffectiveHostname(book, Contents(), index[k].key) == Some(hostname))
      {
        var fp := index[i].key;
        if fp != target && !Revoked(Contents(), fp) && fp in onDisk {
          if EffectiveHostname(book, Contents(), fp) == Some(hostname) { return true; }
        }
      }
      return false;
    }

    method EditBindings(fp: Fingerprint, hostname: Option<string>, at: nat) returns (out: Outcome)
      modifies `bindings
      ensures (Contents(), out) == HostnameEdit(book, old(Snapshot()), fp, hostname, at)
    {
      if !Indexed(Contents(), fp) { return Failed(NotInIndex); }
      if Revoked(Contents(), fp) { return Failed(IsRevoked); }
      if fp !in onDisk { return Failed(NoCertBody); }
      if hostname == EffectiveHostname(book, Contents(), fp) { return Unchanged; }
      if hostname.Some? {
        var taken := HostnameTakenBy(fp, hostname.value);
        if taken { return Failed(HostnameTaken); }
      }
      bindings := Without(bindings, fp);
      if hostname != book(fp).hostname {
        bindings := bindings + [Entry(fp, Binding(hostname, at))];
      }
      out := Changed;
    }

    /** `handle_trust_hostname_update`. */
    method SetMemberHostname(fp: Fingerprint, hostname: Option<string>, at: nat) returns (out: Outcome)
      modifies this
      ensures (Snapshot(), out) ==
              Commit(old(Snapshot()), HostnameEdit(book, old(Snapshot()), fp, hostname, at), old(onDisk))
    {
      out := EditBindings(fp, hostname, at);
      if out == Changed { out := SignNext(); }
    }

    /** The edit that `handle_trust_tag_update` makes to its copy of the policy. */
    method EditPolicy(fp: Fingerprint, tag: string, add: bool)
        returns (changed: bool, policy: map<string, seq<Fingerprint>>)
      ensures changed <==> add == (fp !in Members(tags, tag))
      ensures changed ==> policy == if add then TagsWith(tags, tag, fp) else TagsWithout(tags, tag, fp)
    {
      policy := tags;
      if add {
        var members := Members(policy, tag);
        if fp in members { return false, policy; }
        policy := policy[tag := SortBy(members + [fp], FpLe)];
      } else {
        if tag !in policy || fp !in policy[tag] { return false, policy; }
        var left := Filter(policy[tag], (m: Fingerprint) => m != fp);
        policy := if left == [] then policy - {tag} else policy[tag := left];
      }
      changed := true;
    }

    /** The loop of `validate_for_signing` over the tags and their members. */
    method UnknownMember(policy: map<string, seq<Fingerprint>>) returns (found: bool)
      ensures found <==> exists t, m :: t in policy && m in policy[t] && !Indexed(Contents(), m)
    {
      var left := policy.Keys;
      while left != {}
        invariant left <= policy.Keys
        invariant forall t, m :: t in policy && t !in left && m in policy[t] ==> Indexed(Contents(), m)
        decreases left
      {
        var t :| t in left;
        for i := 0 to |policy[t]|
          invariant forall k :: 0 <= k < i ==> Indexed(Contents(), policy[t][k])
        {
          if !Indexed(Contents(), policy[t][i]) { return true; }
        }
        left := left - {t};
      }
      return false;
    }

    /** `validate_for_signing`, in the order of its checks. */
    method ValidateForSigning(policy: map<string, seq<Fingerprint>>, rulesValid: bool, subnetsKnown: bool)
        returns (error: Option<Error>)
      ensures error == Refusal(Contents(), policy, rulesValid, subnetsKnown)
    {
      if |policy| > MAX_TAGS { return Some(TooManyTags); }
      if !rulesValid { return Some(InvalidRules); }
      var unknown := UnknownMember(policy);
      if unknown { return Some(TagMemberNotFound); }
      if !subnetsKnown { return Some(SubnetOrphan); }
      return None;
    }

    method EditTags(fp: Fingerprint, tag: string, add: bool, rulesValid: bool, subnetsKnown: bool)
        returns (out: Outcome)
      requires Unresolved(book, Snapshot(), fp).None?
      modifies `tags
      ensures (Contents(), out) == TagEdit(book, old(Snapshot()), fp, tag, add, rulesValid, subnetsKnown)
    {
      if Revoked(Contents(), fp) { return Failed(IsRevoked); }
      var changed, policy := EditPolicy(fp, tag, add);
      if !changed { return Unchanged; }
      var error := ValidateForSigning(policy, rulesValid, subnetsKnown);
      if error.Some? { return Failed(error.value); }
      tags := policy;
      out := Changed;
    }

    /** `handle_trust_tag_update`. */
    method UpdateMemberTag(selector: string, tag: string, add: bool, rulesValid: bool, subnetsKnown: bool)
        returns (out: Outcome)
      modifies this
      ensures var found := Resolve(book, old(Snapshot()), selector);
              (Snapshot(), out) ==
                if found.Err? then (old(Snapshot()), Failed(found.error))
                else Apply(book, old(Snapshot()), UpdateTag(found.value, tag, add, rulesValid, subnetsKnown))
    {
      var found := ResolveDevice(selector);
      if found.Err? { return Failed(found.error); }
      ResolvedIsSole(book, Snapshot(), selector, found.value);
      out := EditTags(found.value, tag, add, rulesValid, subnetsKnown);
      if out == Changed { out := SignNext(); }
    }

    method EditHints(url: string, hint: Hint) returns (out: Outcome)
      modifies `hints
      ensures (Contents(), out) == HintEdit(old(Contents()), url, hint)
    {
      match Lookup(hints, url) {
        case Some(existing) =>
          if existing == hint { return Unchanged; }
          hints := Replace(hints, url, hint);
        case None =>
          hints := hints + [Entry(url, hint)];
      }
      hints := SortBy(hints, ByUrl);
      out := Changed;
    }

    /** `handle_trust_peer_hint_update` with `add`. */
    method AddPeerHint(url: string, title: Option<string>, capabilities: seq<string>, at: nat, expiresAt: Option<nat>)
        returns (out: Outcome)
      modifies this
      ensures (Snapshot(), out) ==
              Commit(old(Snapshot()),
                     HintEdit(old(Contents()), url, Hint(title, Normalized(capabilities), at, expiresAt)), old(onDisk))
    {
      var names := NormalizeNames(capabilities);
      out := EditHints(url, Hint(title, names, at, expiresAt));
      if out == Changed { out := SignNext(); }
    }

    /** `handle_trust_peer_hint_update` without `add`. */
    method RemovePeerHint(url: string) returns (out: Outcome)
      modifies this
      ensures (Snapshot(), out) == Commit(old(Snapshot()), HintRemoval(old(Contents()), url), old(onDisk))
    {
      var left := Without(hints, url);
      if |left| == |hints| { return Unchanged; }
      hints := SortBy(left, ByUrl);
      out := SignNext();
    }

    /** `handle_trust_assigned_ipv4`: no revocation check, and keyed by the device. */
    method AssignAddress(fp: Fingerprint, ipv4: Option<Ipv4>) returns (out: Outcome)
      modifies this
      ensures (Snapshot(), out) == Commit(old(Snapshot()), AddressEdit(book, old(Snapshot()), fp, ipv4), old(onDisk))
    {
      if !Indexed(Contents(), fp) { return Failed(NotInIndex); }
      if fp !in onDisk { return Failed(NoCertBody); }
      var device := book(fp).deviceId;
      if Lookup(ips, device) == ipv4 { return Unchanged; }
      ips := Without(ips, device);
      if ipv4.Some? {
        ips := ips + [Entry(device, ipv4.value)];
      }
      out := SignNext();
    }
  }
}
