/**
 * The trust-governance commands (`handle_trust_*`) as transitions of the signed network state.
 * Fingerprints are opaque; a fingerprint is the hash of a certificate, so the certificate it names
 * never changes, and one function `Book` gives it.
 */
module TrustState {
  import opened Prelude
  import opened Ordering
  import opened Keyed
  import opened StringOrder
  import opened HintNames

  const MAX_TAGS: nat := 64

  type Fingerprint = nat

  /** Subnets are kept in their printed form, which is also their sort key. */
  datatype Capabilities = Capabilities(relayData: bool, relayControl: bool, proxySubnets: seq<string>, exitNode: bool)

  /** `versionRef`: the network state version that the certificate was signed against. */
  datatype CertBody = CertBody(
    deviceId: string, name: string, capabilities: Capabilities, hostname: Option<string>, versionRef: nat)

  type Book = Fingerprint -> CertBody

  datatype IndexInfo = IndexInfo(name: string)
  datatype DisabledInfo = DisabledInfo(disabledAt: nat, until: Option<nat>, note: Option<string>)
  datatype RevokedInfo = RevokedInfo(revokedAt: nat, superseded: bool, note: Option<string>)
  datatype Grant = Grant(capabilities: Capabilities, grantedAt: nat)
  datatype Binding = Binding(hostname: Option<string>, boundAt: nat)
  datatype Hint = Hint(title: Option<string>, capabilities: seq<string>, updatedAt: nat, expiresAt: Option<nat>)
  datatype Ipv4 = Ipv4(addr: nat, prefix: nat)

  datatype Payload = Payload(
    index: seq<Entry<Fingerprint, IndexInfo>>,
    revoked: seq<Entry<Fingerprint, RevokedInfo>>,
    disabled: seq<Entry<Fingerprint, DisabledInfo>>,
    grants: seq<Entry<Fingerprint, Grant>>,
    bindings: seq<Entry<Fingerprint, Binding>>,
    tags: map<string, seq<Fingerprint>>,
    hints: seq<Entry<string, Hint>>,
    ips: seq<Entry<string, Ipv4>>)

  /** `onDisk`: the certificates whose bodies the administrator's machine holds. */
  datatype State = State(version: nat, payload: Payload, onDisk: set<Fingerprint>)

  /** `create-network`. */
  const CREATED: State := State(1, Payload([], [], [], [], [], map[], [], []), {})

  datatype CapabilityEdit = CapabilityEdit(
    relayData: Option<bool>, relayControl: Option<bool>, clearSubnets: bool, subnets: seq<string>)

  datatype Command =
    | AddMember(fp: Fingerprint)  // approve and bootstrap-self: the certificate signed for the device
    | Revoke(fp: Fingerprint, at: nat, note: Option<string>)
    | Disable(fp: Fingerprint, at: nat, until: Option<nat>, note: Option<string>)
    | Enable(fp: Fingerprint)
    // A rename and a tag update name a device; `fp` is the certificate that the device lookup finds.
    | Rename(fp: Fingerprint, name: string, blank: bool, newFp: Fingerprint, at: nat, note: Option<string>)
    | SetCapabilities(fp: Fingerprint, edit: CapabilityEdit, at: nat)
    | SetHostname(fp: Fingerprint, hostname: Option<string>, at: nat)
    // The last two: whether the policy's rules pass their own checks, and its subnets are announced.
    | UpdateTag(fp: Fingerprint, tag: string, add: bool, rulesValid: bool, subnetsKnown: bool)
    | AddHint(url: string, title: Option<string>, capabilities: seq<string>, at: nat, expiresAt: Option<nat>)
    | RemoveHint(url: string)
    | AssignIpv4(fp: Fingerprint, ipv4: Option<Ipv4>)

  datatype Error =
    | NotInIndex | IsRevoked | NotDisabled | NoCertBody | EmptyLabel | ConflictingOptions | NoChangeRequested
    | HostnameTaken | TooManyTags | TagMemberNotFound | InvalidRules | SubnetOrphan
    | DeviceNotFound | AmbiguousDevice

  datatype Outcome = Changed | Unchanged | Failed(error: Error)

  /** `sign_next_network_state`: the version saturates. */
  function Next(version: nat): nat {
    if version >= U64_MAX then U64_MAX else version + 1
  }

  predicate Indexed(p: Payload, fp: Fingerprint) {
    Lookup(p.index, fp).Some?
  }

  predicate Revoked(p: Payload, fp: Fingerprint) {
    Lookup(p.revoked, fp).Some?
  }

  /**
   * The rows of the member listing whose device id starts with `selector`. A row stands for an
   * index entry, revoked or not; without the certificate body its device is unknown and never matches.
   */
  function Rows(book: Book, index: seq<Entry<Fingerprint, IndexInfo>>, onDisk: set<Fingerprint>, selector: string):
      seq<Fingerprint>
  {
    if index == [] then []
    else
      var fp, rest := index[0].key, Rows(book, index[1..], onDisk, selector);
      if fp in onDisk && selector <= book(fp).deviceId then [fp] + rest else rest
  }

  /** `resolve_device_view`: a selector must match exactly one row. */
  function Resolve(book: Book, s: State, selector: string): Result<Fingerprint, Error> {
    var rows := Rows(book, s.payload.index, s.onDisk, selector);
    if rows == [] then Err(DeviceNotFound) else if |rows| == 1 then Ok(rows[0]) else Err(AmbiguousDevice)
  }

  /** The certificate is the only row of its device. */
  predicate Sole(book: Book, s: State, fp: Fingerprint) {
    Rows(book, s.payload.index, s.onDisk, book(fp).deviceId) == [fp]
  }

  /** Why no selector finds this certificate. */
  function Unresolved(book: Book, s: State, fp: Fingerprint): Option<Error> {
    if !Indexed(s.payload, fp) || fp !in s.onDisk then Some(DeviceNotFound)
    else if !Sole(book, s, fp) then Some(AmbiguousDevice)
    else None
  }

  function EffectiveCapabilities(book: Book, p: Payload, fp: Fingerprint): Capabilities {
    match Lookup(p.grants, fp)
    case Some(grant) => grant.capabilities
    case None => book(fp).capabilities
  }

  function EffectiveHostname(book: Book, p: Payload, fp: Fingerprint): Option<string> {
    match Lookup(p.bindings, fp)
    case Some(binding) => binding.hostname
    case None => book(fp).hostname
  }

  /** The capability set an edit asks for, starting from the effective one. */
  function Edited(base: Capabilities, e: CapabilityEdit): Capabilities {
    Capabilities(
      if e.relayData.Some? then e.relayData.value else base.relayData,
      if e.relayControl.Some? then e.relayControl.value else base.relayControl,
      if e.clearSubnets then [] else if e.subnets != [] then SortDedup(e.subnets) else base.proxySubnets,
      base.exitNode)
  }

  /** A live member other than `target`, with a known body, already has this hostname. */
  predicate Taken(book: Book, s: State, target: Fingerprint, hostname: string) {
    exists i :: 0 <= i < |s.payload.index| &&
      var fp := s.payload.index[i].key;
      && fp != target && !Revoked(s.payload, fp) && fp in s.onDisk
      && EffectiveHostname(book, s.payload, fp) == Some(hostname)
  }

  function Members(tags: map<string, seq<Fingerprint>>, tag: string): seq<Fingerprint> {
    if tag in tags then tags[tag] else []
  }

  predicate FpLe(a: Fingerprint, b: Fingerprint) {
    a <= b
  }

  predicate FpLt(a: Fingerprint, b: Fingerprint) {
    a < b
  }

  function TagsWith(tags: map<string, seq<Fingerprint>>, tag: string, fp: Fingerprint): map<string, seq<Fingerprint>> {
    tags[tag := SortBy(Members(tags, tag) + [fp], FpLe)]
  }

  function TagsWithout(tags: map<string, seq<Fingerprint>>, tag: string, fp: Fingerprint): map<string, seq<Fingerprint>>
  {
    var left := Filter(Members(tags, tag), (m: Fingerprint) => m != fp);
    if left == [] then tags - {tag} else tags[tag := left]
  }

  predicate MembersKnown(p: Payload, tags: map<string, seq<Fingerprint>>) {
    forall t :: t in tags ==> forall i :: 0 <= i < |tags[t]| ==> Indexed(p, tags[t][i])
  }

  /** `validate_for_signing`: the first check that an edited policy fails. */
  function Refusal(p: Payload, tags: map<string, seq<Fingerprint>>, rulesValid: bool, subnetsKnown: bool): Option<Error>
  {
    if |tags| > MAX_TAGS then Some(TooManyTags)
    else if !rulesValid then Some(InvalidRules)
    else if !MembersKnown(p, tags) then Some(TagMemberNotFound)
    else if !subnetsKnown then Some(SubnetOrphan)
    else None
  }

  predicate ByUrl(a: Entry<string, Hint>, b: Entry<string, Hint>) {
    StrLe(a.key, b.key)
  }

  function Replace(hints: seq<Entry<string, Hint>>, url: string, hint: Hint): seq<Entry<string, Hint>> {
    if hints == [] then []
    else if hints[0].key == url then [Entry(url, hint)] + hints[1..]
    else [hints[0]] + Replace(hints[1..], url, hint)
  }

  /** `find`, then replace or push. */
  function Upserted(hints: seq<Entry<string, Hint>>, url: string, hint: Hint): seq<Entry<string, Hint>> {
    if Lookup(hints, url).Some? then Replace(hints, url, hint) else hints + [Entry(url, hint)]
  }

  function SetOverride<V>(xs: seq<Entry<Fingerprint, V>>, fp: Fingerprint, redundant: bool, v: V):
      seq<Entry<Fingerprint, V>>
  {
    if redundant then Without(xs, fp) else Put(xs, fp, v)
  }

  // --- The edit each command makes to the payload, or why it makes none ---

  function EnrolEdit(book: Book, p: Payload, fp: Fingerprint): (Payload, Outcome) {
    if Indexed(p, fp) then (p, Unchanged)
    else (p.(index := p.index + [Entry(fp, IndexInfo(book(fp).name))]), Changed)
  }

  function RevokeEdit(p: Payload, fp: Fingerprint, at: nat, note: Option<string>): (Payload, Outcome) {
    if !Indexed(p, fp) then (p, Failed(NotInIndex))
    else (p.(revoked := p.revoked + [Entry(fp, RevokedInfo(at, false, note))]), Changed)
  }

  function DisableEdit(p: Payload, fp: Fingerprint, info: DisabledInfo): (Payload, Outcome) {
    if Revoked(p, fp) then (p, Failed(IsRevoked))
    else if !Indexed(p, fp) then (p, Failed(NotInIndex))
    else (p.(disabled := Put(p.disabled, fp, info)), Changed)
  }

  function EnableEdit(p: Payload, fp: Fingerprint): (Payload, Outcome) {
    if Revoked(p, fp) then (p, Failed(IsRevoked))
    else if |Without(p.disabled, fp)| == |p.disabled| then (p, Failed(NotDisabled))
    else (p.(disabled := Without(p.disabled, fp)), Changed)
  }

  function RenameEdit(book: Book, s: State, fp: Fingerprint, name: string, blank: bool, newFp: Fingerprint,
                      info: RevokedInfo): (Payload, Outcome)
  {
    var p := s.payload;
    if blank then (p, Failed(EmptyLabel))
    else if Unresolved(book, s, fp).Some? then (p, Failed(Unresolved(book, s, fp).value))
    else if Revoked(p, fp) then (p, Failed(IsRevoked))
    else if book(fp).name == name then (p, Unchanged)
    else (p.(revoked := p.revoked + [Entry(fp, info)],
             index := Without(p.index, fp) + [Entry(newFp, IndexInfo(book(newFp).name))]), Changed)
  }

  function HintRemoval(p: Payload, url: string): (Payload, Outcome) {
    if |Without(p.hints, url)| == |p.hints| then (p, Unchanged)
    else (p.(hints := SortBy(Without(p.hints, url), ByUrl)), Changed)
  }

  function AddressEdit(book: Book, s: State, fp: Fingerprint, ipv4: Option<Ipv4>): (Payload, Outcome) {
    var p := s.payload;
    if !Indexed(p, fp) then (p, Failed(NotInIndex))
    else if fp !in s.onDisk then (p, Failed(NoCertBody))
    else
      var device := book(fp).deviceId;
      if Lookup(p.ips, device) == ipv4 then (p, Unchanged)
      else (p.(ips := if ipv4.Some? then Put(p.ips, device, ipv4.value) else Without(p.ips, device)), Changed)
  }

  function CapabilitiesEdit(book: Book, s: State, fp: Fingerprint, edit: CapabilityEdit, at: nat): (Payload, Outcome) {
    var p := s.payload;
    if !Indexed(p, fp) then (p, Failed(NotInIndex))
    else if Revoked(p, fp) then (p, Failed(IsRevoked))
    else if edit.clearSubnets && edit.subnets != [] then (p, Failed(ConflictingOptions))
    else if edit.relayData.None? && edit.relayControl.None? && !edit.clearSubnets && edit.subnets == []
      then (p, Failed(NoChangeRequested))
    else if fp !in s.onDisk then (p, Failed(NoCertBody))
    else
      var base := EffectiveCapabilities(book, p, fp);
      var wanted := Edited(base, edit);
      if wanted == base then (p, Unchanged)
      else (p.(grants := SetOverride(p.grants, fp, wanted == book(fp).capabilities, Grant(wanted, at))), Changed)
  }

  function HostnameEdit(book: Book, s: State, fp: Fingerprint, hostname: Option<string>, at: nat): (Payload, Outcome) {
    var p := s.payload;
    if !Indexed(p, fp) then (p, Failed(NotInIndex))
    else if Revoked(p, fp) then (p, Failed(IsRevoked))
    else if fp !in s.onDisk then (p, Failed(NoCertBody))
    else if hostname == EffectiveHostname(book, p, fp) then (p, Unchanged)
    else if hostname.Some? && Taken(book, s, fp, hostname.value) then (p, Failed(HostnameTaken))
    else (p.(bindings := SetOverride(p.bindings, fp, hostname == book(fp).hostname, Binding(hostname, at))), Changed)
  }

  function TagEdit(book: Book, s: State, fp: Fingerprint, tag: string, add: bool, rulesValid: bool, subnetsKnown: bool):
      (Payload, Outcome)
  {
    var p := s.payload;
    if Unresolved(book, s, fp).Some? then (p, Failed(Unresolved(book, s, fp).value))
    else if Revoked(p, fp) then (p, Failed(IsRevoked))
    else if add == (fp in Members(p.tags, tag)) then (p, Unchanged)
    else
      var tags := if add then TagsWith(p.tags, tag, fp) else TagsWithout(p.tags, tag, fp);
      var refusal := Refusal(p, tags, rulesValid, subnetsKnown);
      if refusal.Some? then (p, Failed(refusal.value)) else (p.(tags := tags), Changed)
  }

  function HintEdit(p: Payload, url: string, hint: Hint): (Payload, Outcome) {
    if Lookup(p.hints, url) == Some(hint) then (p, Unchanged)
    else (p.(hints := SortBy(Upserted(p.hints, url, hint), ByUrl)), Changed)
  }

  function Edit(book: Book, s: State, cmd: Command): (r: (Payload, Outcome)) {
    var p := s.payload;
    match cmd
    case AddMember(fp) => EnrolEdit(book, p, fp)
    case Revoke(fp, at, note) => RevokeEdit(p, fp, at, note)
    case Disable(fp, at, until, note) => DisableEdit(p, fp, DisabledInfo(at, until, note))
    case Enable(fp) => EnableEdit(p, fp)
    case Rename(fp, name, blank, newFp, at, note) =>
      RenameEdit(book, s, fp, name, blank, newFp, RevokedInfo(at, true, note))
    case SetCapabilities(fp, edit, at) => CapabilitiesEdit(book, s, fp, edit, at)
    case SetHostname(fp, hostname, at) => HostnameEdit(book, s, fp, hostname, at)
    case UpdateTag(fp, tag, add, rulesValid, subnetsKnown) => TagEdit(book, s, fp, tag, add, rulesValid, subnetsKnown)
    case AddHint(url, title, capabilities, at, expiresAt) =>
      HintEdit(p, url, Hint(title, Normalized(capabilities), at, expiresAt))
    case RemoveHint(url) => HintRemoval(p, url)
    case AssignIpv4(fp, ipv4) => AddressEdit(book, s, fp, ipv4)
  }

  /** An edit that changed something is signed under the next version; any other changes no state. */
  function Commit(s: State, edit: (Payload, Outcome), onDisk: set<Fingerprint>): (State, Outcome) {
    (State(if edit.1 == Changed then Next(s.version) else s.version, edit.0, onDisk), edit.1)
  }

  /** The certificate bodies a completed command leaves on disk. */
  function Stored(s: State, cmd: Command, out: Outcome): set<Fingerprint> {
    if cmd.AddMember? then s.onDisk + {cmd.fp}
    else if cmd.Rename? && out == Changed then s.onDisk + {cmd.newFp}
    else s.onDisk
  }

  /** The guards of a rename: a name, a live member that is its device's only row, and a change of name. */
  predicate Renames(book: Book, s: State, cmd: Command) {
    && cmd.Rename? && !cmd.blank
    && Indexed(s.payload, cmd.fp) && cmd.fp in s.onDisk && Sole(book, s, cmd.fp) && !Revoked(s.payload, cmd.fp)
    && book(cmd.fp).name != cmd.name
  }

  /** One command. */
  function Apply(book: Book, s: State, cmd: Command): (r: (State, Outcome)) {
    var edit := Edit(book, s, cmd);
    Commit(s, edit, Stored(s, cmd, edit.1))
  }
}
