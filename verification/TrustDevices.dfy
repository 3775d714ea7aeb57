/** Devices that can never be renamed or tagged again, whatever is done to them. */
module TrustDevices {
  import opened Prelude
  import opened Keyed
  import opened TrustState
  import opened DeviceRows
  import opened TrustRuns
  import opened TrustMembers

  /** Device ids are encodings of keys, all of one length, so none is a proper prefix of another. */
  ghost predicate Level(book: Book) {
    forall a, b :: |book(a).deviceId| == |book(b).deviceId|
  }

  ghost function DeviceRowsOf(book: Book, s: State, device: string): seq<Fingerprint> {
    Rows(book, s.payload.index, s.onDisk, device)
  }

  /** The device has several rows, or a single one that is revoked. */
  ghost predicate Locked(book: Book, s: State, device: string) {
    var rows := DeviceRowsOf(book, s, device);
    |rows| > 1 || (|rows| == 1 && Revoked(s.payload, rows[0]))
  }

  /** A rename or tag update of a locked device is refused. */
  lemma LockedRefuses(book: Book, s: State, cmd: Command)
    requires (cmd.Rename? || cmd.UpdateTag?) && Locked(book, s, book(cmd.fp).deviceId)
    ensures Apply(book, s, cmd).1.Failed?
  {
  }

  /** No selector of a locked device leads to a certificate that is not revoked. */
  lemma LockedUnreachable(book: Book, s: State, selector: string, device: string)
    requires Locked(book, s, device) && selector <= device
    ensures Resolve(book, s, selector).Ok? ==> Revoked(s.payload, Resolve(book, s, selector).value)
  {
    var rows := DeviceRowsOf(book, s, device);
    RowsNarrow(book, s.payload.index, s.onDisk, selector, device);
    if Resolve(book, s, selector).Ok? {
      RowsMember(book, s.payload.index, s.onDisk, device, rows[0]);
      RowsMember(book, s.payload.index, s.onDisk, selector, rows[0]);
    }
  }

  lemma SameDevice(book: Book, a: Fingerprint, b: Fingerprint)
    requires Level(book)
    ensures book(a).deviceId <= book(b).deviceId ==> book(a).deviceId == book(b).deviceId
  {
    assert |book(a).deviceId| == |book(b).deviceId|;
  }

  /** A rename takes away no row of a locked device. */
  lemma RenameElsewhere(book: Book, s: State, cmd: Command, fp: Fingerprint)
    requires Level(book) && Locked(book, s, book(fp).deviceId) && Renames(book, s, cmd)
    ensures !(book(fp).deviceId <= book(cmd.fp).deviceId)
  {
    SameDevice(book, fp, cmd.fp);
  }

  /** Rows of a locked device are only ever added. */
  lemma LockedRows(book: Book, s: State, cmd: Command, fp: Fingerprint)
    requires Level(book) && Locked(book, s, book(fp).deviceId)
    ensures var device := book(fp).deviceId;
            && |DeviceRowsOf(book, s, device)| <= |DeviceRowsOf(book, Apply(book, s, cmd).0, device)|
            && forall x :: x in DeviceRowsOf(book, s, device) ==> x in DeviceRowsOf(book, Apply(book, s, cmd).0, device)
  {
    var device, s' := book(fp).deviceId, Apply(book, s, cmd).0;
    var index, index' := s.payload.index, s'.payload.index;
    IndexStep(book, s, cmd);
    if Renames(book, s, cmd) {
      var e := Entry(cmd.newFp, IndexInfo(book(cmd.newFp).name));
      RenameElsewhere(book, s, cmd, fp);
      RenameOutcome(book, s, cmd);
      RowsWithout(book, index, s.onDisk, device, cmd.fp);
      RowsAppend(book, Without(index, cmd.fp), s.onDisk, device, e);
    } else if cmd.AddMember? {
      RowsAppend(book, index, s.onDisk, device, Entry(cmd.fp, IndexInfo(book(cmd.fp).name)));
    }
    assert s.onDisk <= s'.onDisk;
    RowsGrow(book, index', s.onDisk, s'.onDisk, device);
    forall x | x in DeviceRowsOf(book, s, device) ensures x in DeviceRowsOf(book, s', device) {
      RowsMember(book, index', s.onDisk, device, x);
      RowsMember(book, index', s'.onDisk, device, x);
    }
  }

  lemma LockedStep(book: Book, s: State, cmd: Command, fp: Fingerprint)
    requires Level(book) && Locked(book, s, book(fp).deviceId)
    ensures Locked(book, Apply(book, s, cmd).0, book(fp).deviceId)
  {
    LockedRows(book, s, cmd, fp);
    var row := DeviceRowsOf(book, s, book(fp).deviceId)[0];
    RevocationKept(book, s, cmd, row);
    assert row in DeviceRowsOf(book, Apply(book, s, cmd).0, book(fp).deviceId);
  }

  lemma LockedTags(book: Book, s: State, cmd: Command, fp: Fingerprint)
    requires Locked(book, s, book(fp).deviceId)
    ensures TagsOf(Apply(book, s, cmd).0.payload, fp) == TagsOf(s.payload, fp)
  {
    if cmd.UpdateTag? && cmd.fp == fp {
      LockedRefuses(book, s, cmd);
      TagsStep(book, s, cmd);
    } else {
      OtherTagsKept(book, s, cmd, fp);
    }
  }

  /**
   * Once a device has two rows, or its one row is revoked, it stays so: along every run every
   * rename and tag update of the device is refused, and the tags of its certificates never change.
   */
  lemma {:induction false} LockedForever(book: Book, s: State, cmds: seq<Command>, fp: Fingerprint)
    requires Level(book) && Locked(book, s, book(fp).deviceId)
    ensures Locked(book, Run(book, s, cmds), book(fp).deviceId)
    ensures TagsOf(Run(book, s, cmds).payload, fp) == TagsOf(s.payload, fp)
    ensures forall i :: 0 <= i < |cmds| && (cmds[i].Rename? || cmds[i].UpdateTag?)
                        && book(cmds[i].fp).deviceId == book(fp).deviceId ==>
              Apply(book, Run(book, s, cmds[..i]), cmds[i]).1.Failed?
    decreases |cmds|
  {
    if cmds != [] {
      var s' := Apply(book, s, cmds[0]).0;
      LockedStep(book, s, cmds[0], fp);
      LockedTags(book, s, cmds[0], fp);
      LockedForever(book, s', cmds[1..], fp);
      forall i | 0 <= i < |cmds| && (cmds[i].Rename? || cmds[i].UpdateTag?)
        && book(cmds[i].fp).deviceId == book(fp).deviceId
        ensures Apply(book, Run(book, s, cmds[..i]), cmds[i]).1.Failed?
      {
        if i == 0 {
          LockedRefuses(book, s, cmds[0]);
        } else {
          assert cmds[..i][1..] == cmds[1..][..i - 1] && cmds[1..][i - 1] == cmds[i];
        }
      }
    }
  }

  /** The signed run followed by the signed command renames the device. */
  ghost predicate RenamedBy(book: Book, s: State, device: string, cmds: seq<Command>, cmd: Command) {
    && RunSigned(book, s, cmds) && Signed(book, Run(book, s, cmds), cmd)
    && Renames(book, Run(book, s, cmds), cmd) && book(cmd.fp).deviceId == device
  }

  ghost predicate HasReissue(book: Book, fp: Fingerprint, name: string, version: nat) {
    exists newFp :: book(newFp) == book(fp).(name := name, versionRef := version)
  }

  /** Whatever the root may sign for a device has a fingerprint. */
  ghost predicate Reissuable(book: Book) {
    forall fp, name, version :: HasReissue(book, fp, name, version)
  }

  /** A listed device is renamed by some signed run exactly if it is not locked now. */
  lemma RenamableExactly(book: Book, s: State, fp: Fingerprint)
    requires Level(book) && Reissuable(book) && DeviceRowsOf(book, s, book(fp).deviceId) != []
    ensures (exists cmds, cmd :: RenamedBy(book, s, book(fp).deviceId, cmds, cmd)) <==>
            !Locked(book, s, book(fp).deviceId)
  {
    var device := book(fp).deviceId;
    if Locked(book, s, device) {
      forall cmds, cmd | RenamedBy(book, s, device, cmds, cmd) ensures false {
        LockedForever(book, s, cmds, fp);
        RenameElsewhere(book, Run(book, s, cmds), cmd, fp);
      }
    } else {
      var row := DeviceRowsOf(book, s, device)[0];
      RowsMember(book, s.payload.index, s.onDisk, device, row);
      SameDevice(book, fp, row);
      assert HasReissue(book, row, book(row).name + "!", Next(s.version));
      var newFp :| book(newFp) == book(row).(name := book(row).name + "!", versionRef := Next(s.version));
      var cmd := Rename(row, book(row).name + "!", false, newFp, 0, None);
      assert |cmd.name| != |book(row).name|;
      assert RenamedBy(book, s, device, [], cmd);
    }
  }

  // --- Approving a revoked device again ---

  const AGAIN_BOOK: Book := (fp: Fingerprint) =>
    CertBody("d", "a", Capabilities(false, false, [], false), None, if fp == 1 then 1 else 3)

  const AGAIN_1: Entry<Fingerprint, IndexInfo> := Entry(1, IndexInfo("a"))
  const AGAIN_2: Entry<Fingerprint, IndexInfo> := Entry(2, IndexInfo("a"))
  const GONE: Entry<Fingerprint, RevokedInfo> := Entry(1, RevokedInfo(0, false, None))

  function AgainState(version: nat, index: seq<Entry<Fingerprint, IndexInfo>>,
                      revoked: seq<Entry<Fingerprint, RevokedInfo>>, onDisk: set<Fingerprint>): State {
    State(version, Payload(index, revoked, [], [], [], map[], [], []), onDisk)
  }

  lemma AgainSteps()
    ensures Apply(AGAIN_BOOK, CREATED, AddMember(1)).0 == AgainState(2, [AGAIN_1], [], {1})
    ensures Apply(AGAIN_BOOK, AgainState(2, [AGAIN_1], [], {1}), Revoke(1, 0, None)).0 ==
            AgainState(3, [AGAIN_1], [GONE], {1})
    ensures Apply(AGAIN_BOOK, AgainState(3, [AGAIN_1], [GONE], {1}), AddMember(2)).0 ==
            AgainState(4, [AGAIN_1, AGAIN_2], [GONE], {1, 2})
  {
    LookupOne(AGAIN_1, 1);
    LookupOne(AGAIN_1, 2);
  }

  lemma AgainLocked()
    ensures var s := AgainState(4, [AGAIN_1, AGAIN_2], [GONE], {1, 2});
            Indexed(s.payload, 2) && !Revoked(s.payload, 2) && Locked(AGAIN_BOOK, s, "d")
  {
    LookupTwo(AGAIN_1, AGAIN_2, 2);
    LookupOne(AGAIN_2, 2);
    LookupOne(GONE, 2);
    RowsTwo(AGAIN_BOOK, AGAIN_1, AGAIN_2, {1, 2}, "d");
    RowsOne(AGAIN_BOOK, AGAIN_2, {1, 2}, "d");
    assert AGAIN_BOOK(1).deviceId == "d" == AGAIN_BOOK(2).deviceId;
  }

  /** A run from the empty network: approved, revoked and approved again, a live device is locked. */
  lemma ReapprovedDeviceIsLocked() returns (cmds: seq<Command>)
    ensures RunSigned(AGAIN_BOOK, CREATED, cmds) && Level(AGAIN_BOOK)
    ensures var s := Run(AGAIN_BOOK, CREATED, cmds);
            Indexed(s.payload, 2) && !Revoked(s.payload, 2) && Locked(AGAIN_BOOK, s, AGAIN_BOOK(2).deviceId)
  {
    var s2, s3 := AgainState(2, [AGAIN_1], [], {1}), AgainState(3, [AGAIN_1], [GONE], {1});
    var end := AgainState(4, [AGAIN_1, AGAIN_2], [GONE], {1, 2});
    AgainSteps();
    AgainLocked();
    assert Reaches(AGAIN_BOOK, end, [], end);
    PrependStep(AGAIN_BOOK, s3, AddMember(2), end, [], end);
    PrependStep(AGAIN_BOOK, s2, Revoke(1, 0, None), s3, [AddMember(2)] + [], end);
    cmds := [AddMember(1)] + ([Revoke(1, 0, None)] + ([AddMember(2)] + []));
    PrependStep(AGAIN_BOOK, CREATED, AddMember(1), s2, [Revoke(1, 0, None)] + ([AddMember(2)] + []), end);
  }
}
