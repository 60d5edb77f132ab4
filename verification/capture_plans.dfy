/** The plan of one capture: every operation is safe when its turn comes, a row is planned exactly
when the source strictly extends what was committed, and repeating a capture does nothing. */
module CapturePlans {
  import opened Records
  import opened Framing
  import opened Commitments
  import opened Nonces
  import opened Ledger
  import opened LedgerWriters
  import opened Capture
  import opened CaptureSteps
  import Archive

  // ---- What the latest row says ----------------------------------------------

  /** What Inv gives for the latest row of a session whose nonce file loads. */
  lemma LatestGood(disk: Disk, sid: string) returns (root: Digest)
    requires Inv(disk) && Latest(disk.rows, sid).Some? && Load(CellsOf(disk, sid)).Some?
    ensures root == Latest(disk.rows, sid).value.body.payload.root
    ensures WellCommitted(root, Latest(disk.rows, sid).value.body.payload.itemCount)
    ensures CommittedNonces(root) <= Carried(CellsOf(disk, sid))
    ensures CommittedNonces(root) <= Load(CellsOf(disk, sid)).value
  {
    var j := LatestIndex(disk.rows, sid);
    assert RowGood(disk, disk.rows[j]);
    root := disk.rows[j].body.payload.root;
    var file := disk.nonceFiles[sid];
    assert file.cells == file.cells[..file.synced] + file.cells[file.synced..];
    CarriedMonotone(file.cells[..file.synced], file.cells[file.synced..]);
    LoadIsCarried(CellsOf(disk, sid), 0);
  }

  /** Under longer nonces that begin with the committed ones the root is the same. */
  lemma SameRoot(root: Digest, count: nat, nonces: seq<Bytes>)
    requires WellCommitted(root, count) && CommittedNonces(root) <= nonces
    ensures count <= |nonces| && root == RootFor(nonces, CommittedItems(root))
  {
    RootBindsItems(CommittedNonces(root), CommittedItems(root), nonces, CommittedItems(root));
    assert CommittedNonces(root)[..count] == CommittedNonces(root) == nonces[..count];
  }

  lemma PrefixHoldsIff(row: Row, known: seq<Bytes>, items: seq<Bytes>)
    requires row.body.payload.Session? && WellCommitted(row.body.payload.root, row.body.payload.itemCount)
    requires CommittedNonces(row.body.payload.root) <= known
    ensures PrefixHolds(row, known, items) <==> CommittedItems(row.body.payload.root) <= items
  {
    hide RootFor, Load;
    var root, count := row.body.payload.root, row.body.payload.itemCount;
    SameRoot(root, count, known[..count]);
    if count <= |items| {
      RootBindsItems(known[..count], items[..count], known[..count], CommittedItems(root));
    }
  }

  // ---- Archive operations ----------------------------------------------------

  /** The archive step is safe against the row it is planned for, once that row is the latest. */
  lemma ArchiveOpsReady(disk: Disk, planned: Disk, snap: Snapshot, items: seq<Bytes>, nonces: seq<Bytes>,
                        count: nat, root: Digest)
    requires WellCommitted(root, count) && CommittedNonces(root) <= nonces
    requires LatestRoot(disk.rows, snap.sessionId) == Some(root)
    requires disk.archives == planned.archives
    requires Existing(disk, snap.sessionId) <= Serialize(CommittedItems(root))
    ensures Ready(disk, ArchiveOps(planned, snap, items, nonces, count, root))
  {
    hide Serialize, RootFor, Archive.Decide;
    var sid := snap.sessionId;
    SameRoot(root, count, nonces);
    Archive.DecisionTheorem(ArchiveOf(planned, sid), items, nonces, CommittedItems(root));
    match Archive.Decide(ArchiveOf(planned, sid), items, nonces, count, root)
    case Fail =>
    case AlreadyComplete =>
      ReadyStep(disk, SyncArchive(sid), []);
      assert [SyncArchive(sid)] + [] == [SyncArchive(sid)];
    case Extend(suffix) =>
      var extend, sync := ExtendArchive(sid, suffix), SyncArchive(sid);
      ReadyStep(Ideal(disk, extend).disk, sync, []);
      assert [sync] + [] == [sync];
      ReadyStep(disk, extend, [sync]);
      assert [extend] + [sync] == [extend, sync];
  }

  lemma ReadyStep(disk: Disk, op: Op, rest: seq<Op>)
    requires Safe(disk, op) && (Ideal(disk, op).ok ==> Ready(Ideal(disk, op).disk, rest))
    ensures Ready(disk, [op] + rest)
  {
    assert ([op] + rest)[1..] == rest;
  }

  // ---- Readiness of the whole plan -------------------------------------------

  /** The same stores but for nonce files. */
  ghost predicate SameButNonces(a: Disk, b: Disk) {
    b == a.(nonceFiles := b.nonceFiles)
  }

  lemma AppendReady(disk: Disk, snap: Snapshot, items: seq<Bytes>, all: seq<Bytes>, start: Disk)
    requires Inv(start) && Settled(start) && SameButNonces(start, disk)
    requires items != [] && AllUnbroken(items) && |items| <= |all|
    requires Backed(disk, snap.sessionId, RootFor(all, items))
    requires var root := LatestRoot(start.rows, snap.sessionId);
             root.Some? ==> Extends(root.value, RootFor(all, items))
    ensures var sid, root := snap.sessionId, RootFor(all, items);
            Ready(disk, [AppendSession(sid, root, |items|, snap)] + ArchiveOps(start, snap, items, all, |items|, root))
  {
    hide Serialize, RootFor, Load, Backed;
    var sid, root := snap.sessionId, RootFor(all, items);
    RootReveals(all, items);
    RootBindsItems(all, items, all[..|items|], items);
    assert all[..|items|][..|items|] == all[..|items|];
    assert WellCommitted(root, |items|);
    assert ArchiveGood(start, sid);
    assert sid in start.archives ==> LatestRoot(start.rows[..start.syncedRows], sid) == LatestRoot(start.rows, sid);
    assert Chain(disk.rows);
    hide WellCommitted, Chain, Inv, Settled;
    var append := AppendSession(sid, root, |items|, snap);
    assert Safe(disk, append);
    if sid in start.archives {
      SerializedBelow(LatestRoot(start.rows, sid).value, root, Existing(start, sid));
    }
    AppendedIsLatest(disk, append);
    hide Ready, Safe, ArchiveGood, Extends;
    ArchiveOpsReady(Ideal(disk, append).disk, start, snap, items, all, |items|, root);
    ReadyStep(disk, append, ArchiveOps(start, snap, items, all, |items|, root));
  }

  lemma AppendedIsLatest(disk: Disk, op: Op)
    requires op.AppendSession? && op.sid == op.snap.sessionId && Chain(disk.rows)
    ensures Ideal(disk, op).ok && Ideal(disk, op).disk.archives == disk.archives
    ensures Chain(Ideal(disk, op).disk.rows)
    ensures forall sid :: LatestRoot(Ideal(disk, op).disk.rows, sid) ==
                          if sid == op.sid then Some(op.root) else LatestRoot(disk.rows, sid)
  {
    var payload := Session(op.sid, op.root, op.count, op.snap.source, op.snap.provenance);
    VersionedKeepsChain(disk.rows, op.snap.ts, op.snap.provenance, V2, payload);
    var rows := SessionRows(disk.rows, op.root, op.count, op.snap).rows;
    hide Versioned, Chain;
    forall sid
      ensures LatestRoot(disk.rows + rows, sid) == if sid == op.sid then Some(op.root) else LatestRoot(disk.rows, sid)
    {
      LatestPlanned(disk.rows, rows, sid);
    }
  }

  /** Only the last of some added rows is a session row: it is the latest of its session. */
  lemma LatestPlanned(rows: seq<Row>, more: seq<Row>, sid: string)
    requires more != [] && more[|more| - 1].body.payload.Session?
    requires forall k :: 0 <= k < |more| - 1 ==> !more[k].body.payload.Session?
    ensures var payload := more[|more| - 1].body.payload;
            LatestRoot(rows + more, sid) ==
            if sid == payload.sessionId then Some(payload.root) else LatestRoot(rows, sid)
  {
    var init, last := more[..|more| - 1], more[|more| - 1];
    LatestLast(rows + init, last, sid);
    LatestAppend(rows, init, sid);
    assert rows + more == (rows + init) + [last];
  }

  lemma TailReady(disk: Disk, snap: Snapshot, items: seq<Bytes>, all: seq<Bytes>, start: Disk)
    requires Inv(start) && Settled(start) && SameButNonces(start, disk)
    requires items != [] && AllUnbroken(items) && |items| <= |all|
    requires Carried(CellsOf(disk, snap.sessionId)) == all
    requires var root := LatestRoot(start.rows, snap.sessionId);
             root.Some? ==> Extends(root.value, RootFor(all, items))
    ensures var sid, root := snap.sessionId, RootFor(all, items);
            Ready(disk, [SyncNonces(sid)]
                        + ([AppendSession(sid, root, |items|, snap)]
                           + ArchiveOps(start, snap, items, all, |items|, root)))
  {
    hide Serialize, Load, Inv, Settled, Extends, Ready;
    var sid, root := snap.sessionId, RootFor(all, items);
    var sync := SyncNonces(sid);
    if sid in disk.nonceFiles {
      RootReveals(all, items);
      var cells := disk.nonceFiles[sid].cells;
      assert cells[..|cells|] == cells;
      hide RootFor;
      AppendReady(Ideal(disk, sync).disk, snap, items, all, start);
    }
    ReadyStep(disk, sync, [AppendSession(sid, root, |items|, snap)]
                          + ArchiveOps(start, snap, items, all, |items|, root));
  }

  lemma {:induction false} WritesReady(disk: Disk, snap: Snapshot, items: seq<Bytes>, all: seq<Bytes>,
                                       drawn: seq<Bytes>, rest: seq<Op>, start: Disk)
    requires Inv(start) && Settled(start) && SameButNonces(start, disk)
    requires items != [] && AllUnbroken(items) && |items| <= |all|
    requires Carried(CellsOf(disk, snap.sessionId)) + drawn == all
    requires var root := LatestRoot(start.rows, snap.sessionId);
             root.Some? ==> Extends(root.value, RootFor(all, items))
    requires var sid, root := snap.sessionId, RootFor(all, items);
             rest == [SyncNonces(sid)] + ([AppendSession(sid, root, |items|, snap)]
                                          + ArchiveOps(start, snap, items, all, |items|, root))
    ensures Ready(disk, WriteOps(snap.sessionId, drawn) + rest)
    decreases |drawn|
  {
    hide Serialize, RootFor, Load, Inv, Settled, Extends, Ready;
    var sid := snap.sessionId;
    if drawn == [] {
      assert Carried(CellsOf(disk, sid)) == all;
      TailReady(disk, snap, items, all, start);
      assert WriteOps(sid, drawn) + rest == rest;
    } else {
      var write := WriteNonce(sid, drawn[0]);
      var next := Ideal(disk, write);
      if next.ok {
        var index := |Load(CellsOf(disk, sid)).value|;
        CarriedRow(CellsOf(disk, sid), index, drawn[0]);
        assert Carried(CellsOf(disk, sid)) + [drawn[0]] + drawn[1..] == all;
        WritesReady(next.disk, snap, items, all, drawn[1..], rest, start);
      }
      ReadyStep(disk, write, WriteOps(sid, drawn[1..]) + rest);
      assert WriteOps(sid, drawn) + rest == [write] + (WriteOps(sid, drawn[1..]) + rest);
    }
  }

  /** What a committing capture commits strictly extends the latest row of the session. */
  lemma CommitExtends(disk: Disk, snap: Snapshot, drawn: seq<Bytes>)
    requires Inv(disk) && Drawn(disk, snap, drawn) && Branch(disk, snap).Commits?
    ensures var items, all := CompleteLines(snap.data), Load(CellsOf(disk, snap.sessionId)).value + drawn;
            && items != [] && |items| <= |all|
            && (LatestRoot(disk.rows, snap.sessionId).Some? ==>
                  Extends(LatestRoot(disk.rows, snap.sessionId).value, RootFor(all, items)))
  {
    var sid, items := snap.sessionId, CompleteLines(snap.data);
    var known := Load(CellsOf(disk, sid)).value;
    var all := known + drawn;
    if Latest(disk.rows, sid).Some? {
      var root := LatestGood(disk, sid);
      hide RootFor, Load;
      PrefixHoldsIff(Latest(disk.rows, sid).value, known, items);
      RootReveals(all, items);
      assert CommittedNonces(root) <= all[..|items|];
    }
  }

  /** Every operation of a capture is safe when its turn comes. */
  lemma PlanReady(disk: Disk, snap: Snapshot, drawn: seq<Bytes>)
    requires Inv(disk) && Settled(disk) && Drawn(disk, snap, drawn)
    ensures Ready(disk, CapturePlan(disk, snap, drawn))
  {
    var sid, items := snap.sessionId, CompleteLines(snap.data);
    var loaded := Load(CellsOf(disk, sid));
    match Branch(disk, snap) {
      case Raises =>
      case Commits =>
        CommitExtends(disk, snap, drawn);
        var all := loaded.value + drawn;
        var root := RootFor(all, items);
        var archiveOps := ArchiveOps(disk, snap, items, all, |items|, root);
        var rest := [SyncNonces(sid)] + ([AppendSession(sid, root, |items|, snap)] + archiveOps);
        LoadIsCarried(CellsOf(disk, sid), 0);
        hide Serialize, RootFor, Inv, Settled, Extends, Ready;
        WritesReady(disk, snap, items, all, drawn, rest, disk);
        assert CommitOps(disk, snap, items, all, drawn) == WriteOps(sid, drawn) + rest;
      case _ =>
        if Latest(disk.rows, sid).Some? && CapturePlan(disk, snap, drawn) != [] {
          var root := LatestGood(disk, sid);
          assert ArchiveGood(disk, sid);
          assert LatestRoot(disk.rows[..disk.syncedRows], sid) == LatestRoot(disk.rows, sid);
          if sid !in disk.archives {
            assert Existing(disk, sid) == [];
          }
          var row := Latest(disk.rows, sid).value.body.payload;
          hide Serialize, RootFor, Inv, Settled, Extends, Ready, WellCommitted;
          ArchiveOpsReady(disk, disk, snap, items, loaded.value, row.itemCount, root);
        }
    }
  }
}
