/** The capture daemon: the scan, and the capture of one file, as the program runs them. */
module CaptureDaemon {
  import opened Records
  import opened Framing
  import opened Commitments
  import opened Nonces
  import opened Ledger
  import opened LedgerWriters
  import opened Capture
  import opened CaptureSteps
  import opened CapturePlans
  import opened CaptureEffects
  import opened CaptureRuns
  import opened CaptureVerdicts
  import Archive

  /** The table holds the latest row of every session that has one. */
  ghost predicate Covers(covered: map<string, Row>, rows: seq<Row>) {
    forall sid :: Latest(rows, sid) == if sid in covered then Some(covered[sid]) else None
  }

  /** Item counts of one session grow from row to row. */
  ghost predicate CountsGrow(rows: seq<Row>) {
    forall j, k :: 0 <= j < k < |rows| && rows[j].body.payload.Session?
                   && IsSession(rows[k], rows[j].body.payload.sessionId) ==>
                     rows[j].body.payload.itemCount < rows[k].body.payload.itemCount
  }

  lemma InvCountsGrow(disk: Disk)
    requires Inv(disk)
    ensures CountsGrow(disk.rows)
  {
    var rows := disk.rows;
    forall j, k | 0 <= j < k < |rows| && rows[j].body.payload.Session?
                  && IsSession(rows[k], rows[j].body.payload.sessionId)
      ensures rows[j].body.payload.itemCount < rows[k].body.payload.itemCount
    {
      assert RowGood(disk, rows[j]) && RowGood(disk, rows[k]) && InOrder(rows[j], rows[k]);
    }
  }

  datatype CaptureResult = CaptureError | Captured(rowsAppended: nat, archiveCovered: nat, archiveFailed: nat)

  /** A session append that went through leaves its row last; one that did not adds no session row. */
  lemma AppendCovers(codec: Codec, disk: Disk, op: Op, covered: map<string, Row>)
    requires op.AppendSession? && op.sid == op.snap.sessionId && Chain(disk.rows) && Covers(covered, disk.rows)
    ensures var out := Perform(codec, disk, op);
            if out.ok then out.disk.rows != []
                && Covers(covered[op.sid := out.disk.rows[|out.disk.rows| - 1]], out.disk.rows)
            else Covers(covered, out.disk.rows)
  {
    var out := Perform(codec, disk, op);
    SessionRowsShape(disk, op);
    var rows := SessionRows(disk.rows, op.root, op.count, op.snap).rows;
    AdmittedAll(codec, rows);
    hide SessionRows, Covers, Latest, Accepted, Admitted;
    if disk.torn || Admitted(codec, rows) == [] {
      assert out.disk == disk;
    } else if out.ok {
      assert Admitted(codec, rows) == rows && out.disk.rows == disk.rows + rows;
      FullAppendCovers(disk.rows, rows, op.sid, covered);
    } else {
      var admitted := Admitted(codec, rows);
      assert out.disk.rows == disk.rows + admitted && |admitted| < |rows|;
      ShortAppendCovers(disk.rows, admitted, covered);
    }
  }

  lemma FullAppendCovers(existing: seq<Row>, rows: seq<Row>, sid: string, covered: map<string, Row>)
    requires rows != [] && IsSession(rows[|rows| - 1], sid) && Covers(covered, existing)
    requires forall k :: 0 <= k < |rows| - 1 ==> !rows[k].body.payload.Session?
    ensures Covers(covered[sid := rows[|rows| - 1]], existing + rows)
  {
    hide Latest;
    var init, last := rows[..|rows| - 1], rows[|rows| - 1];
    assert existing + rows == (existing + init) + [last];
    forall other
      ensures Latest(existing + rows, other) == if other == sid then Some(last) else Latest(existing, other)
    {
      LatestLast(existing + init, last, other);
      LatestAppend(existing, init, other);
    }
  }

  lemma ShortAppendCovers(existing: seq<Row>, rows: seq<Row>, covered: map<string, Row>)
    requires Covers(covered, existing)
    requires forall k :: 0 <= k < |rows| ==> !rows[k].body.payload.Session?
    ensures Covers(covered, existing + rows)
  {
    hide Latest;
    forall other
      ensures Latest(existing + rows, other) == Latest(existing, other)
    {
      LatestAppend(existing, rows, other);
    }
  }

  lemma InvIsChain(disk: Disk)
    requires Inv(disk)
    ensures Chain(disk.rows)
  {
  }

  /** A capture of one file, as far as it goes, keeps the stores in order. */
  lemma FileKeeps(codec: Codec, first: Disk, before: Disk, snap: Snapshot, drawn: seq<Bytes>)
    requires Inv(before) && Settled(before) && Grown(first, before) && Drawn(before, snap, drawn)
    ensures var after := PerformAll(codec, before, CapturePlan(before, snap, drawn)).disk;
            Inv(after) && Settled(after) && Grown(first, after)
  {
    PlanReady(before, snap, drawn);
    hide *;
    ReadyPerforms(codec, before, CapturePlan(before, snap, drawn));
    GrownTransitive(first, before, PerformAll(codec, before, CapturePlan(before, snap, drawn)).disk);
  }

  lemma RepairedLedger(disk: Disk)
    requires Inv(disk)
    ensures var repaired := disk.(torn := false, syncedRows := |disk.rows|);
            Inv(repaired) && Settled(repaired) && Grown(disk, repaired) && CountsGrow(repaired.rows)
  {
    var repaired := disk.(torn := false, syncedRows := |disk.rows|);
    InvCountsGrow(disk);
    assert disk.rows + [] == disk.rows;
    ForeignKeeps(disk, repaired, []);
    assert repaired.rows[..|repaired.rows|] == repaired.rows;
    hide Inv, CountsGrow, LatestRoot;
  }

  lemma {:induction false} WritesTouchNonces(codec: Codec, disk: Disk, sid: string, drawn: seq<Bytes>)
    ensures SameButNonces(disk, PerformAll(codec, disk, WriteOps(sid, drawn)).disk)
    decreases |drawn|
  {
    hide Load;
    if drawn != [] {
      assert WriteOps(sid, drawn)[1..] == WriteOps(sid, drawn[1..]);
      WritesTouchNonces(codec, Perform(codec, disk, WriteNonce(sid, drawn[0])).disk, sid, drawn[1..]);
    }
  }

  lemma SyncTouchesNonces(codec: Codec, disk: Disk, sid: string)
    ensures SameButNonces(disk, Perform(codec, disk, SyncNonces(sid)).disk)
  {
  }

  lemma AppendTouchesRows(codec: Codec, disk: Disk, op: Op)
    requires op.AppendSession?
    ensures Perform(codec, disk, op).disk.archives == disk.archives
  {
  }

  lemma NoOps(codec: Codec, disk: Disk)
    ensures PerformAll(codec, disk, []) == Outcome(disk, true)
  {
  }

  /** A complete archive exists. */
  lemma CompleteExists(disk: Disk, sid: string, items: seq<Bytes>, nonces: seq<Bytes>, count: nat, root: Digest)
    requires Archive.Decide(ArchiveOf(disk, sid), items, nonces, count, root).AlreadyComplete?
    ensures sid in disk.archives
  {
    assert Archive.ItemsFromReadback([]) == Some([]);
  }

  /** How far a scan has come: the disk, the rows it counted and the files that raised. */
  datatype Scan = Scan(disk: Disk, appended: nat, failed: nat)

  /** One more file: its plan is performed as far as it goes; it is counted as failed when it is
      rejected or an operation fails, and as appended when its source extends what was committed. */
  ghost predicate ScanStep(codec: Codec, before: Scan, snap: Snapshot, drawn: seq<Bytes>, after: Scan) {
    && Drawn(before.disk, snap, drawn)
    && var out := PerformAll(codec, before.disk, CapturePlan(before.disk, snap, drawn));
       var raised := Rejected(before.disk, snap) || !out.ok;
       after == Scan(out.disk,
                     before.appended + (if !raised && Extended(before.disk, snap) then 1 else 0),
                     before.failed + (if raised then 1 else 0))
  }

  /** A scan of all these snapshots, in order, from the repaired disk. */
  ghost predicate ScanOf(codec: Codec, start: Disk, snaps: seq<Snapshot>, scan: Scan) {
    if snaps == [] then scan == Scan(start, 0, 0)
    else
      var n := |snaps| - 1;
      exists before: Scan, drawn: seq<Bytes> ::
        ScanOf(codec, start, snaps[..n], before) && ScanStep(codec, before, snaps[n], drawn, scan)
  }

  lemma ScanMore(codec: Codec, start: Disk, snaps: seq<Snapshot>, n: nat, before: Scan, drawn: seq<Bytes>, after: Scan)
    requires n < |snaps| && ScanOf(codec, start, snaps[..n], before) && ScanStep(codec, before, snaps[n], drawn, after)
    ensures ScanOf(codec, start, snaps[..n + 1], after)
  {
    hide ScanStep;
    assert snaps[..n + 1][..n] == snaps[..n];
  }

  lemma FileCounts(codec: Codec, before: Scan, snap: Snapshot, drawn: seq<Bytes>, r: CaptureResult, disk: Disk)
    requires Drawn(before.disk, snap, drawn)
    requires var out := PerformAll(codec, before.disk, CapturePlan(before.disk, snap, drawn));
             && disk == out.disk
             && (r.CaptureError? <==> Rejected(before.disk, snap) || !out.ok)
             && (r.Captured? ==> (r.rowsAppended == 1 <==> Extended(before.disk, snap)) && r.rowsAppended <= 1)
    ensures r.CaptureError? ==>
              ScanStep(codec, before, snap, drawn, Scan(disk, before.appended, before.failed + 1))
    ensures r.Captured? ==>
              ScanStep(codec, before, snap, drawn, Scan(disk, before.appended + r.rowsAppended, before.failed))
  {
    hide Drawn, CapturePlan, PerformAll, Rejected, Extended;
  }

  lemma ScanBegins(codec: Codec, start: Disk, snaps: seq<Snapshot>)
    ensures ScanOf(codec, start, snaps[..0], Scan(start, 0, 0))
  {
  }

  class Daemon {
    var disk: Disk

    constructor ()
      ensures disk == EMPTY_DISK
    {
      disk := EMPTY_DISK;
    }

    /** The coverage table of a scan: per session the row with the largest item count, a later one
        on ties, which in every reachable ledger is the latest row. */
    method BuildCovered() returns (covered: map<string, Row>)
      requires CountsGrow(disk.rows)
      ensures Covers(covered, disk.rows)
    {
      covered := map[];
      var rows := disk.rows;
      for n := 0 to |rows|
        invariant Covers(covered, rows[..n])
      {
        var row := rows[n];
        assert rows[..n + 1] == rows[..n] + [row];
        forall sid
          ensures Latest(rows[..n + 1], sid) == if IsSession(row, sid) then Some(row) else Latest(rows[..n], sid)
        {
          LatestLast(rows[..n], row, sid);
        }
        if row.body.payload.Session? {
          var sid := row.body.payload.sessionId;
          if sid in covered {
            ghost var j := LatestIndex(rows[..n], sid);
            assert IsSession(rows[j], sid);
            assert covered[sid] == rows[j];
          }
          if sid !in covered || row.body.payload.itemCount >= covered[sid].body.payload.itemCount {
            covered := covered[sid := row];
          }
        }
      }
      assert rows[..|rows|] == rows;
    }

    /** Append the drawn nonces one by one; false when an append raises. */
    method AppendNonces(codec: Codec, sid: string, drawn: seq<Bytes>) returns (ok: bool)
      modifies this
      ensures Outcome(disk, ok) == PerformAll(codec, old(disk), WriteOps(sid, drawn))
    {
      ghost var all := PerformAll(codec, disk, WriteOps(sid, drawn));
      assert drawn[0..] == drawn;
      for k := 0 to |drawn|
        invariant PerformAll(codec, disk, WriteOps(sid, drawn[k..])) == all
      {
        ghost var ops := WriteOps(sid, drawn[k..]);
        assert drawn[k..][1..] == drawn[k + 1..];
        assert ops[0] == WriteNonce(sid, drawn[k]) && ops[1..] == WriteOps(sid, drawn[k + 1..]);
        var out := Perform(codec, disk, WriteNonce(sid, drawn[k]));
        disk := out.disk;
        if !out.ok {
          return false;
        }
      }
      assert WriteOps(sid, drawn[|drawn|..]) == [];
      return true;
    }

    /** The best-effort archive step: its own failure is a count, never an exception. */
    method ArchiveFile(codec: Codec, snap: Snapshot, items: seq<Bytes>, nonces: seq<Bytes>, count: nat, root: Digest,
                       ghost planned: Disk)
      returns (r: CaptureResult)
      requires snap.archiving && disk.archives == planned.archives
      modifies this
      ensures Outcome(disk, true) == PerformAll(codec, old(disk), ArchiveOps(planned, snap, items, nonces, count, root))
      ensures r == if Archive.Decide(ArchiveOf(planned, snap.sessionId), items, nonces, count, root).Fail?
                   then Captured(0, 0, 1) else Captured(0, 1, 0)
    {
      var sid := snap.sessionId;
      ghost var ops := ArchiveOps(planned, snap, items, nonces, count, root);
      match Archive.Decide(ArchiveOf(disk, sid), items, nonces, count, root) {
        case Fail =>
          return Captured(0, 0, 1);
        case AlreadyComplete =>
          assert ops == [SyncArchive(sid)] && ops[1..] == [];
          CompleteExists(disk, sid, items, nonces, count, root);
          disk := Perform(codec, disk, SyncArchive(sid)).disk;
          return Captured(0, 1, 0);
        case Extend(suffix) =>
          assert ops == [ExtendArchive(sid, suffix), SyncArchive(sid)];
          assert ops[1..] == [SyncArchive(sid)] && ops[1..][1..] == [];
          disk := Perform(codec, disk, ExtendArchive(sid, suffix)).disk;
          ghost var extended := disk;
          disk := Perform(codec, disk, SyncArchive(sid)).disk;
          assert PerformAll(codec, extended, ops[1..]) == Outcome(disk, true);
          return Captured(0, 1, 0);
      }
    }

    /** The system's random source, one nonce per uncovered item. */
    method DrawNonces(count: nat) returns (drawn: seq<Bytes>)
      ensures |drawn| == count
      ensures forall k :: 0 <= k < count ==> |drawn[k]| == NONCE_LEN
    {
      drawn := [];
      for n := 0 to count
        invariant |drawn| == n
        invariant forall k :: 0 <= k < n ==> |drawn[k]| == NONCE_LEN
      {
        assert |Zeros(NONCE_LEN)| == NONCE_LEN;
        var nonce: Bytes :| |nonce| == NONCE_LEN;
        drawn := drawn + [nonce];
      }
    }

    /** The committing half of a capture: nonces, durability, row, table, archive. */
    method Commit(codec: Codec, snap: Snapshot, covered: map<string, Row>, items: seq<Bytes>,
                  known: seq<Bytes>, drawn: seq<Bytes>)
      returns (r: CaptureResult, covered': map<string, Row>)
      requires Covers(covered, disk.rows) && Chain(disk.rows)
      requires Drawn(disk, snap, drawn) && Branch(disk, snap).Commits?
      requires items == CompleteLines(snap.data) && Load(CellsOf(disk, snap.sessionId)) == Some(known)
      modifies this
      ensures disk == PerformAll(codec, old(disk), CapturePlan(old(disk), snap, drawn)).disk
      ensures r.CaptureError? <==> !PerformAll(codec, old(disk), CapturePlan(old(disk), snap, drawn)).ok
      ensures r.Captured? ==> r.rowsAppended == 1
      ensures Covers(covered', disk.rows)
    {
      ghost var start := disk;
      var sid, all := snap.sessionId, known + drawn;
      var root := RootFor(all, items);
      var sync, append := SyncNonces(sid), AppendSession(sid, root, |items|, snap);
      ghost var archiveOps := ArchiveOps(disk, snap, items, all, |items|, root);
      ghost var tail := [sync] + ([append] + archiveOps);
      assert CapturePlan(disk, snap, drawn) == WriteOps(sid, drawn) + tail;
      PerformConcat(codec, disk, WriteOps(sid, drawn), tail);
      WritesTouchNonces(codec, disk, sid, drawn);
      hide *;
      var ok := AppendNonces(codec, sid, drawn);
      if !ok {
        return CaptureError, covered;
      }
      r, covered' := CommitRow(codec, snap, covered, items, all, root, start);
    }

    /** Durability of all nonces, then the row, then the archive. */
    method CommitRow(codec: Codec, snap: Snapshot, covered: map<string, Row>, items: seq<Bytes>,
                     all: seq<Bytes>, root: Digest, ghost planned: Disk)
      returns (r: CaptureResult, covered': map<string, Row>)
      requires Covers(covered, disk.rows) && Chain(disk.rows) && disk.archives == planned.archives
      modifies this
      ensures var ops := [SyncNonces(snap.sessionId)]
                         + ([AppendSession(snap.sessionId, root, |items|, snap)]
                            + ArchiveOps(planned, snap, items, all, |items|, root));
              && disk == PerformAll(codec, old(disk), ops).disk
              && (r.CaptureError? <==> !PerformAll(codec, old(disk), ops).ok)
      ensures r.Captured? ==> r.rowsAppended == 1
      ensures Covers(covered', disk.rows)
    {
      var sid := snap.sessionId;
      var sync, append := SyncNonces(sid), AppendSession(sid, root, |items|, snap);
      ghost var archiveOps := ArchiveOps(planned, snap, items, all, |items|, root);
      PerformFirst(codec, disk, sync, [append] + archiveOps);
      SyncTouchesNonces(codec, disk, sid);
      var synced := Perform(codec, disk, sync);
      hide Covers, Chain, PerformAll, Perform;
      disk := synced.disk;
      if !synced.ok {
        return CaptureError, covered;
      }
      PerformFirst(codec, disk, append, archiveOps);
      AppendCovers(codec, disk, append, covered);
      AppendTouchesRows(codec, disk, append);
      var appended := Perform(codec, disk, append);
      disk := appended.disk;
      if !appended.ok {
        return CaptureError, covered;
      }
      covered' := covered[sid := disk.rows[|disk.rows| - 1]];
      if !snap.archiving {
        assert archiveOps == [];
        NoOps(codec, disk);
        return Captured(1, 0, 0), covered';
      }
      ArchiveOpsOnly(codec, disk, archiveOps);
      var archived := ArchiveFile(codec, snap, items, all, |items|, root, planned);
      r := archived.(rowsAppended := 1);
    }

    /** Capture one file under the scan lock, given the coverage table of the scan. */
    method CaptureFile(codec: Codec, snap: Snapshot, covered: map<string, Row>)
      returns (r: CaptureResult, covered': map<string, Row>, ghost drawn: seq<Bytes>)
      requires Covers(covered, disk.rows) && Chain(disk.rows)
      modifies this
      ensures Drawn(old(disk), snap, drawn)
      ensures disk == PerformAll(codec, old(disk), CapturePlan(old(disk), snap, drawn)).disk
      ensures r.CaptureError? <==>
              Branch(old(disk), snap).Raises? || !PerformAll(codec, old(disk), CapturePlan(old(disk), snap, drawn)).ok
      ensures r.Captured? ==> (r.rowsAppended == 1 <==> Branch(old(disk), snap).Commits?) && r.rowsAppended <= 1
      ensures Inv(old(disk)) ==>
                && (Rejected(old(disk), snap) ==> r.CaptureError? && disk == old(disk))
                && (r.CaptureError? <==>
                      || Rejected(old(disk), snap)
                      || !PerformAll(codec, old(disk), CapturePlan(old(disk), snap, drawn)).ok)
                && (r.Captured? ==> (r.rowsAppended == 1 <==> Extended(old(disk), snap)))
      ensures Covers(covered', disk.rows)
    {
      if Inv(disk) {
        VerdictsIff(disk, snap);
      }
      hide Load, Archive.Decide, RootFor, Versioned, Chain, Inv, Rejected, Extended, PassedOver, Unchanged;
      covered', drawn := covered, [];
      var sid, items := snap.sessionId, CompleteLines(snap.data);
      var loaded := LoadNonces(CellsOf(disk, sid));
      if loaded.None? {
        return CaptureError, covered, [];
      }
      var known := loaded.value;
      assert Latest(disk.rows, sid) == if sid in covered then Some(covered[sid]) else None;
      var row := if sid in covered then Some(covered[sid]) else None;
      if row.Some? && |known| < row.value.body.payload.itemCount {
        return CaptureError, covered, [];
      }
      if |items| < |known| {
        if row.None? || !snap.archiving {
          return Captured(0, 0, 0), covered, [];
        }
        QuietEffect(codec, disk, snap, []);
        r := ArchiveFile(codec, snap, items, known, row.value.body.payload.itemCount, row.value.body.payload.root,
                         disk);
        return;
      }
      if items == [] {
        return Captured(0, 0, 0), covered, [];
      }
      if row.None? || row.value.body.payload.itemCount < |items| || |known| < |items| {
        if row.Some? && row.value.body.payload.itemCount < |items| && !PrefixHolds(row.value, known, items) {
          return CaptureError, covered, [];
        }
        var nonces := DrawNonces(|items| - |known|);
        drawn := nonces;
        r, covered' := Commit(codec, snap, covered, items, known, nonces);
        return;
      }
      if !snap.archiving {
        return Captured(0, 0, 0), covered, [];
      }
      QuietEffect(codec, disk, snap, []);
      r := ArchiveFile(codec, snap, items, known, row.value.body.payload.itemCount, row.value.body.payload.root, disk);
    }

    /** One scan: repair the ledger, build the table, capture every file; a file that raises is
        counted and skipped.  The invariant of the stores survives, whatever the files hold. */
    method ScanOnce(codec: Codec, snaps: seq<Snapshot>) returns (appended: nat, failed: nat)
      requires Inv(disk)
      modifies this
      ensures Inv(disk) && Settled(disk) && Grown(old(disk), disk)
      ensures ScanOf(codec, old(disk).(torn := false, syncedRows := |old(disk).rows|), snaps,
                     Scan(disk, appended, failed))
    {
      hide *;
      RepairedLedger(disk);
      disk := disk.(torn := false, syncedRows := |disk.rows|);
      var covered := BuildCovered();
      appended, failed := 0, 0;
      ghost var start := disk;
      ScanBegins(codec, start, snaps);
      for n := 0 to |snaps|
        invariant Inv(disk) && Settled(disk) && Covers(covered, disk.rows) && Grown(old(disk), disk)
        invariant ScanOf(codec, start, snaps[..n], Scan(disk, appended, failed))
      {
        ghost var before, soFar := disk, Scan(disk, appended, failed);
        InvIsChain(disk);
        var result, table, drawn := CaptureFile(codec, snaps[n], covered);
        FileKeeps(codec, old(disk), before, snaps[n], drawn);
        covered := table;
        FileCounts(codec, soFar, snaps[n], drawn, result, disk);
        match result {
          case CaptureError => failed := failed + 1;
          case Captured(rows, _, _) => appended := appended + rows;
        }
        ScanMore(codec, start, snaps, n, soFar, drawn, Scan(disk, appended, failed));
      }
      assert snaps[..|snaps|] == snaps;
    }
  }
}
