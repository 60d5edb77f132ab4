/** What one uninterrupted capture leaves behind, exactly. */
module CaptureEffects {
  import opened Records
  import opened Framing
  import opened Commitments
  import opened Nonces
  import opened Ledger
  import opened LedgerWriters
  import opened Capture
  import opened CaptureSteps
  import opened CapturePlans
  import opened CaptureRuns
  import Archive

  /** A capture commits a row exactly when the nonce file loads, is no longer than the source, and
      the source strictly extends what the latest row of the session committed. */
  lemma CommitsIff(disk: Disk, snap: Snapshot)
    requires Inv(disk)
    ensures var items, loaded := CompleteLines(snap.data), Load(CellsOf(disk, snap.sessionId));
            Branch(disk, snap).Commits? <==>
              && loaded.Some? && |loaded.value| <= |items| && items != []
              && (LatestRoot(disk.rows, snap.sessionId).Some? ==>
                    CommittedItems(LatestRoot(disk.rows, snap.sessionId).value) < items)
  {
    var sid, items := snap.sessionId, CompleteLines(snap.data);
    if Load(CellsOf(disk, sid)).Some? && Latest(disk.rows, sid).Some? {
      var root := LatestGood(disk, sid);
      PrefixHoldsIff(Latest(disk.rows, sid).value, Load(CellsOf(disk, sid)).value, items);
    }
  }

  lemma {:induction false} PerformConcat(codec: Codec, disk: Disk, a: seq<Op>, b: seq<Op>)
    ensures var first := PerformAll(codec, disk, a);
            PerformAll(codec, disk, a + b) == if first.ok then PerformAll(codec, first.disk, b) else first
    decreases |a|
  {
    if a == [] {
      assert a + b == b;
    } else {
      assert (a + b)[1..] == a[1..] + b;
      var one := Perform(codec, disk, a[0]);
      if one.ok {
        PerformConcat(codec, one.disk, a[1..], b);
      }
    }
  }

  lemma PerformFirst(codec: Codec, disk: Disk, op: Op, rest: seq<Op>)
    ensures var one := Perform(codec, disk, op);
            PerformAll(codec, disk, [op] + rest) == if one.ok then PerformAll(codec, one.disk, rest) else one
  {
    assert ([op] + rest)[1..] == rest;
  }

  /** Writing the drawn nonces: all of them are carried, and the file still loads exactly when it
      did not have to grow from an unterminated line. */
  lemma {:induction false} WritesEffect(codec: Codec, disk: Disk, sid: string, drawn: seq<Bytes>)
    requires Load(CellsOf(disk, sid)).Some?
    requires forall k :: 0 <= k < |drawn| ==> |drawn[k]| == NONCE_LEN
    requires PerformAll(codec, disk, WriteOps(sid, drawn)).ok
    ensures var after := PerformAll(codec, disk, WriteOps(sid, drawn)).disk;
            && SameButNonces(disk, after)
            && Carried(CellsOf(after, sid)) == Load(CellsOf(disk, sid)).value + drawn
            && (Load(CellsOf(after, sid)).Some? <==> drawn == [] || Ended(CellsOf(disk, sid)))
    decreases |drawn|
  {
    var ns := Load(CellsOf(disk, sid)).value;
    if drawn == [] {
      LoadIsCarried(CellsOf(disk, sid), 0);
      hide Load, Carried, CellsOf, Ended;
      assert ns + drawn == ns;
    } else {
      var write, rest := WriteNonce(sid, drawn[0]), drawn[1..];
      assert WriteOps(sid, drawn) == [write] + WriteOps(sid, rest);
      WriteOne(codec, disk, sid, drawn[0]);
      hide Load, Carried, PerformAll, Perform, CellsOf, Ended, WriteOps;
      var one := Perform(codec, disk, write);
      PerformFirst(codec, disk, write, WriteOps(sid, rest));
      assert drawn == [drawn[0]] + rest && ns + [drawn[0]] + rest == ns + drawn;
      if Load(CellsOf(one.disk, sid)).Some? {
        WritesEffect(codec, one.disk, sid, rest);
      } else {
        StuckWrite(codec, one.disk, sid, rest);
      }
    }
  }

  lemma WriteOne(codec: Codec, disk: Disk, sid: string, nonce: Bytes)
    requires Load(CellsOf(disk, sid)).Some? && |nonce| == NONCE_LEN
    ensures var one := Perform(codec, disk, WriteNonce(sid, nonce));
            var ns := Load(CellsOf(disk, sid)).value;
            && one.ok && SameButNonces(disk, one.disk)
            && Ended(CellsOf(one.disk, sid))
            && Carried(CellsOf(one.disk, sid)) == ns + [nonce]
            && Load(CellsOf(one.disk, sid)) == if Ended(CellsOf(disk, sid)) then Some(ns + [nonce]) else None
  {
    var cells := CellsOf(disk, sid);
    var ns := Load(cells).value;
    LoadIsCarried(cells, 0);
    AppendLoads(cells, nonce);
    CarriedRow(cells, |ns|, nonce);
    hide Load, Carried;
    assert CellsOf(Perform(codec, disk, WriteNonce(sid, nonce)).disk, sid) == cells + RowCells(|ns|, nonce);
  }

  lemma StuckWrite(codec: Codec, disk: Disk, sid: string, drawn: seq<Bytes>)
    requires Load(CellsOf(disk, sid)).None?
    ensures PerformAll(codec, disk, WriteOps(sid, drawn)) == Outcome(disk, drawn == [])
  {
    if drawn != [] {
      assert WriteOps(sid, drawn)[0] == WriteNonce(sid, drawn[0]);
    }
  }

  /** The state after a capture that committed and raised nothing. */
  lemma CommitEffect(codec: Codec, disk: Disk, snap: Snapshot, drawn: seq<Bytes>)
    requires Inv(disk) && Settled(disk) && Drawn(disk, snap, drawn) && Branch(disk, snap).Commits?
    requires PerformAll(codec, disk, CapturePlan(disk, snap, drawn)).ok
    ensures var sid, items := snap.sessionId, CompleteLines(snap.data);
            var all := Load(CellsOf(disk, sid)).value + drawn;
            var after := PerformAll(codec, disk, CapturePlan(disk, snap, drawn)).disk;
            && |items| == |all| && items != []
            && LatestRoot(after.rows, sid) == Some(RootFor(all, items))
            && Carried(CellsOf(after, sid)) == all
            && (Load(CellsOf(after, sid)).Some? <==> drawn == [] || Ended(CellsOf(disk, sid)))
            && (snap.archiving ==> ArchiveOf(after, sid) == Some(Serialize(items)))
            && (!snap.archiving ==> after.archives == disk.archives)
  {
    var sid, items := snap.sessionId, CompleteLines(snap.data);
    var known := Load(CellsOf(disk, sid)).value;
    var all := known + drawn;
    CommitExtends(disk, snap, drawn);
    var root := RootFor(all, items);
    var writes := WriteOps(sid, drawn);
    var sync, append := SyncNonces(sid), AppendSession(sid, root, |items|, snap);
    var archiveOps := ArchiveOps(disk, snap, items, all, |items|, root);
    assert CapturePlan(disk, snap, drawn) == writes + ([sync, append] + archiveOps);
    PerformConcat(codec, disk, writes, [sync, append] + archiveOps);
    WritesEffect(codec, disk, sid, drawn);
    var written := PerformAll(codec, disk, writes).disk;
    var synced := Perform(codec, written, sync).disk;
    var appended := Perform(codec, synced, append).disk;
    assert Chain(synced.rows);
    AppendedIsLatest(synced, append);
    var plan := SessionRows(synced.rows, root, |items|, snap);
    AdmittedAll(codec, plan.rows);
    assert ArchiveGood(disk, sid);
    if sid in disk.archives {
      assert LatestRoot(disk.rows[..disk.syncedRows], sid) == LatestRoot(disk.rows, sid);
      RootReveals(all, items);
      SerializedBelow(LatestRoot(disk.rows, sid).value, root, Existing(disk, sid));
    }
    assert Existing(disk, sid) <= Serialize(items);
    hide Inv, Settled, Load, RootFor, Serialize, Branch, Drawn, Carried, Chain, LatestRoot, Versioned, Admitted;
    SyncThenAppend(codec, written, sync, append, archiveOps);
    assert appended == Ideal(synced, append).disk;
    assert CellsOf(appended, sid) == CellsOf(written, sid);
    ArchiveEffect(codec, disk, appended, snap, items, all);
  }

  lemma SyncThenAppend(codec: Codec, disk: Disk, sync: Op, append: Op, rest: seq<Op>)
    requires PerformAll(codec, disk, [sync, append] + rest).ok
    ensures var synced := Perform(codec, disk, sync);
            var appended := Perform(codec, synced.disk, append);
            && synced.ok && appended.ok
            && PerformAll(codec, disk, [sync, append] + rest) == PerformAll(codec, appended.disk, rest)
  {
    assert ([sync, append] + rest)[1..] == [append] + rest;
    assert ([append] + rest)[1..] == rest;
  }

  lemma ArchiveEffect(codec: Codec, planned: Disk, disk: Disk, snap: Snapshot, items: seq<Bytes>, all: seq<Bytes>)
    requires items != [] && AllUnbroken(items) && |items| <= |all|
    requires disk.archives == planned.archives
    requires Existing(planned, snap.sessionId) <= Serialize(items)
    ensures var ops := ArchiveOps(planned, snap, items, all, |items|, RootFor(all, items));
            var after := PerformAll(codec, disk, ops).disk;
            && after == disk.(archives := after.archives)
            && (snap.archiving ==> ArchiveOf(after, snap.sessionId) == Some(Serialize(items)))
            && (!snap.archiving ==> after == disk)
  {
    hide Serialize, RootFor, Archive.Decide;
    var sid := snap.sessionId;
    Archive.DecisionTheorem(ArchiveOf(planned, sid), items, all, items);
    var ops := ArchiveOps(planned, snap, items, all, |items|, RootFor(all, items));
    if snap.archiving {
      match Archive.Decide(ArchiveOf(planned, sid), items, all, |items|, RootFor(all, items))
      case Fail => assert false;
      case AlreadyComplete =>
        assert ops[1..] == [];
      case Extend(suffix) =>
        assert ops[1..] == [SyncArchive(sid)] && ops[1..][1..] == [];
        var extended := Perform(codec, disk, ExtendArchive(sid, suffix)).disk;
        var synced := Perform(codec, extended, SyncArchive(sid)).disk;
        assert PerformAll(codec, extended, ops[1..]) == Outcome(synced, true);
        assert synced.archives[sid].bytes == Serialize(items);
    }
  }

  // ---- Doing it again --------------------------------------------------------

  /** A second look at the same bytes after a capture that raised nothing writes no nonce and no
      row, and extends the archive only if the first look was not allowed to.  The second look
      raises exactly when the first one glued a new nonce to an unterminated line. */
  lemma RescanQuiet(codec: Codec, disk: Disk, snap: Snapshot, drawn: seq<Bytes>, again: Snapshot)
    requires Inv(disk) && Settled(disk) && Drawn(disk, snap, drawn)
    requires PerformAll(codec, disk, CapturePlan(disk, snap, drawn)).ok
    requires again.sessionId == snap.sessionId && again.data == snap.data
    ensures var after := PerformAll(codec, disk, CapturePlan(disk, snap, drawn)).disk;
            && Missing(after, again) == 0
            && !Branch(after, again).Commits?
            && (Branch(disk, snap).Commits? ==>
                  (Branch(after, again).Raises? <==> drawn != [] && !Ended(CellsOf(disk, snap.sessionId))))
            && (!Branch(disk, snap).Commits? ==> Branch(after, again) == Branch(disk, snap))
            && (Branch(disk, snap).Commits? && snap.archiving && again.archiving && !Branch(after, again).Raises? ==>
                  CapturePlan(after, again, []) == [SyncArchive(snap.sessionId)])
  {
    var sid, items := snap.sessionId, CompleteLines(snap.data);
    var after := PerformAll(codec, disk, CapturePlan(disk, snap, drawn)).disk;
    assert Inv(after) by {
      PlanReady(disk, snap, drawn);
      ReadyPerforms(codec, disk, CapturePlan(disk, snap, drawn));
    }
    if Branch(disk, snap).Commits? {
      CommitEffect(codec, disk, snap, drawn);
      var all := Load(CellsOf(disk, sid)).value + drawn;
      LoadIsCarried(CellsOf(after, sid), 0);
      hide Load, RootFor, Serialize, Inv, Carried, CapturePlan;
      if Load(CellsOf(after, sid)).Some? {
        CoveredNow(after, again, items, all);
      } else {
        UnloadableIsFinal(after, again);
      }
    } else {
      QuietEffect(codec, disk, snap, drawn);
      hide Load, PerformAll, Inv, Settled;
      assert Branch(after, again) == Branch(disk, snap);
    }
  }

  /** In every reachable world: after a capture that raised nothing, looking again at an unchanged
      source draws no nonce and touches no row and no nonce, whatever it does to the archive. */
  lemma CleanRescan(codec: Codec, w: World, snap: Snapshot, drawn: seq<Bytes>, again: Snapshot)
    requires Reachable(codec, w) && w.scanning && Drawn(w.disk, snap, drawn)
    requires PerformAll(codec, w.disk, CapturePlan(w.disk, snap, drawn)).ok
    requires again.sessionId == snap.sessionId && again.data == snap.data
    ensures var after := PerformAll(codec, w.disk, CapturePlan(w.disk, snap, drawn)).disk;
            && Drawn(after, again, [])
            && var rescanned := PerformAll(codec, after, CapturePlan(after, again, [])).disk;
               rescanned.rows == after.rows && rescanned.nonceFiles == after.nonceFiles
  {
    ReachableInv(codec, w);
    RescanQuiet(codec, w.disk, snap, drawn, again);
    hide Inv, Settled, Branch, CapturePlan, Reachable;
    QuietEffect(codec, PerformAll(codec, w.disk, CapturePlan(w.disk, snap, drawn)).disk, again, []);
  }

  lemma CoveredNow(after: Disk, again: Snapshot, items: seq<Bytes>, all: seq<Bytes>)
    requires Inv(after) && items == CompleteLines(again.data) && items != [] && |items| == |all|
    requires Load(CellsOf(after, again.sessionId)) == Some(all)
    requires LatestRoot(after.rows, again.sessionId) == Some(RootFor(all, items))
    ensures Branch(after, again).Covered? && Missing(after, again) == 0
    ensures again.archiving && ArchiveOf(after, again.sessionId) == Some(Serialize(items)) ==>
              CapturePlan(after, again, []) == [SyncArchive(again.sessionId)]
  {
    hide Load, RootFor, Serialize, Inv, Branch, Latest, CompleteLines, Missing, CapturePlan, Archive.Decide;
    CoveredCount(after, again.sessionId, items, all);
    CoveredBranch(after, again, items, all);
    if again.archiving && ArchiveOf(after, again.sessionId) == Some(Serialize(items)) {
      CoveredPlan(after, again, items, all);
    }
  }

  /** A covered look at a complete archive only makes it durable again. */
  lemma CoveredPlan(after: Disk, again: Snapshot, items: seq<Bytes>, all: seq<Bytes>)
    requires items == CompleteLines(again.data) && items != [] && |items| == |all|
    requires Branch(after, again).Covered? && Drawn(after, again, [])
    requires Load(CellsOf(after, again.sessionId)) == Some(all)
    requires LatestRoot(after.rows, again.sessionId) == Some(RootFor(all, items))
    requires Latest(after.rows, again.sessionId).value.body.payload.itemCount == |items|
    requires again.archiving && ArchiveOf(after, again.sessionId) == Some(Serialize(items))
    ensures CapturePlan(after, again, []) == [SyncArchive(again.sessionId)]
  {
    hide Load, RootFor, Serialize, Branch, Latest, CompleteLines, Drawn, CellsOf, Archive.Decide;
    Archive.DecisionTheorem(Some(Serialize(items)), items, all, items);
  }

  lemma CoveredCount(after: Disk, sid: string, items: seq<Bytes>, all: seq<Bytes>)
    requires Inv(after) && AllUnbroken(items) && items != [] && |items| == |all|
    requires Load(CellsOf(after, sid)) == Some(all) && LatestRoot(after.rows, sid) == Some(RootFor(all, items))
    ensures Latest(after.rows, sid).value.body.payload.itemCount == |items|
  {
    RootReveals(all, items);
    var root := LatestGood(after, sid);
    hide Load, RootFor, Inv;
  }

  lemma CoveredBranch(after: Disk, again: Snapshot, items: seq<Bytes>, all: seq<Bytes>)
    requires items == CompleteLines(again.data) && items != [] && |items| == |all|
    requires Load(CellsOf(after, again.sessionId)) == Some(all) && Latest(after.rows, again.sessionId).Some?
    requires Latest(after.rows, again.sessionId).value.body.payload.itemCount == |items|
    ensures Branch(after, again).Covered? && Missing(after, again) == 0
  {
    hide Load, CellsOf, Latest, CompleteLines, PrefixHolds;
  }

  lemma {:induction false} ArchiveOpsOnly(codec: Codec, disk: Disk, ops: seq<Op>)
    requires forall k :: 0 <= k < |ops| ==> ops[k].SyncArchive? || ops[k].ExtendArchive?
    ensures var after := PerformAll(codec, disk, ops).disk;
            after == disk.(archives := after.archives)
    decreases |ops|
  {
    if ops != [] {
      var one := Perform(codec, disk, ops[0]);
      assert ops[0].SyncArchive? || ops[0].ExtendArchive?;
      ArchiveOpsOnly(codec, one.disk, ops[1..]);
    }
  }

  /** A capture that commits nothing changes archives at most. */
  lemma QuietEffect(codec: Codec, disk: Disk, snap: Snapshot, drawn: seq<Bytes>)
    requires Drawn(disk, snap, drawn) && !Branch(disk, snap).Commits?
    ensures var after := PerformAll(codec, disk, CapturePlan(disk, snap, drawn)).disk;
            after == disk.(archives := after.archives)
  {
    hide Load, Archive.Decide, Branch;
    ArchiveOpsOnly(codec, disk, CapturePlan(disk, snap, drawn));
  }

  /** A session whose nonce file no longer loads is never captured again, whatever its source. */
  lemma UnloadableIsFinal(disk: Disk, snap: Snapshot)
    requires Load(CellsOf(disk, snap.sessionId)).None?
    ensures Branch(disk, snap).Raises?
    ensures CapturePlan(disk, snap, []) == []
  {
  }

  /** Such a session can have a committed row: one nonce row lost only its newline, the source grew by
      one item, and the capture after that succeeded. */
  lemma StrandedSession(codec: Codec, disk: Disk, snap: Snapshot, nonce: Bytes)
    requires Inv(disk) && Settled(disk) && Drawn(disk, snap, [nonce]) && Branch(disk, snap).Commits?
    requires !Ended(CellsOf(disk, snap.sessionId))
    requires PerformAll(codec, disk, CapturePlan(disk, snap, [nonce])).ok
    ensures var after := PerformAll(codec, disk, CapturePlan(disk, snap, [nonce])).disk;
            && LatestRoot(after.rows, snap.sessionId).Some?
            && forall next: Snapshot :: next.sessionId == snap.sessionId ==> Branch(after, next).Raises?
  {
    CommitEffect(codec, disk, snap, [nonce]);
    var after := PerformAll(codec, disk, CapturePlan(disk, snap, [nonce])).disk;
    forall next: Snapshot | next.sessionId == snap.sessionId
      ensures Branch(after, next).Raises?
    {
      UnloadableIsFinal(after, next);
    }
  }

  // ---- A run that strands a session ------------------------------------------

  function Line(item: Bytes): Bytes {
    item + [NL]
  }

  /** A transcript of one item, and the same transcript grown by one. */
  function ShortLook(sid: string, one: Bytes): Snapshot {
    Snapshot(sid, Line(one), "", None, "", false)
  }

  function LongLook(sid: string, one: Bytes, two: Bytes): Snapshot {
    Snapshot(sid, Line(one) + Line(two), "", None, "", false)
  }

  lemma LinesOfLooks(sid: string, one: Bytes, two: Bytes)
    requires Unbroken(one) && Unbroken(two)
    ensures CompleteLines(ShortLook(sid, one).data) == [one]
            && CompleteLines(LongLook(sid, one, two).data) == [one, two]
  {
    SerializeOne(one);
    SerializeOne(two);
    SerializeCons(one, [two]);
    assert [one] + [two] == [one, two];
    SplitSerialized([one], []);
    SplitSerialized([one, two], []);
    assert Serialize([one]) + [] == Line(one) && Serialize([one, two]) + [] == Line(one) + Line(two);
  }

  /** After the death: the nonce is on file without its newline, and nothing else is. */
  function CutDisk(sid: string, n0: Bytes): Disk {
    EMPTY_DISK.(nonceFiles := map[sid := NonceFile([RowText(0, n0)], 0)])
  }

  /** The look at a session seen for the first time, with one item, commits under one drawn nonce. */
  lemma NewSession(disk: Disk, snap: Snapshot, item: Bytes, nonce: Bytes)
    requires CompleteLines(snap.data) == [item] && |nonce| == NONCE_LEN
    requires Load(CellsOf(disk, snap.sessionId)) == Some([]) && Latest(disk.rows, snap.sessionId).None?
    ensures Branch(disk, snap).Commits? && Drawn(disk, snap, [nonce])
  {
    hide CompleteLines, Load, CellsOf, Latest, PrefixHolds;
  }

  lemma FirstLook(sid: string, one: Bytes, n0: Bytes)
    requires Unbroken(one) && |n0| == NONCE_LEN
    ensures var snap := ShortLook(sid, one);
            && CompleteLines(snap.data) == [one] && Load(CellsOf(EMPTY_DISK, sid)) == Some([])
            && Branch(EMPTY_DISK, snap).Commits? && Drawn(EMPTY_DISK, snap, [n0])
  {
    LinesOfLooks(sid, one, one);
    assert CellsOf(EMPTY_DISK, sid) == [] && Load([]) == Some([]) && Latest([], sid) == None by {
      hide Branch, CompleteLines, Drawn;
    }
    hide CompleteLines, Branch, Drawn, Load, Latest, CellsOf;
    NewSession(EMPTY_DISK, ShortLook(sid, one), one, n0);
  }

  lemma FirstPlan(sid: string, one: Bytes, n0: Bytes)
    requires Unbroken(one) && |n0| == NONCE_LEN
    ensures var snap := ShortLook(sid, one);
            Drawn(EMPTY_DISK, snap, [n0]) && CapturePlan(EMPTY_DISK, snap, [n0]) != []
            && CapturePlan(EMPTY_DISK, snap, [n0])[0] == WriteNonce(sid, n0)
  {
    var snap := ShortLook(sid, one);
    FirstLook(sid, one, n0);
    FirstOp(EMPTY_DISK, snap, [one], [] + [n0], n0);
    hide CompleteLines, Load, Branch, Drawn, CommitOps, CellsOf;
  }

  lemma FirstOp(disk: Disk, snap: Snapshot, items: seq<Bytes>, all: seq<Bytes>, n: Bytes)
    requires items != [] && |items| <= |all|
    ensures var plan := CommitOps(disk, snap, items, all, [n]);
            plan != [] && plan[0] == WriteNonce(snap.sessionId, n)
  {
  }

  lemma FirstDeath(codec: Codec, sid: string, n0: Bytes)
    requires |n0| == NONCE_LEN
    ensures CutShort(codec, EMPTY_DISK, WriteNonce(sid, n0), 2, false) == CutDisk(sid, n0)
  {
    assert CellsOf(EMPTY_DISK, sid) == [] && Load([]) == Some([]);
    assert [] + [RowText(0, n0)] == [RowText(0, n0)];
  }

  /** The next scan meets all hypotheses of `StrandedSession`. */
  lemma SecondScan(codec: Codec, sid: string, one: Bytes, two: Bytes, n0: Bytes, n1: Bytes)
    requires Unbroken(one) && Unbroken(two) && |n0| == |n1| == NONCE_LEN && forall row: Row :: codec.accepts(row)
    ensures var disk, snap := CutDisk(sid, n0), LongLook(sid, one, two);
            && Drawn(disk, snap, [n1]) && Branch(disk, snap).Commits? && !Ended(CellsOf(disk, sid))
            && |CapturePlan(disk, snap, [n1])| == 3
            && PerformAll(codec, disk, CapturePlan(disk, snap, [n1])).ok
  {
    LinesOfLooks(sid, one, two);
    hide CompleteLines, RootFor, Archive.Decide;
    var disk, snap := CutDisk(sid, n0), LongLook(sid, one, two);
    assert CellsOf(disk, sid) == [RowText(0, n0)] && Load(CellsOf(disk, sid)) == Some([n0]);
    assert Drawn(disk, snap, [n1]) && Branch(disk, snap).Commits?;
    var root := RootFor([n0] + [n1], [one, two]);
    var plan := CapturePlan(disk, snap, [n1]);
    assert WriteOps(sid, [n1]) == [WriteNonce(sid, n1)];
    assert plan == [WriteNonce(sid, n1), SyncNonces(sid), AppendSession(sid, root, 2, snap)];
    hide Load, Branch, CapturePlan;
    ThreeOps(codec, disk, plan);
    AppendGoesThrough(codec, disk, sid, root, snap);
  }

  lemma ThreeOps(codec: Codec, disk: Disk, plan: seq<Op>)
    requires |plan| == 3
    ensures var a := Perform(codec, disk, plan[0]);
            var b := Perform(codec, a.disk, plan[1]);
            var c := Perform(codec, b.disk, plan[2]);
            PerformAll(codec, disk, plan) == if !a.ok then a else if !b.ok then b else c
  {
    hide Perform;
    assert plan == [plan[0]] + ([plan[1]] + [plan[2]]);
    PerformFirst(codec, disk, plan[0], [plan[1]] + [plan[2]]);
    var a := Perform(codec, disk, plan[0]);
    PerformFirst(codec, a.disk, plan[1], [plan[2]]);
    var b := Perform(codec, a.disk, plan[1]);
    PerformFirst(codec, b.disk, plan[2], []);
    assert [plan[2]] + [] == [plan[2]];
  }

  lemma AppendGoesThrough(codec: Codec, disk: Disk, sid: string, root: Digest, snap: Snapshot)
    requires disk.rows == [] && !disk.torn && forall row: Row :: codec.accepts(row)
    ensures Perform(codec, disk, AppendSession(sid, root, 2, snap)).ok
  {
    VersionedKeepsChain([], snap.ts, snap.provenance, V2,
                        Session(snap.sessionId, root, 2, snap.source, snap.provenance));
    hide Versioned, Chain;
  }

  lemma ReachStep(codec: Codec, w: World, h: Happening)
    requires Reachable(codec, w)
    ensures w.disk.syncedRows <= |w.disk.rows| && Reachable(codec, Happens(codec, w, h))
  {
    ReachableInv(codec, w);
    hide Happens;
    var run, happenings :| IsRun(codec, run, happenings) && run[|run| - 1] == w;
    var longer, more := run + [Happens(codec, w, h)], happenings + [h];
    forall k | 0 <= k < |more|
      ensures longer[k].disk.syncedRows <= |longer[k].disk.rows| && longer[k + 1] == Happens(codec, longer[k], more[k])
    {
      if k < |happenings| {
        assert longer[k] == run[k] && longer[k + 1] == run[k + 1];
      }
    }
    assert IsRun(codec, longer, more);
  }

  lemma StartIsReachable(codec: Codec)
    ensures Reachable(codec, START)
  {
    assert IsRun(codec, [START], []);
  }

  lemma ThreeContinues(codec: Codec, w: World) returns (w': World)
    requires Reachable(codec, w) && |w.todo| == 3 && PerformAll(codec, w.disk, w.todo).ok
    ensures Reachable(codec, w') && w'.disk == PerformAll(codec, w.disk, w.todo).disk
  {
    ThreeOps(codec, w.disk, w.todo);
    ReachStep(codec, w, Continue);
    var w1 := Happens(codec, w, Continue);
    ReachStep(codec, w1, Continue);
    var w2 := Happens(codec, w1, Continue);
    ReachStep(codec, w2, Continue);
    w' := Happens(codec, w2, Continue);
    hide Perform, Reachable;
  }

  /** A scan looks at the short transcript and dies when its nonce row lacks only the newline. */
  lemma FirstScan(codec: Codec, sid: string, one: Bytes, n0: Bytes)
    requires Unbroken(one) && |n0| == NONCE_LEN
    ensures Reachable(codec, World(CutDisk(sid, n0), false, []))
  {
    var short := ShortLook(sid, one);
    FirstPlan(sid, one, n0);
    FirstDeath(codec, sid, n0);
    hide CapturePlan, CutShort, Reachable, Drawn, ShortLook, CutDisk;
    StartIsReachable(codec);
    ReachStep(codec, START, StartScan);
    var w1 := World(EMPTY_DISK, true, []);
    ReachStep(codec, w1, Look(short, [n0]));
    var w2 := w1.(todo := CapturePlan(EMPTY_DISK, short, [n0]));
    assert Happens(codec, w1, Look(short, [n0])) == w2;
    ReachStep(codec, w2, Die(2, false));
  }

  /** A run: after that death the next scan looks at the grown transcript and captures it to the end.
      It ends in a world where the session has a row and is never captured again. */
  lemma StrandedIsReachable(codec: Codec, sid: string, one: Bytes, two: Bytes, n0: Bytes, n1: Bytes) returns (w: World)
    requires Unbroken(one) && Unbroken(two) && |n0| == |n1| == NONCE_LEN && forall row: Row :: codec.accepts(row)
    ensures Reachable(codec, w) && LatestRoot(w.disk.rows, sid).Some?
    ensures forall next: Snapshot :: next.sessionId == sid ==> Branch(w.disk, next).Raises?
  {
    var long := LongLook(sid, one, two);
    FirstScan(codec, sid, one, n0);
    SecondScan(codec, sid, one, two, n0, n1);
    assert long.sessionId == sid && CutDisk(sid, n0).rows == [] && !CutDisk(sid, n0).torn;
    hide CapturePlan, Branch, PerformAll, Reachable, Drawn, Inv, Settled, Ended, LongLook, CutDisk;
    var w3 := World(CutDisk(sid, n0), false, []);
    ReachStep(codec, w3, StartScan);
    var w4 := World(CutDisk(sid, n0), true, []);
    assert Happens(codec, w3, StartScan) == w4;
    ReachStep(codec, w4, Look(long, [n1]));
    var w5 := w4.(todo := CapturePlan(CutDisk(sid, n0), long, [n1]));
    assert Happens(codec, w4, Look(long, [n1])) == w5;
    w := ThreeContinues(codec, w5);
    ReachableInv(codec, w4);
    hide WorldInv, Happens;
    StrandedSession(codec, w4.disk, long, n1);
  }

  /** An archive left short by a death or never started is completed by the next look at a source
      that still is what the latest row committed. */
  lemma ArchiveCompletes(codec: Codec, disk: Disk, snap: Snapshot)
    requires Inv(disk) && Settled(disk) && snap.archiving
    requires Load(CellsOf(disk, snap.sessionId)).Some? && LatestRoot(disk.rows, snap.sessionId).Some?
    requires CommittedItems(LatestRoot(disk.rows, snap.sessionId).value) == CompleteLines(snap.data)
    requires |Load(CellsOf(disk, snap.sessionId)).value| == |CompleteLines(snap.data)|
    ensures Drawn(disk, snap, [])
    ensures ArchiveOf(PerformAll(codec, disk, CapturePlan(disk, snap, [])).disk, snap.sessionId) ==
            Some(Serialize(CompleteLines(snap.data)))
  {
    var sid, items := snap.sessionId, CompleteLines(snap.data);
    var known := Load(CellsOf(disk, sid)).value;
    var root := LatestGood(disk, sid);
    SameRoot(root, |items|, known);
    CommitsIff(disk, snap);
    assert ArchiveGood(disk, sid);
    assert LatestRoot(disk.rows[..disk.syncedRows], sid) == LatestRoot(disk.rows, sid);
    assert Existing(disk, sid) <= Serialize(items);
    assert Branch(disk, snap).Covered?;
    hide Load, RootFor, Serialize, Inv, Settled;
    ArchiveEffect(codec, disk, disk, snap, items, known);
  }
}
