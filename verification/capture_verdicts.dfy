/** When a capture raises, passes a file over, commits or only looks after the archive, said on the
stores and the source; and what the archive is after a look that commits nothing. */
module CaptureVerdicts {
  import opened Records
  import opened Framing
  import opened Commitments
  import opened Nonces
  import opened Ledger
  import opened Capture
  import opened CapturePlans
  import Archive

  /** The source has items, at least as many as nonces are on file. */
  predicate Readable(items: seq<Bytes>, known: seq<Bytes>) {
    items != [] && |known| <= |items|
  }

  /** An integrity error, before anything is written: the nonce file does not load, or the latest row
      commits fewer items than the source has and those are not its beginning. */
  predicate Rejected(disk: Disk, snap: Snapshot) {
    var items, loaded, root := CompleteLines(snap.data), Load(CellsOf(disk, snap.sessionId)),
        LatestRoot(disk.rows, snap.sessionId);
    || loaded.None?
    || (Readable(items, loaded.value) && root.Some? && |CommittedItems(root.value)| < |items|
        && !(CommittedItems(root.value) <= items))
  }

  /** A new row: the source goes on from what the latest row commits, or no row is there. */
  predicate Extended(disk: Disk, snap: Snapshot) {
    var items, loaded, root := CompleteLines(snap.data), Load(CellsOf(disk, snap.sessionId)),
        LatestRoot(disk.rows, snap.sessionId);
    loaded.Some? && Readable(items, loaded.value) && (root.Some? ==> CommittedItems(root.value) < items)
  }

  /** Nothing to commit: the source is empty or shorter than the nonces on file. */
  predicate PassedOver(disk: Disk, snap: Snapshot) {
    var items, loaded := CompleteLines(snap.data), Load(CellsOf(disk, snap.sessionId));
    loaded.Some? && !Readable(items, loaded.value)
  }

  /** Nothing new: the latest row commits as many items as the source has. */
  predicate Unchanged(disk: Disk, snap: Snapshot) {
    var items, loaded, root := CompleteLines(snap.data), Load(CellsOf(disk, snap.sessionId)),
        LatestRoot(disk.rows, snap.sessionId);
    loaded.Some? && Readable(items, loaded.value) && root.Some? && |CommittedItems(root.value)| == |items|
  }

  /** The latest row of a session with a loadable nonce file: its count is that of its items, all of
      which have their nonces on file. */
  lemma LatestCounts(disk: Disk, sid: string)
    requires Inv(disk) && Latest(disk.rows, sid).Some? && Load(CellsOf(disk, sid)).Some?
    ensures var row, known := Latest(disk.rows, sid).value, Load(CellsOf(disk, sid)).value;
            && row.body.payload.itemCount == |CommittedItems(row.body.payload.root)| <= |known|
            && CommittedItems(row.body.payload.root) != []
            && WellCommitted(row.body.payload.root, row.body.payload.itemCount)
            && CommittedNonces(row.body.payload.root) <= known
  {
    var root := LatestGood(disk, sid);
    hide Inv, Load, Latest, RootFor;
  }

  /** All four verdicts of a capture. */
  lemma VerdictsIff(disk: Disk, snap: Snapshot)
    requires Inv(disk)
    ensures Branch(disk, snap).Raises? <==> Rejected(disk, snap)
    ensures Branch(disk, snap).Skips? <==> PassedOver(disk, snap)
    ensures Branch(disk, snap).Commits? <==> Extended(disk, snap)
    ensures Branch(disk, snap).Covered? <==> Unchanged(disk, snap)
  {
    var sid, items := snap.sessionId, CompleteLines(snap.data);
    if Load(CellsOf(disk, sid)).Some? && Latest(disk.rows, sid).Some? {
      LatestCounts(disk, sid);
      PrefixHoldsIff(Latest(disk.rows, sid).value, Load(CellsOf(disk, sid)).value, items);
    }
    hide Inv, Load, CellsOf, Latest, CompleteLines, PrefixHolds, WellCommitted;
  }

  /** A rejected file is left alone: no operation is planned. */
  lemma RejectedWritesNothing(codec: Codec, disk: Disk, snap: Snapshot, drawn: seq<Bytes>)
    requires Inv(disk) && Rejected(disk, snap) && Drawn(disk, snap, drawn)
    ensures CapturePlan(disk, snap, drawn) == []
    ensures PerformAll(codec, disk, CapturePlan(disk, snap, drawn)) == Outcome(disk, true)
  {
    VerdictsIff(disk, snap);
    hide Inv, Branch, Drawn, Rejected;
  }

  // ---- The archive after a look that commits nothing -------------------------

  /** Whether such a look turns to the archive at all. */
  predicate Archives(disk: Disk, snap: Snapshot) {
    var items, loaded := CompleteLines(snap.data), Load(CellsOf(disk, snap.sessionId));
    && snap.archiving && loaded.Some? && LatestRoot(disk.rows, snap.sessionId).Some?
    && (|items| < |loaded.value| || Unchanged(disk, snap))
  }

  /** Then the archive holds exactly the committed items afterwards if it did before or the source
      still is those items, and is left alone otherwise; nothing else changes. */
  lemma QuietArchive(codec: Codec, disk: Disk, snap: Snapshot)
    requires Inv(disk) && Settled(disk) && Drawn(disk, snap, []) && !Extended(disk, snap)
    ensures var sid, items := snap.sessionId, CompleteLines(snap.data);
            var out := PerformAll(codec, disk, CapturePlan(disk, snap, []));
            if Archives(disk, snap) then
              var root := LatestRoot(disk.rows, sid).value;
              && (items == CommittedItems(root) || ArchiveOf(disk, sid) == Some(Serialize(CommittedItems(root))) ==>
                    ArchiveOf(out.disk, sid) == Some(Serialize(CommittedItems(root))))
              && (items != CommittedItems(root) && ArchiveOf(disk, sid) != Some(Serialize(CommittedItems(root))) ==>
                    out.disk == disk)
              && out.disk == disk.(archives := out.disk.archives)
            else out.disk == disk
  {
    var sid, items := snap.sessionId, CompleteLines(snap.data);
    VerdictsIff(disk, snap);
    NoneDone(codec, disk);
    if Archives(disk, snap) {
      var root, known := LatestRoot(disk.rows, sid).value, Load(CellsOf(disk, sid)).value;
      LatestCounts(disk, sid);
      ArchiveBelow(disk, sid);
      hide Inv, Settled, Load, CellsOf, Latest, CompleteLines, Rejected, Extended, Unchanged, PassedOver, Drawn;
      var count := |CommittedItems(root)|;
      assert CapturePlan(disk, snap, []) == ArchiveOps(disk, snap, items, known, count, root);
      hide CapturePlan, Branch;
      ArchiveLeft(codec, disk, snap, items, known, root);
    } else {
      hide Inv, Settled, Load, CellsOf, Latest, CompleteLines, Rejected, Extended, Drawn, PerformAll;
      assert CapturePlan(disk, snap, []) == [];
    }
  }

  lemma NoneDone(codec: Codec, disk: Disk)
    ensures PerformAll(codec, disk, []) == Outcome(disk, true)
  {
  }

  /** The archive is a prefix of what the latest row commits. */
  lemma ArchiveBelow(disk: Disk, sid: string)
    requires Inv(disk) && Settled(disk) && LatestRoot(disk.rows, sid).Some?
    ensures Existing(disk, sid) <= Serialize(CommittedItems(LatestRoot(disk.rows, sid).value))
  {
    assert ArchiveGood(disk, sid);
    assert LatestRoot(disk.rows[..disk.syncedRows], sid) == LatestRoot(disk.rows, sid);
  }

  lemma ArchiveLeft(codec: Codec, disk: Disk, snap: Snapshot, items: seq<Bytes>, known: seq<Bytes>, root: Digest)
    requires WellCommitted(root, |CommittedItems(root)|) && CommittedNonces(root) <= known && snap.archiving
    requires Existing(disk, snap.sessionId) <= Serialize(CommittedItems(root))
    ensures var sid, whole := snap.sessionId, Some(Serialize(CommittedItems(root)));
            var ops := ArchiveOps(disk, snap, items, known, |CommittedItems(root)|, root);
            var after := PerformAll(codec, disk, ops).disk;
            && (items == CommittedItems(root) || ArchiveOf(disk, sid) == whole ==> ArchiveOf(after, sid) == whole)
            && (items != CommittedItems(root) && ArchiveOf(disk, sid) != whole ==> after == disk)
            && after == disk.(archives := after.archives)
  {
    hide Serialize, RootFor, Archive.Decide;
    var sid, count := snap.sessionId, |CommittedItems(root)|;
    SameRoot(root, count, known);
    Archive.DecisionTheorem(ArchiveOf(disk, sid), items, known, CommittedItems(root));
    var ops := ArchiveOps(disk, snap, items, known, count, root);
    match Archive.Decide(ArchiveOf(disk, sid), items, known, count, root)
    case Fail =>
    case AlreadyComplete =>
      assert ops[1..] == [];
    case Extend(suffix) =>
      assert ops[1..] == [SyncArchive(sid)] && ops[1..][1..] == [];
      var extended := Perform(codec, disk, ExtendArchive(sid, suffix)).disk;
      var synced := Perform(codec, extended, SyncArchive(sid)).disk;
      assert PerformAll(codec, extended, ops[1..]) == Outcome(synced, true);
  }
}
