/** Whole runs of capture: scans of arbitrary snapshots, other ledger writers in between, deaths
inside any operation, repairs and power loss. */
module CaptureRuns {
  import opened Records
  import opened Framing
  import opened Commitments
  import opened Nonces
  import opened Ledger
  import opened LedgerWriters
  import opened Capture
  import opened CaptureSteps
  import opened CapturePlans

  /** `scanning`: the scan lock is held and the ledger has been repaired since; `todo`: what is
      left of the capture under way. */
  datatype World = World(disk: Disk, scanning: bool, todo: seq<Op>)

  datatype Happening =
    | StartScan
    | EndScan
    | Look(snap: Snapshot, drawn: seq<Bytes>)
    | Continue
    | Die(cut: nat, partial: bool)
    | OtherWriter(req: Request, ts: string)
    | OtherWriterDies(req: Request, ts: string, done: nat, partial: bool)
    | PowerFails(keep: Survivors)

  const START: World := World(EMPTY_DISK, false, [])

  /** The rows another writer has written when it stops after `done` of them. */
  function OtherRows(codec: Codec, disk: Disk, req: Request, ts: string, done: nat): seq<Row> {
    if disk.torn || req.SessionRequest? then []
    else
      var plan := Planned(codec, disk.rows, req, ts);
      if !plan.Write? || |Admitted(codec, plan.rows)| < done then []
      else Admitted(codec, plan.rows)[..done]
  }

  function Happens(codec: Codec, w: World, h: Happening): World
    requires w.disk.syncedRows <= |w.disk.rows|
  {
    match h
    case StartScan =>
      if w.todo != [] then w
      else World(w.disk.(torn := false, syncedRows := |w.disk.rows|), true, [])
    case EndScan => if w.todo == [] then w.(scanning := false) else w
    case Look(snap, drawn) =>
      if w.scanning && w.todo == [] && Drawn(w.disk, snap, drawn) then
        w.(todo := CapturePlan(w.disk, snap, drawn))
      else w
    case Continue =>
      if w.todo == [] then w
      else
        var out := Perform(codec, w.disk, w.todo[0]);
        World(out.disk, w.scanning, if out.ok then w.todo[1..] else [])
    case Die(cut, partial) =>
      World(if w.todo == [] then w.disk else CutShort(codec, w.disk, w.todo[0], cut, partial), false, [])
    case OtherWriter(req, ts) =>
      var plan := Planned(codec, w.disk.rows, req, ts);
      if !plan.Write? then w
      else
        var more := OtherRows(codec, w.disk, req, ts, |Admitted(codec, plan.rows)|);
        if more == [] then w
        else w.(disk := w.disk.(rows := w.disk.rows + more, syncedRows := |w.disk.rows + more|))
    case OtherWriterDies(req, ts, done, partial) =>
      var more := OtherRows(codec, w.disk, req, ts, done);
      w.(disk := w.disk.(rows := w.disk.rows + more, torn := w.disk.torn || partial))
    case PowerFails(keep) => World(AfterPowerLoss(w.disk, keep), false, [])
  }

  ghost predicate WorldInv(w: World) {
    && Inv(w.disk)
    && (w.scanning ==> Settled(w.disk))
    && (w.todo != [] ==> w.scanning && Ready(w.disk, w.todo))
  }

  // ---- Steps -----------------------------------------------------------------

  /** Stores that a pending capture cannot tell apart. */
  ghost predicate Alike(a: Disk, b: Disk) {
    && a.nonceFiles == b.nonceFiles && a.archives == b.archives
    && Chain(a.rows) && Chain(b.rows)
    && forall sid :: LatestRoot(a.rows, sid) == LatestRoot(b.rows, sid)
  }

  lemma {:induction false} ReadyAlike(a: Disk, b: Disk, ops: seq<Op>)
    requires Alike(a, b) && Ready(a, ops)
    ensures Ready(b, ops)
    decreases |ops|
  {
    if ops != [] {
      var op := ops[0];
      BackedSame(a, b);
      assert Safe(b, op) by {
        hide Load, WellCommitted, Serialize, Backed, Extends, LatestRoot;
      }
      if op.AppendSession? {
        AppendedIsLatest(a, op);
        AppendedIsLatest(b, op);
      }
      assert Ideal(a, op).ok == Ideal(b, op).ok;
      if Ideal(b, op).ok {
        IdealAlike(a, b, op);
        ReadyAlike(Ideal(a, op).disk, Ideal(b, op).disk, ops[1..]);
      }
    }
  }

  lemma IdealAlike(a: Disk, b: Disk, op: Op)
    requires Alike(a, b) && Ideal(a, op).ok && Ideal(b, op).ok
    requires op.AppendSession? ==> op.sid == op.snap.sessionId
    ensures Alike(Ideal(a, op).disk, Ideal(b, op).disk)
  {
    if op.AppendSession? {
      AppendedIsLatest(a, op);
      AppendedIsLatest(b, op);
      assert Ideal(a, op).disk.nonceFiles == a.nonceFiles;
      assert Ideal(b, op).disk.nonceFiles == b.nonceFiles;
    } else {
      hide Load, LatestRoot;
      assert Ideal(a, op).disk.rows == a.rows;
      assert Ideal(b, op).disk.rows == b.rows;
    }
  }

  /** After an operation that succeeded, the rest of the plan is still ready. */
  lemma ContinueKeeps(codec: Codec, disk: Disk, ops: seq<Op>)
    requires Inv(disk) && Settled(disk) && ops != [] && Ready(disk, ops)
    ensures var out := Perform(codec, disk, ops[0]);
            Inv(out.disk) && Settled(out.disk) && (out.ok ==> Ready(out.disk, ops[1..]))
  {
    var op := ops[0];
    PerformKeeps(codec, disk, op);
    var out := Perform(codec, disk, op);
    assert out.disk.rows[..|out.disk.rows|] == out.disk.rows;
    if op.AppendSession? {
      var plan := SessionRows(disk.rows, op.root, op.count, op.snap);
      if plan.Write? {
        AdmittedAll(codec, plan.rows);
      }
    }
    hide Inv, Ready, Load, Safe;
    assert out.ok ==> out.disk == Ideal(disk, op).disk && Ideal(disk, op).ok;
  }

  lemma VersionedForeign(rows: seq<Row>, ts: string, provenance: Option<Provenance>,
                         frozen: SchemaVersion, payload: Payload)
    requires Chain(rows) && frozen != V3
    requires !payload.Genesis? && !payload.Boundary? && !payload.Session?
    ensures var plan := Versioned(rows, ts, provenance, frozen, payload);
            plan.Write? && forall k :: 0 <= k < |plan.rows| ==> !plan.rows[k].body.payload.Session?
  {
    VersionedKeepsChain(rows, ts, provenance, frozen, payload);
    hide Chain, Versioned;
  }

  lemma OtherPayloads(codec: Codec, rows: seq<Row>, req: Request, ts: string)
    requires Chain(rows) && !req.SessionRequest? && Planned(codec, rows, req, ts).Write?
    ensures forall k :: 0 <= k < |Planned(codec, rows, req, ts).rows| ==>
              !Planned(codec, rows, req, ts).rows[k].body.payload.Session?
  {
    hide Chain, Versioned, EventRecorded;
    match req {
      case BindingRequest(commit, repo, provenance) =>
        VersionedForeign(rows, ts, provenance, V1, Binding(commit, repo, provenance));
      case EventRequest(id, kind, trigger, gen) =>
        VersionedForeign(rows, ts, None, V2, Event(id, kind, trigger, gen));
      case ReceiptRequest(event, receiptTs, receiptId) =>
        AgainstReceiptsNeverWrites(rows, event, receiptTs, receiptId);
    }
  }

  /** What other writers add is never a session row. */
  lemma OtherRowsForeign(codec: Codec, disk: Disk, req: Request, ts: string, done: nat)
    requires Chain(disk.rows)
    ensures var more := OtherRows(codec, disk, req, ts, done);
            && Chain(disk.rows + more)
            && forall k :: 0 <= k < |more| ==> !more[k].body.payload.Session?
  {
    hide Planned, Chain;
    var more := OtherRows(codec, disk, req, ts, done);
    var rows := disk.rows;
    if more == [] {
      assert rows + more == rows;
    } else {
      var planned := Planned(codec, rows, req, ts).rows;
      PlanKeepsChain(codec, rows, req, ts);
      OtherPayloads(codec, rows, req, ts);
      assert more == planned[..|more|];
      ChainPrefix(rows + planned, |rows| + |more|);
      assert (rows + planned)[..|rows| + |more|] == rows + more;
    }
  }

  lemma OtherWriterKeeps(w: World, after: Disk, more: seq<Row>)
    requires WorldInv(w) && Chain(w.disk.rows + more)
    requires forall k :: 0 <= k < |more| ==> !more[k].body.payload.Session?
    requires after.rows == w.disk.rows + more
    requires after.syncedRows == w.disk.syncedRows || after.syncedRows == |after.rows|
    requires after.nonceFiles == w.disk.nonceFiles && after.archives == w.disk.archives
    ensures WorldInv(w.(disk := after))
  {
    ForeignKeeps(w.disk, after, more);
    forall sid
      ensures LatestRoot(after.rows, sid) == LatestRoot(w.disk.rows, sid)
    {
      LatestAppend(w.disk.rows, more, sid);
    }
    if w.scanning {
      assert after.rows[..w.disk.syncedRows] == w.disk.rows[..w.disk.syncedRows];
      assert after.rows[..|after.rows|] == after.rows;
      assert Settled(after);
    }
    if w.todo != [] {
      assert Alike(w.disk, after);
      ReadyAlike(w.disk, after, w.todo);
    }
  }

  lemma StartScanKeeps(w: World)
    requires WorldInv(w) && w.todo == []
    ensures WorldInv(World(w.disk.(torn := false, syncedRows := |w.disk.rows|), true, []))
  {
    var after := w.disk.(torn := false, syncedRows := |w.disk.rows|);
    assert w.disk.rows + [] == w.disk.rows;
    ForeignKeeps(w.disk, after, []);
    assert after.rows[..|after.rows|] == after.rows;
  }

  lemma HappensKeeps(codec: Codec, w: World, h: Happening)
    requires WorldInv(w)
    ensures WorldInv(Happens(codec, w, h))
  {
    assert Chain(w.disk.rows) && w.disk.syncedRows <= |w.disk.rows|;
    match h {
      case StartScan =>
        if w.todo == [] {
          StartScanKeeps(w);
        }
      case EndScan =>
      case Look(snap, drawn) =>
        if w.scanning && w.todo == [] && Drawn(w.disk, snap, drawn) {
          PlanReady(w.disk, snap, drawn);
        }
      case Continue =>
        if w.todo != [] {
          ContinueKeeps(codec, w.disk, w.todo);
        }
      case Die(cut, partial) =>
        if w.todo != [] {
          CutShortKeeps(codec, w.disk, w.todo[0], cut, partial);
        }
      case OtherWriter(req, ts) =>
        var plan := Planned(codec, w.disk.rows, req, ts);
        if plan.Write? {
          var n := |Admitted(codec, plan.rows)|;
          OtherRowsForeign(codec, w.disk, req, ts, n);
          var more := OtherRows(codec, w.disk, req, ts, n);
          hide WorldInv;
          OtherWriterKeeps(w, w.disk.(rows := w.disk.rows + more, syncedRows := |w.disk.rows + more|), more);
        }
      case OtherWriterDies(req, ts, done, partial) =>
        OtherRowsForeign(codec, w.disk, req, ts, done);
        var more := OtherRows(codec, w.disk, req, ts, done);
        hide WorldInv;
        OtherWriterKeeps(w, w.disk.(rows := w.disk.rows + more, torn := w.disk.torn || partial), more);
      case PowerFails(keep) =>
        PowerLossKeeps(w.disk, keep);
    }
  }

  // ---- Runs ------------------------------------------------------------------

  ghost predicate IsRun(codec: Codec, run: seq<World>, happenings: seq<Happening>) {
    && |run| == |happenings| + 1 && run[0] == START
    && forall k :: 0 <= k < |happenings| ==>
         run[k].disk.syncedRows <= |run[k].disk.rows| && run[k + 1] == Happens(codec, run[k], happenings[k])
  }

  lemma {:induction false} RunKeeps(codec: Codec, run: seq<World>, happenings: seq<Happening>, n: nat)
    requires IsRun(codec, run, happenings) && n < |run|
    ensures WorldInv(run[n])
  {
    if n > 0 {
      RunKeeps(codec, run, happenings, n - 1);
      HappensKeeps(codec, run[n - 1], happenings[n - 1]);
    }
  }

  /** Reachable: some run ends in this world. */
  ghost predicate Reachable(codec: Codec, w: World) {
    exists run, happenings :: IsRun(codec, run, happenings) && run[|run| - 1] == w
  }

  lemma ReachableInv(codec: Codec, w: World)
    requires Reachable(codec, w)
    ensures WorldInv(w)
  {
    var run, happenings :| IsRun(codec, run, happenings) && run[|run| - 1] == w;
    RunKeeps(codec, run, happenings, |run| - 1);
  }

  /** In every reachable world the rows of a session commit to strictly growing item sequences:
      what an earlier row committed is a strict prefix of what a later one did. */
  lemma CommittedPrefixesGrow(codec: Codec, w: World, j: nat, k: nat,
                              earlier: seq<Bytes>, salt: seq<Bytes>, later: seq<Bytes>, salt': seq<Bytes>)
    requires Reachable(codec, w)
    requires j < k < |w.disk.rows| && w.disk.rows[k].body.payload.Session?
    requires IsSession(w.disk.rows[j], w.disk.rows[k].body.payload.sessionId)
    requires earlier != [] && |earlier| <= |salt| && w.disk.rows[j].body.payload.root == RootFor(salt, earlier)
    requires later != [] && |later| <= |salt'| && w.disk.rows[k].body.payload.root == RootFor(salt', later)
    ensures earlier < later
    ensures salt[..|earlier|] <= salt'[..|later|]
    ensures w.disk.rows[j].body.payload.itemCount == |earlier| && w.disk.rows[k].body.payload.itemCount == |later|
  {
    ReachableInv(codec, w);
    RootReveals(salt, earlier);
    RootReveals(salt', later);
    assert RowGood(w.disk, w.disk.rows[j]) && RowGood(w.disk, w.disk.rows[k]);
    assert InOrder(w.disk.rows[j], w.disk.rows[k]);
  }

  /** Write-ahead order: in every reachable world, also right after a kill or power loss, the
      nonces of every session row are on durable storage, unchanged and in order. */
  lemma NoncesBeforeRows(codec: Codec, w: World, k: nat, items: seq<Bytes>, salt: seq<Bytes>)
    requires Reachable(codec, w)
    requires k < |w.disk.rows| && w.disk.rows[k].body.payload.Session?
    requires items != [] && |items| <= |salt| && w.disk.rows[k].body.payload.root == RootFor(salt, items)
    ensures var sid := w.disk.rows[k].body.payload.sessionId;
            && sid in w.disk.nonceFiles
            && w.disk.nonceFiles[sid].synced <= |w.disk.nonceFiles[sid].cells|
            && salt[..|items|] <= Carried(w.disk.nonceFiles[sid].cells[..w.disk.nonceFiles[sid].synced])
  {
    ReachableInv(codec, w);
    RootReveals(salt, items);
    assert RowGood(w.disk, w.disk.rows[k]);
  }

  /** In every reachable world an archive copy is a byte prefix of the serialized items of the
      latest durable row of its session. */
  lemma ArchiveIsPrefix(codec: Codec, w: World, sid: string)
    requires Reachable(codec, w) && sid in w.disk.archives
    ensures w.disk.syncedRows <= |w.disk.rows|
    ensures LatestRoot(w.disk.rows[..w.disk.syncedRows], sid).Some?
    ensures w.disk.archives[sid].bytes <=
            Serialize(CommittedItems(LatestRoot(w.disk.rows[..w.disk.syncedRows], sid).value))
    ensures LatestRoot(w.disk.rows, sid).Some?
    ensures w.disk.archives[sid].bytes <= Serialize(CommittedItems(LatestRoot(w.disk.rows, sid).value))
  {
    ReachableInv(codec, w);
    var disk := w.disk;
    assert ArchiveGood(disk, sid);
    assert Ordered(disk.rows);
    LatestOfPrefix(disk.rows, disk.syncedRows, sid);
    SerializedBelow(LatestRoot(disk.rows[..disk.syncedRows], sid).value, LatestRoot(disk.rows, sid).value,
                    disk.archives[sid].bytes);
  }

  /** Nothing is taken away: rows, nonce cells and archived bytes are all still there. */
  ghost predicate Grown(a: Disk, b: Disk) {
    && a.rows <= b.rows
    && (forall sid :: sid in a.archives ==> sid in b.archives && a.archives[sid].bytes <= b.archives[sid].bytes)
    && (forall sid :: sid in a.nonceFiles ==> sid in b.nonceFiles && a.nonceFiles[sid].cells <= b.nonceFiles[sid].cells)
  }

  /** What was durable is still there. */
  ghost predicate DurableKept(a: Disk, b: Disk) {
    && a.syncedRows <= |a.rows| && a.rows[..a.syncedRows] <= b.rows
    && (forall sid :: sid in a.archives ==>
          && sid in b.archives && a.archives[sid].synced <= |a.archives[sid].bytes|
          && a.archives[sid].bytes[..a.archives[sid].synced] <= b.archives[sid].bytes)
    && (forall sid :: sid in a.nonceFiles ==>
          && sid in b.nonceFiles && a.nonceFiles[sid].synced <= |a.nonceFiles[sid].cells|
          && a.nonceFiles[sid].cells[..a.nonceFiles[sid].synced] <= b.nonceFiles[sid].cells)
  }

  lemma PerformGrows(codec: Codec, disk: Disk, op: Op)
    ensures Grown(disk, Perform(codec, disk, op).disk)
  {
    hide Load, Versioned, Latest, RootFor, Serialize, Carried, Admitted;
    if op.AppendSession? {
      assert disk.rows <= Perform(codec, disk, op).disk.rows;
    }
  }

  lemma CutShortGrows(codec: Codec, disk: Disk, op: Op, cut: nat, partial: bool)
    ensures Grown(disk, CutShort(codec, disk, op, cut, partial))
  {
    hide Load, Versioned, Latest, RootFor, Serialize, Carried, Admitted;
    if op.AppendSession? {
      assert disk.rows <= CutShort(codec, disk, op, cut, partial).rows;
    }
  }

  /** A plan whose operations are safe at their turn keeps the invariant as far as it goes. */
  lemma {:induction false} ReadyPerforms(codec: Codec, disk: Disk, ops: seq<Op>)
    requires Inv(disk) && Settled(disk) && Ready(disk, ops)
    ensures var after := PerformAll(codec, disk, ops).disk;
            Inv(after) && Settled(after) && Grown(disk, after)
    decreases |ops|
  {
    if ops != [] {
      ContinueKeeps(codec, disk, ops);
      PerformGrows(codec, disk, ops[0]);
      var one := Perform(codec, disk, ops[0]);
      if one.ok {
        hide Perform, Inv, Settled, Ready, Grown;
        ReadyPerforms(codec, one.disk, ops[1..]);
        GrownTransitive(disk, one.disk, PerformAll(codec, one.disk, ops[1..]).disk);
      }
    }
  }

  lemma GrownTransitive(a: Disk, b: Disk, c: Disk)
    requires Grown(a, b) && Grown(b, c)
    ensures Grown(a, c)
  {
  }

  ghost predicate Sound(a: Disk) {
    && a.syncedRows <= |a.rows|
    && (forall sid :: sid in a.archives ==> a.archives[sid].synced <= |a.archives[sid].bytes|)
    && (forall sid :: sid in a.nonceFiles ==> a.nonceFiles[sid].synced <= |a.nonceFiles[sid].cells|)
  }

  lemma GrownKeepsDurable(a: Disk, b: Disk)
    requires Sound(a) && Grown(a, b)
    ensures DurableKept(a, b)
  {
  }

  lemma PowerLossKeepsDurable(a: Disk, keep: Survivors)
    requires Sound(a)
    ensures DurableKept(a, AfterPowerLoss(a, keep))
  {
  }

  lemma QuietSteps(codec: Codec, w: World, h: Happening)
    requires w.disk.syncedRows <= |w.disk.rows| && !h.PowerFails?
    ensures Grown(w.disk, Happens(codec, w, h).disk)
  {
    hide Perform, CutShort, OtherRows, Planned, CapturePlan, Drawn;
    if w.todo != [] {
      PerformGrows(codec, w.disk, w.todo[0]);
      if h.Die? {
        CutShortGrows(codec, w.disk, w.todo[0], h.cut, h.partial);
      }
    }
  }

  /** Only power loss takes anything away, and it takes only what was not yet durable. */
  lemma StoresOnlyGrow(codec: Codec, w: World, h: Happening)
    requires Reachable(codec, w)
    ensures Sound(w.disk)
    ensures !h.PowerFails? ==> Grown(w.disk, Happens(codec, w, h).disk)
    ensures DurableKept(w.disk, Happens(codec, w, h).disk)
  {
    ReachableInv(codec, w);
    var disk := w.disk;
    forall sid | sid in disk.archives
      ensures disk.archives[sid].synced <= |disk.archives[sid].bytes|
    {
      assert ArchiveGood(disk, sid);
    }
    assert Sound(disk);
    hide WorldInv, Grown, DurableKept;
    if h.PowerFails? {
      PowerLossKeepsDurable(disk, h.keep);
    } else {
      QuietSteps(codec, w, h);
      GrownKeepsDurable(disk, Happens(codec, w, h).disk);
    }
  }
}
