/** Each disk operation, whole or cut short, keeps the invariant of the stores. */
module CaptureSteps {
  import opened Records
  import opened Framing
  import opened Commitments
  import opened Nonces
  import opened Ledger
  import opened LedgerWriters
  import opened Capture

  // ---- Sessions in a growing ledger ------------------------------------------

  lemma {:induction false} LatestIndex(rows: seq<Row>, sid: string) returns (j: nat)
    requires Latest(rows, sid).Some?
    ensures j < |rows| && Latest(rows, sid) == Some(rows[j])
    ensures forall k :: j < k < |rows| ==> !IsSession(rows[k], sid)
  {
    j := |rows| - 1;
    if !IsSession(rows[j], sid) {
      var init := rows[..j];
      j := LatestIndex(init, sid);
      assert forall k :: j < k < |init| ==> rows[k] == init[k];
    }
  }

  lemma {:induction false} LatestNone(rows: seq<Row>, sid: string, k: nat)
    requires Latest(rows, sid).None? && k < |rows|
    ensures !IsSession(rows[k], sid)
  {
    if k < |rows| - 1 {
      LatestNone(rows[..|rows| - 1], sid, k);
    }
  }

  lemma {:induction false} LatestAppend(rows: seq<Row>, more: seq<Row>, sid: string)
    requires forall k :: 0 <= k < |more| ==> !IsSession(more[k], sid)
    ensures Latest(rows + more, sid) == Latest(rows, sid)
  {
    if more == [] {
      assert rows + more == rows;
    } else {
      var init := more[..|more| - 1];
      assert (rows + more)[..|rows + more| - 1] == rows + init;
      LatestAppend(rows, init, sid);
    }
  }

  lemma LatestLast(rows: seq<Row>, row: Row, sid: string)
    ensures Latest(rows + [row], sid) == if IsSession(row, sid) then Some(row) else Latest(rows, sid)
  {
    assert (rows + [row])[..|rows|] == rows;
  }

  lemma ExtendsTransitive(a: Digest, b: Digest, c: Digest)
    requires Extends(a, b) && Extends(b, c)
    ensures Extends(a, c)
  {
  }

  ghost predicate Ordered(rows: seq<Row>) {
    forall j, k :: 0 <= j < k < |rows| ==> InOrder(rows[j], rows[k])
  }

  /** Every earlier row of a session is below whatever extends its latest one. */
  lemma BelowLatest(rows: seq<Row>, sid: string, root: Digest, k: nat)
    requires Ordered(rows) && k < |rows| && IsSession(rows[k], sid)
    requires LatestRoot(rows, sid).Some? ==> Extends(LatestRoot(rows, sid).value, root)
    ensures Extends(rows[k].body.payload.root, root)
  {
    if Latest(rows, sid).None? {
      LatestNone(rows, sid, k);
      assert false;
    } else {
      var j := LatestIndex(rows, sid);
      if k < j {
        assert InOrder(rows[k], rows[j]);
        ExtendsTransitive(rows[k].body.payload.root, rows[j].body.payload.root, root);
      }
    }
  }

  /** The latest row of a prefix is the latest row, or below it. */
  lemma LatestOfPrefix(rows: seq<Row>, n: nat, sid: string)
    requires Ordered(rows) && n <= |rows| && LatestRoot(rows[..n], sid).Some?
    ensures var a, b := LatestRoot(rows[..n], sid), LatestRoot(rows, sid);
            b.Some? && (a == b || Extends(a.value, b.value))
  {
    var j := LatestIndex(rows[..n], sid);
    assert IsSession(rows[j], sid);
    if Latest(rows, sid).None? {
      LatestNone(rows, sid, j);
    } else {
      var k := LatestIndex(rows, sid);
      if j < k {
        assert InOrder(rows[j], rows[k]);
      }
    }
  }

  lemma SerializedBelow(a: Digest, b: Digest, bytes: Bytes)
    requires a == b || Extends(a, b)
    requires bytes <= Serialize(CommittedItems(a))
    ensures bytes <= Serialize(CommittedItems(b))
  {
    SerializePrefix(CommittedItems(a), CommittedItems(b));
  }

  /** An archive stays a prefix when the durable part of the ledger grows. */
  lemma ArchiveStays(before: Disk, after: Disk, sid: string)
    requires before.syncedRows <= |before.rows| && after.syncedRows <= |after.rows|
    requires Ordered(after.rows)
    requires before.rows[..before.syncedRows] <= after.rows[..after.syncedRows]
    requires before.archives == after.archives && ArchiveGood(before, sid)
    ensures ArchiveGood(after, sid)
  {
    if sid in after.archives {
      var a, b := before.rows[..before.syncedRows], after.rows[..after.syncedRows];
      assert b[..|a|] == a;
      assert Ordered(b);
      LatestOfPrefix(b, |a|, sid);
      SerializedBelow(LatestRoot(a, sid).value, LatestRoot(b, sid).value, after.archives[sid].bytes);
    }
  }

  // ---- Nonce files only grow -------------------------------------------------

  /** Only nonce files changed, and their durable cells only grew. */
  ghost predicate NonceGrowth(before: Disk, after: Disk) {
    && after == before.(nonceFiles := after.nonceFiles)
    && (forall sid :: sid in after.nonceFiles ==> after.nonceFiles[sid].synced <= |after.nonceFiles[sid].cells|)
    && (forall sid :: sid in before.nonceFiles ==>
          && sid in after.nonceFiles
          && before.nonceFiles[sid].synced <= |before.nonceFiles[sid].cells|
          && before.nonceFiles[sid].cells[..before.nonceFiles[sid].synced] <=
             after.nonceFiles[sid].cells[..after.nonceFiles[sid].synced])
  }

  lemma BackedGrows(before: Disk, after: Disk, sid: string, root: Digest)
    requires NonceGrowth(before, after) && Backed(before, sid, root)
    ensures Backed(after, sid, root)
  {
    var a := before.nonceFiles[sid].cells[..before.nonceFiles[sid].synced];
    var b := after.nonceFiles[sid].cells[..after.nonceFiles[sid].synced];
    assert b == a + b[|a|..];
    CarriedMonotone(a, b[|a|..]);
  }

  lemma GrowthKeeps(before: Disk, after: Disk)
    requires Inv(before) && NonceGrowth(before, after)
    ensures Inv(after)
  {
    hide WellCommitted, Backed, Chain;
    forall k | 0 <= k < |after.rows|
      ensures RowGood(after, after.rows[k])
    {
      var row := after.rows[k];
      assert RowGood(before, before.rows[k]);
      if row.body.payload.Session? {
        BackedGrows(before, after, row.body.payload.sessionId, row.body.payload.root);
      }
    }
    forall sid
      ensures ArchiveGood(after, sid)
    {
      assert ArchiveGood(before, sid);
    }
  }

  // ---- Rows appended ---------------------------------------------------------

  /** What a planned session append adds: rows that keep the chain, of which the last alone is a
      session row, and that one is the session's own. */
  lemma SessionRowsShape(disk: Disk, op: Op)
    requires op.AppendSession? && Chain(disk.rows)
    ensures var plan := SessionRows(disk.rows, op.root, op.count, op.snap);
            && plan.Write? && Chain(disk.rows + plan.rows)
            && plan.rows != [] && plan.rows[|plan.rows| - 1].body.payload.Session?
            && forall k :: 0 <= k < |plan.rows| && plan.rows[k].body.payload.Session? ==>
                 && k == |plan.rows| - 1
                 && plan.rows[k].body.payload ==
                    Session(op.snap.sessionId, op.root, op.count, op.snap.source, op.snap.provenance)
  {
    var payload := Session(op.snap.sessionId, op.root, op.count, op.snap.source, op.snap.provenance);
    VersionedKeepsChain(disk.rows, op.snap.ts, op.snap.provenance, V2, payload);
    hide Versioned, Chain;
  }

  /** A session append, done as far as its first `done` rows, with any part of them durable. */
  lemma AppendKeeps(before: Disk, after: Disk, op: Op, done: nat)
    requires Inv(before) && op.AppendSession? && Safe(before, op)
    requires var plan := SessionRows(before.rows, op.root, op.count, op.snap);
             plan.Write? && done <= |plan.rows| && after.rows == before.rows + plan.rows[..done]
    requires before.syncedRows <= after.syncedRows <= |after.rows|
    requires after.nonceFiles == before.nonceFiles && after.archives == before.archives
    ensures Inv(after)
  {
    SessionRowsShape(before, op);
    hide WellCommitted, Backed, Chain, Extends, Serialize, SessionRows, RowGood, InOrder, ArchiveGood, Safe;
    var planned := SessionRows(before.rows, op.root, op.count, op.snap).rows;
    PartChain(before.rows, planned, done);
    forall k | 0 <= k < |after.rows|
      ensures RowGood(after, after.rows[k])
    {
      AppendGood(before, after, op, planned, done, k);
    }
    forall j, k | 0 <= j < k < |after.rows|
      ensures InOrder(after.rows[j], after.rows[k])
    {
      AppendOrdered(before, after, op, planned, done, j, k);
    }
    assert Ordered(after.rows);
    ArchivesStay(before, after);
  }

  lemma PartChain(rows: seq<Row>, more: seq<Row>, done: nat)
    requires Chain(rows + more) && done <= |more|
    ensures Chain(rows + more[..done])
  {
    hide Chain;
    ChainPrefix(rows + more, |rows| + done);
    assert (rows + more)[..|rows| + done] == rows + more[..done];
  }

  lemma ArchivesStay(before: Disk, after: Disk)
    requires Inv(before) && before.archives == after.archives && before.rows <= after.rows
    requires Ordered(after.rows) && before.syncedRows <= after.syncedRows <= |after.rows|
    ensures forall sid :: ArchiveGood(after, sid)
  {
    hide Chain, RowGood, InOrder, ArchiveGood, Ordered;
    forall sid
      ensures ArchiveGood(after, sid)
    {
      assert before.rows[..before.syncedRows] <= after.rows[..after.syncedRows];
      ArchiveStays(before, after, sid);
    }
  }

  lemma AppendGood(before: Disk, after: Disk, op: Op, planned: seq<Row>, done: nat, k: nat)
    requires Inv(before) && op.AppendSession? && Safe(before, op)
    requires done <= |planned| && after.rows == before.rows + planned[..done] && k < |after.rows|
    requires after.nonceFiles == before.nonceFiles
    requires forall i :: 0 <= i < |planned| && planned[i].body.payload.Session? ==>
               planned[i].body.payload ==
               Session(op.snap.sessionId, op.root, op.count, op.snap.source, op.snap.provenance)
    ensures RowGood(after, after.rows[k])
  {
    hide WellCommitted, Backed, Chain, Extends, ArchiveGood, InOrder;
    if k < |before.rows| {
      assert RowGood(before, before.rows[k]);
    } else {
      assert after.rows[k] == planned[k - |before.rows|];
    }
    BackedSame(before, after);
  }

  lemma AppendOrdered(before: Disk, after: Disk, op: Op, planned: seq<Row>, done: nat, j: nat, k: nat)
    requires Inv(before) && op.AppendSession? && Safe(before, op)
    requires done <= |planned| && after.rows == before.rows + planned[..done] && j < k < |after.rows|
    requires forall i :: 0 <= i < |planned| && planned[i].body.payload.Session? ==>
               && i == |planned| - 1
               && planned[i].body.payload ==
                  Session(op.snap.sessionId, op.root, op.count, op.snap.source, op.snap.provenance)
    ensures InOrder(after.rows[j], after.rows[k])
  {
    hide WellCommitted, Backed, Chain, Extends;
    if k < |before.rows| {
      assert InOrder(before.rows[j], before.rows[k]);
    } else {
      var row := after.rows[k];
      assert row == planned[k - |before.rows|];
      assert j >= |before.rows| ==> after.rows[j] == planned[j - |before.rows|];
      if row.body.payload.Session? && IsSession(after.rows[j], op.sid) {
        assert j < |before.rows|;
        BelowLatest(before.rows, op.sid, op.root, j);
      }
    }
  }

  lemma BackedSame(before: Disk, after: Disk)
    requires after.nonceFiles == before.nonceFiles
    ensures forall sid, root :: Backed(before, sid, root) <==> Backed(after, sid, root)
  {
  }

  /** Rows of other kinds, appended by other writers or cut short by their death. */
  lemma ForeignKeeps(before: Disk, after: Disk, more: seq<Row>)
    requires Inv(before) && Chain(before.rows + more)
    requires forall k :: 0 <= k < |more| ==> !more[k].body.payload.Session?
    requires after.rows == before.rows + more
    requires before.syncedRows <= after.syncedRows <= |after.rows|
    requires after.nonceFiles == before.nonceFiles && after.archives == before.archives
    ensures Inv(after)
  {
    hide WellCommitted, Backed, Chain, Extends, Serialize;
    forall k | 0 <= k < |after.rows|
      ensures RowGood(after, after.rows[k])
    {
      if k < |before.rows| {
        assert RowGood(before, before.rows[k]);
      } else {
        assert after.rows[k] == more[k - |before.rows|];
      }
      BackedSame(before, after);
    }
    forall j, k | 0 <= j < k < |after.rows|
      ensures InOrder(after.rows[j], after.rows[k])
    {
      if k < |before.rows| {
        assert InOrder(before.rows[j], before.rows[k]);
      } else {
        assert after.rows[k] == more[k - |before.rows|];
      }
    }
    assert Ordered(after.rows);
    forall sid
      ensures ArchiveGood(after, sid)
    {
      assert ArchiveGood(before, sid);
      assert before.rows[..before.syncedRows] <= after.rows[..after.syncedRows];
      ArchiveStays(before, after, sid);
    }
  }

  // ---- Archives --------------------------------------------------------------

  /** Only one archive copy changed, to bytes below the latest root. */
  lemma ArchiveKeeps(before: Disk, after: Disk, sid: string)
    requires Inv(before) && Settled(before)
    requires after == before.(archives := after.archives)
    requires sid in after.archives && after.archives == before.archives[sid := after.archives[sid]]
    requires after.archives[sid].synced <= |after.archives[sid].bytes|
    requires LatestRoot(before.rows, sid).Some?
    requires after.archives[sid].bytes <= Serialize(CommittedItems(LatestRoot(before.rows, sid).value))
    ensures Inv(after)
  {
    hide WellCommitted, Backed, Chain, Extends, Serialize;
    forall k | 0 <= k < |after.rows|
      ensures RowGood(after, after.rows[k])
    {
      assert RowGood(before, before.rows[k]);
      BackedSame(before, after);
    }
    forall other
      ensures ArchiveGood(after, other)
    {
      assert ArchiveGood(before, other);
    }
  }

  lemma PrefixOfPrefix(a: Bytes, b: Bytes, c: Bytes, n: nat)
    requires a + b <= c && n <= |b|
    ensures a + b[..n] <= c && a <= c
  {
    assert a + b[..n] == (a + b)[..|a| + n];
    assert (a + b)[..|a|] == a;
  }

  // ---- One operation, whole or cut short -------------------------------------

  lemma FileGrowth(disk: Disk, after: Disk, sid: string, more: seq<Cell>, synced: nat)
    requires Inv(disk)
    requires after == disk.(nonceFiles := disk.nonceFiles[sid := NonceFile(CellsOf(disk, sid) + more, synced)])
    requires (if sid in disk.nonceFiles then disk.nonceFiles[sid].synced else 0) <= synced
    requires synced <= |CellsOf(disk, sid) + more|
    ensures Inv(after)
  {
    var cells := CellsOf(disk, sid);
    assert sid in disk.nonceFiles ==>
        cells[..disk.nonceFiles[sid].synced] <= (cells + more)[..synced];
    assert NonceGrowth(disk, after);
    hide Inv;
    GrowthKeeps(disk, after);
  }

  lemma AppendedArchive(disk: Disk, after: Disk, op: Op, cut: nat)
    requires Inv(disk) && Settled(disk) && op.ExtendArchive? && Safe(disk, op) && cut <= |op.suffix|
    requires var copy := if op.sid in disk.archives then disk.archives[op.sid] else ArchiveCopy([], 0);
             after == disk.(archives := disk.archives[op.sid := copy.(bytes := copy.bytes + op.suffix[..cut])])
    ensures Inv(after)
  {
    hide Serialize;
    assert ArchiveGood(disk, op.sid);
    PrefixOfPrefix(Existing(disk, op.sid), op.suffix,
                   Serialize(CommittedItems(LatestRoot(disk.rows, op.sid).value)), cut);
    hide Inv, Settled;
    ArchiveKeeps(disk, after, op.sid);
  }

  lemma SyncedArchive(disk: Disk, after: Disk, sid: string)
    requires Inv(disk) && Settled(disk) && sid in disk.archives
    requires var bytes := disk.archives[sid].bytes;
             after == disk.(archives := disk.archives[sid := ArchiveCopy(bytes, |bytes|)])
    ensures Inv(after)
  {
    hide Serialize;
    assert ArchiveGood(disk, sid);
    assert LatestRoot(disk.rows[..disk.syncedRows], sid) == LatestRoot(disk.rows, sid);
    hide Inv, Settled;
    ArchiveKeeps(disk, after, sid);
  }

  lemma PerformAppendKeeps(codec: Codec, disk: Disk, op: Op)
    requires Inv(disk) && Safe(disk, op) && op.AppendSession?
    ensures Inv(Perform(codec, disk, op).disk)
  {
    assert disk.syncedRows <= |disk.rows|;
    hide Inv, Safe, SessionRows, Admitted;
    var plan := SessionRows(disk.rows, op.root, op.count, op.snap);
    if plan.Write? && !disk.torn && Admitted(codec, plan.rows) != [] {
      var done := Admitted(codec, plan.rows);
      assert plan.rows[..|done|] == done;
      var after := Perform(codec, disk, op).disk;
      hide Perform;
      AppendKeeps(disk, after, op, |done|);
    }
  }

  lemma PerformKeeps(codec: Codec, disk: Disk, op: Op)
    requires Inv(disk) && Settled(disk) && Safe(disk, op)
    ensures Inv(Perform(codec, disk, op).disk)
  {
    var files := disk.nonceFiles;
    assert forall sid :: sid in files ==> files[sid].synced <= |files[sid].cells|;
    hide Inv, Settled, Safe, Load, SessionRows;
    var after := Perform(codec, disk, op).disk;
    match op {
      case WriteNonce(sid, nonce) =>
        if after != disk {
          var row := RowCells(|Load(CellsOf(disk, sid)).value|, nonce);
          FileGrowth(disk, after, sid, row, |CellsOf(disk, sid) + row|);
        }
      case SyncNonces(sid) =>
        if sid in files {
          assert files[sid].cells + [] == files[sid].cells;
          FileGrowth(disk, after, sid, [], |files[sid].cells|);
        }
      case AppendSession(sid, root, count, snap) =>
        PerformAppendKeeps(codec, disk, op);
      case ExtendArchive(sid, suffix) =>
        assert suffix[..|suffix|] == suffix;
        AppendedArchive(disk, after, op, |suffix|);
      case SyncArchive(sid) =>
        if sid in disk.archives {
          SyncedArchive(disk, after, sid);
        }
    }
  }

  /** What is on disk when the process dies inside an operation: any part of what it writes,
      with nothing of that part made durable. */
  function CutShort(codec: Codec, disk: Disk, op: Op, cut: nat, partial: bool): Disk {
    match op
    case WriteNonce(sid, nonce) =>
      var cells := CellsOf(disk, sid);
      var loaded := Load(cells);
      if loaded.None? || |nonce| != NONCE_LEN then disk
      else
        var synced := if sid in disk.nonceFiles then disk.nonceFiles[sid].synced else 0;
        var cells' := cells + RowPart(|loaded.value|, nonce, cut);
        disk.(nonceFiles := disk.nonceFiles[sid := NonceFile(cells', synced)])
    case AppendSession(sid, root, count, snap) =>
      var plan := SessionRows(disk.rows, root, count, snap);
      if disk.torn || !plan.Write? || |Admitted(codec, plan.rows)| < cut then disk
      else disk.(rows := disk.rows + Admitted(codec, plan.rows)[..cut],
                 torn := partial && cut < |Admitted(codec, plan.rows)|)
    case ExtendArchive(sid, suffix) =>
      if |suffix| < cut then disk
      else
        var copy := if sid in disk.archives then disk.archives[sid] else ArchiveCopy([], 0);
        disk.(archives := disk.archives[sid := copy.(bytes := copy.bytes + suffix[..cut])])
    case _ => disk
  }

  lemma CutShortKeeps(codec: Codec, disk: Disk, op: Op, cut: nat, partial: bool)
    requires Inv(disk) && Settled(disk) && Safe(disk, op)
    ensures Inv(CutShort(codec, disk, op, cut, partial))
  {
    var files := disk.nonceFiles;
    assert forall sid :: sid in files ==> files[sid].synced <= |files[sid].cells|;
    assert disk.syncedRows <= |disk.rows|;
    hide Inv, Settled, Safe, Load, Versioned;
    var after := CutShort(codec, disk, op, cut, partial);
    match op {
      case WriteNonce(sid, nonce) =>
        if after != disk {
          var part := RowPart(|Load(CellsOf(disk, sid)).value|, nonce, cut);
          FileGrowth(disk, after, sid, part, if sid in files then files[sid].synced else 0);
        }
      case AppendSession(sid, root, count, snap) =>
        var plan := SessionRows(disk.rows, root, count, snap);
        if plan.Write? && !disk.torn {
          var done := Admitted(codec, plan.rows);
          if cut <= |done| {
            assert plan.rows[..cut] == done[..cut];
            AppendKeeps(disk, after, op, cut);
          }
        }
      case ExtendArchive(sid, suffix) =>
        if cut <= |suffix| {
          AppendedArchive(disk, after, op, cut);
        }
      case _ =>
    }
  }

  // ---- Power loss ------------------------------------------------------------

  /** Which part of each file survives; never less than what was made durable. */
  datatype Survivors = Survivors(rows: nat, torn: bool, cells: string -> nat, fragment: string -> bool,
                                 bytes: string -> nat)

  function Clamp(low: nat, n: nat, high: nat): (r: nat)
    requires low <= high
    ensures low <= r <= high
  {
    if n < low then low else if high < n then high else n
  }

  function SurvivingCells(file: NonceFile, keep: nat, fragment: bool): NonceFile {
    if |file.cells| < file.synced then file
    else
      var n := Clamp(file.synced, keep, |file.cells|);
      NonceFile(file.cells[..n] + (if fragment && n < |file.cells| then [Fragment] else []), file.synced)
  }

  function SurvivingBytes(copy: ArchiveCopy, keep: nat): ArchiveCopy {
    if |copy.bytes| < copy.synced then copy
    else copy.(bytes := copy.bytes[..Clamp(copy.synced, keep, |copy.bytes|)])
  }

  function AfterPowerLoss(disk: Disk, keep: Survivors): Disk
    requires disk.syncedRows <= |disk.rows|
  {
    Disk(disk.rows[..Clamp(disk.syncedRows, keep.rows, |disk.rows|)], disk.syncedRows, keep.torn,
         map sid | sid in disk.nonceFiles ::
           SurvivingCells(disk.nonceFiles[sid], keep.cells(sid), keep.fragment(sid)),
         map sid | sid in disk.archives :: SurvivingBytes(disk.archives[sid], keep.bytes(sid)))
  }

  lemma PowerLossKeeps(disk: Disk, keep: Survivors)
    requires Inv(disk)
    ensures Inv(AfterPowerLoss(disk, keep))
  {
    hide WellCommitted, Chain, Extends, Serialize;
    var after := AfterPowerLoss(disk, keep);
    var n := |after.rows|;
    ChainPrefix(disk.rows, n);
    forall sid, root | Backed(disk, sid, root)
      ensures Backed(after, sid, root)
    {
      var a, b := disk.nonceFiles[sid], after.nonceFiles[sid];
      assert b.cells[..b.synced] == a.cells[..a.synced];
    }
    forall k | 0 <= k < n
      ensures RowGood(after, after.rows[k])
    {
      assert RowGood(disk, disk.rows[k]);
    }
    forall j, k | 0 <= j < k < n
      ensures InOrder(after.rows[j], after.rows[k])
    {
      assert InOrder(disk.rows[j], disk.rows[k]);
    }
    assert after.rows[..after.syncedRows] == disk.rows[..disk.syncedRows];
    forall sid
      ensures ArchiveGood(after, sid)
    {
      assert ArchiveGood(disk, sid);
    }
  }
}
