/** Capture: from a transcript snapshot to nonces, a ledger row and an archive copy.

`CapturePlan` is the list of disk operations one call of `_capture_file` performs.  `Perform` is
one operation done to the end.  The ledger is seen here as its rows and whether a torn tail
follows them, which is all that any run of the ledger leaves.
*/
module Capture {
  import opened Records
  import opened Framing
  import opened Commitments
  import opened Nonces
  import opened Ledger
  import opened LedgerWriters
  import Archive

  datatype ArchiveCopy = ArchiveCopy(bytes: Bytes, synced: nat)

  datatype Disk = Disk(
    rows: seq<Row>, syncedRows: nat, torn: bool,
    nonceFiles: map<string, NonceFile>,
    archives: map<string, ArchiveCopy>)

  const EMPTY_DISK: Disk := Disk([], 0, false, map[], map[])

  /** One look at one transcript file. */
  datatype Snapshot = Snapshot(
    sessionId: string, data: Bytes, source: string,
    provenance: Option<Provenance>, ts: string, archiving: bool)

  datatype Op =
    | WriteNonce(sid: string, nonce: Bytes)
    | SyncNonces(sid: string)
    | AppendSession(sid: string, root: Digest, count: nat, snap: Snapshot)
    | ExtendArchive(sid: string, suffix: Bytes)
    | SyncArchive(sid: string)

  // ---- Reading the stores ----------------------------------------------------

  function CellsOf(disk: Disk, sid: string): seq<Cell> {
    if sid in disk.nonceFiles then disk.nonceFiles[sid].cells else []
  }

  function ArchiveOf(disk: Disk, sid: string): Option<Bytes> {
    if sid in disk.archives then Some(disk.archives[sid].bytes) else None
  }

  predicate IsSession(row: Row, sid: string) {
    row.body.payload.Session? && row.body.payload.sessionId == sid
  }

  /** The last row of a session. */
  function Latest(rows: seq<Row>, sid: string): (r: Option<Row>)
    ensures r.Some? ==> IsSession(r.value, sid) && r.value in rows
  {
    if rows == [] then None
    else
      var last := rows[|rows| - 1];
      if IsSession(last, sid) then Some(last) else Latest(rows[..|rows| - 1], sid)
  }

  /** The root of the last row of a session. */
  function LatestRoot(rows: seq<Row>, sid: string): Option<Digest> {
    var row := Latest(rows, sid);
    if row.Some? then Some(row.value.body.payload.root) else None
  }

  // ---- The plan of one capture -----------------------------------------------

  /** The live source still begins with what the row committed. */
  predicate PrefixHolds(row: Row, known: seq<Bytes>, items: seq<Bytes>)
    requires row.body.payload.Session?
  {
    var count := row.body.payload.itemCount;
    && 0 < count <= |known| && count <= |items|
    && RootFor(known[..count], items[..count]) == row.body.payload.root
  }

  function ArchiveOps(disk: Disk, snap: Snapshot, items: seq<Bytes>, nonces: seq<Bytes>, count: nat,
                      root: Digest): seq<Op> {
    if !snap.archiving then []
    else
      match Archive.Decide(ArchiveOf(disk, snap.sessionId), items, nonces, count, root)
      case Fail => []
      case AlreadyComplete => [SyncArchive(snap.sessionId)]
      case Extend(suffix) => [ExtendArchive(snap.sessionId, suffix), SyncArchive(snap.sessionId)]
  }

  function WriteOps(sid: string, drawn: seq<Bytes>): seq<Op> {
    if drawn == [] then [] else [WriteNonce(sid, drawn[0])] + WriteOps(sid, drawn[1..])
  }

  datatype Verdict = Raises | Skips | Commits | Covered

  /** Which branch `_capture_file` takes. */
  function Branch(disk: Disk, snap: Snapshot): Verdict {
    var items := CompleteLines(snap.data);
    var loaded := Load(CellsOf(disk, snap.sessionId));
    var row := Latest(disk.rows, snap.sessionId);
    if loaded.None? then Raises
    else
      var known := loaded.value;
      if row.Some? && |known| < row.value.body.payload.itemCount then Raises
      else if |items| < |known| || items == [] then Skips
      else if row.None? || row.value.body.payload.itemCount < |items| || |known| < |items| then
        if row.Some? && row.value.body.payload.itemCount < |items| && !PrefixHolds(row.value, known, items)
        then Raises else Commits
      else Covered
  }

  /** How many nonces the call draws. */
  function Missing(disk: Disk, snap: Snapshot): nat {
    var items, loaded := CompleteLines(snap.data), Load(CellsOf(disk, snap.sessionId));
    if Branch(disk, snap).Commits? && |items| > |loaded.value| then |items| - |loaded.value| else 0
  }

  predicate Drawn(disk: Disk, snap: Snapshot, drawn: seq<Bytes>) {
    && |drawn| == Missing(disk, snap)
    && forall k :: 0 <= k < |drawn| ==> |drawn[k]| == NONCE_LEN
  }

  /** The disk operations of one `_capture_file` call that drew the nonces `drawn`. */
  function CapturePlan(disk: Disk, snap: Snapshot, drawn: seq<Bytes>): seq<Op>
    requires Drawn(disk, snap, drawn)
  {
    var items := CompleteLines(snap.data);
    var row := Latest(disk.rows, snap.sessionId);
    match Branch(disk, snap)
    case Raises => []
    case Skips =>
      var known := Load(CellsOf(disk, snap.sessionId)).value;
      if |items| < |known| && row.Some? then
        ArchiveOps(disk, snap, items, known, row.value.body.payload.itemCount, row.value.body.payload.root)
      else []
    case Commits =>
      var all := Load(CellsOf(disk, snap.sessionId)).value + drawn;
      CommitOps(disk, snap, items, all, drawn)
    case Covered =>
      var known := Load(CellsOf(disk, snap.sessionId)).value;
      ArchiveOps(disk, snap, items, known, row.value.body.payload.itemCount, row.value.body.payload.root)
  }

  function CommitOps(disk: Disk, snap: Snapshot, items: seq<Bytes>, all: seq<Bytes>, drawn: seq<Bytes>): seq<Op>
    requires items != [] && |items| <= |all|
  {
    var sid, root := snap.sessionId, RootFor(all, items);
    WriteOps(sid, drawn) + [SyncNonces(sid), AppendSession(sid, root, |items|, snap)]
    + ArchiveOps(disk, snap, items, all, |items|, root)
  }

  // ---- Performing operations -------------------------------------------------

  datatype Outcome = Outcome(disk: Disk, ok: bool)

  function SessionRows(rows: seq<Row>, root: Digest, count: nat, snap: Snapshot): Plan {
    Versioned(rows, snap.ts, snap.provenance, V2,
              Session(snap.sessionId, root, count, snap.source, snap.provenance))
  }

  /** The operation on a ledger without a torn tail whose schema refuses nothing. */
  function Ideal(disk: Disk, op: Op): Outcome {
    match op
    case WriteNonce(sid, nonce) =>
      var cells := CellsOf(disk, sid);
      var loaded := Load(cells);
      if loaded.None? || |nonce| != NONCE_LEN then Outcome(disk, false)
      else
        var cells' := cells + RowCells(|loaded.value|, nonce);
        Outcome(disk.(nonceFiles := disk.nonceFiles[sid := NonceFile(cells', |cells'|)]), true)
    case SyncNonces(sid) =>
      if sid !in disk.nonceFiles then Outcome(disk, false)
      else
        var cells := disk.nonceFiles[sid].cells;
        Outcome(disk.(nonceFiles := disk.nonceFiles[sid := NonceFile(cells, |cells|)]), true)
    case AppendSession(sid, root, count, snap) =>
      var plan := SessionRows(disk.rows, root, count, snap);
      if !plan.Write? then Outcome(disk, false)
      else Outcome(disk.(rows := disk.rows + plan.rows, syncedRows := |disk.rows + plan.rows|), true)
    case ExtendArchive(sid, suffix) =>
      var copy := if sid in disk.archives then disk.archives[sid] else ArchiveCopy([], 0);
      Outcome(disk.(archives := disk.archives[sid := copy.(bytes := copy.bytes + suffix)]), true)
    case SyncArchive(sid) =>
      if sid !in disk.archives then Outcome(disk, false)
      else
        var bytes := disk.archives[sid].bytes;
        Outcome(disk.(archives := disk.archives[sid := ArchiveCopy(bytes, |bytes|)]), true)
  }

  /** The operation done to the end, or the exception it raises: a torn ledger tail refuses a new
      row, and rows stop where the schema refuses one; each row written is made durable. */
  function Perform(codec: Codec, disk: Disk, op: Op): Outcome {
    match op
    case AppendSession(sid, root, count, snap) =>
      var plan := SessionRows(disk.rows, root, count, snap);
      if disk.torn || !plan.Write? || Admitted(codec, plan.rows) == [] then Outcome(disk, false)
      else
        var rows' := disk.rows + Admitted(codec, plan.rows);
        Outcome(disk.(rows := rows', syncedRows := |rows'|), Accepted(codec, plan.rows))
    case _ => Ideal(disk, op)
  }

  /** Operations in order, up to the first that raises. */
  function PerformAll(codec: Codec, disk: Disk, ops: seq<Op>): Outcome
    decreases |ops|
  {
    if ops == [] then Outcome(disk, true)
    else
      var first := Perform(codec, disk, ops[0]);
      if first.ok then PerformAll(codec, first.disk, ops[1..]) else first
  }

  // ---- What the stores keep --------------------------------------------------

  /** The row's root really is the root of the items and nonces it reveals. */
  ghost predicate WellCommitted(root: Digest, count: nat) {
    var items, nonces := CommittedItems(root), CommittedNonces(root);
    && items != [] && AllUnbroken(items)
    && count == |items| == |nonces|
    && root == RootFor(nonces, items)
  }

  /** The nonces below a root are on durable storage. */
  ghost predicate Backed(disk: Disk, sid: string, root: Digest) {
    && sid in disk.nonceFiles
    && disk.nonceFiles[sid].synced <= |disk.nonceFiles[sid].cells|
    && CommittedNonces(root) <= Carried(disk.nonceFiles[sid].cells[..disk.nonceFiles[sid].synced])
  }

  /** A strict extension of what was committed before, under the same nonces. */
  ghost predicate Extends(earlier: Digest, later: Digest) {
    && CommittedItems(earlier) < CommittedItems(later)
    && CommittedNonces(earlier) <= CommittedNonces(later)
  }

  ghost predicate RowGood(disk: Disk, row: Row) {
    row.body.payload.Session? ==>
      && WellCommitted(row.body.payload.root, row.body.payload.itemCount)
      && Backed(disk, row.body.payload.sessionId, row.body.payload.root)
  }

  ghost predicate InOrder(a: Row, b: Row) {
    a.body.payload.Session? && b.body.payload.Session? && a.body.payload.sessionId == b.body.payload.sessionId
    ==> Extends(a.body.payload.root, b.body.payload.root)
  }

  ghost predicate ArchiveGood(disk: Disk, sid: string)
    requires disk.syncedRows <= |disk.rows|
  {
    sid in disk.archives ==>
      && disk.archives[sid].synced <= |disk.archives[sid].bytes|
      && var root := LatestRoot(disk.rows[..disk.syncedRows], sid);
      && root.Some?
      && disk.archives[sid].bytes <= Serialize(CommittedItems(root.value))
  }

  ghost predicate Inv(disk: Disk) {
    && disk.syncedRows <= |disk.rows|
    && Chain(disk.rows)
    && (forall sid :: sid in disk.nonceFiles ==> disk.nonceFiles[sid].synced <= |disk.nonceFiles[sid].cells|)
    && (forall k :: 0 <= k < |disk.rows| ==> RowGood(disk, disk.rows[k]))
    && (forall j, k :: 0 <= j < k < |disk.rows| ==> InOrder(disk.rows[j], disk.rows[k]))
    && (forall sid :: ArchiveGood(disk, sid))
  }

  /** No session has a row that is on file but not yet durable. */
  ghost predicate Settled(disk: Disk) {
    && disk.syncedRows <= |disk.rows|
    && forall sid :: LatestRoot(disk.rows[..disk.syncedRows], sid) == LatestRoot(disk.rows, sid)
  }

  // ---- When an operation is safe ---------------------------------------------

  function Existing(disk: Disk, sid: string): Bytes {
    if sid in disk.archives then disk.archives[sid].bytes else []
  }

  /** What must be true on disk at the moment an operation starts. */
  ghost predicate Safe(disk: Disk, op: Op) {
    match op
    case AppendSession(sid, root, count, snap) =>
      && sid == snap.sessionId
      && WellCommitted(root, count) && Backed(disk, sid, root)
      && (LatestRoot(disk.rows, sid).Some? ==> Extends(LatestRoot(disk.rows, sid).value, root))
    case ExtendArchive(sid, suffix) =>
      && LatestRoot(disk.rows, sid).Some?
      && Existing(disk, sid) + suffix <= Serialize(CommittedItems(LatestRoot(disk.rows, sid).value))
    case _ => true
  }

  /** Each operation is safe when its turn comes. */
  ghost predicate Ready(disk: Disk, ops: seq<Op>)
    decreases |ops|
  {
    ops == [] ||
    (Safe(disk, ops[0]) &&
     (Ideal(disk, ops[0]).ok ==> Ready(Ideal(disk, ops[0]).disk, ops[1..])))
  }
}
