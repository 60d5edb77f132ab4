/** Appending: what each `append_*` call plans to write, and the locked section that writes it. */
module LedgerWriters {
  import opened Records
  import opened Framing
  import opened Ledger
  import CommitmentTree

  /** The fields of a staged anchor event that its private receipt is checked against. */
  datatype StagedEvent = StagedEvent(
    rowStart: int, rowEnd: int, root: Digest, chainTip: Digest,
    sessionCount: int, itemCount: int, signed: bool)

  datatype Request =
    | SessionRequest(sessionId: string, root: Digest, itemCount: nat, source: string, provenance: Option<Provenance>)
    | BindingRequest(commitHash: string, repoId: string, bindingProvenance: Option<Provenance>)
    | EventRequest(eventSession: string, kind: EventKind, trigger: Trigger, contextGen: nat)
    | ReceiptRequest(event: StagedEvent, receiptTs: string, receiptId: string)

  /** Raise without writing, return None without writing, or write these rows one by one. */
  datatype Plan = Refuse | Replay | Write(rows: seq<Row>)

  function GenesisRow(ts: string): Row {
    Sealed(RowBody(V1, 0, ts, GENESIS_PREV, Genesis))
  }

  /** The row that a writer which read `rows` puts after them. */
  function NextRow(rows: seq<Row>, version: SchemaVersion, ts: string, payload: Payload): Row
    requires rows != []
  {
    var tip := rows[|rows| - 1];
    Sealed(RowBody(version, tip.body.i + 1, ts, tip.h, payload))
  }

  function Started(existing: seq<Row>, ts: string): seq<Row> {
    if existing == [] then [GenesisRow(ts)] else existing
  }

  function Boundaries(rows: seq<Row>): seq<Row> {
    if rows == [] then []
    else (if IsBoundary(rows[0]) then [rows[0]] else []) + Boundaries(rows[1..])
  }

  predicate EarlyV3(row: Row, transitions: seq<Row>) {
    row.body.version == V3 && !IsBoundary(row) && (transitions == [] || row.body.i < transitions[0].body.i)
  }

  /** `_prepare_provenance_rows` on rows that already hold a genesis. */
  function WithBoundary(rows: seq<Row>, ts: string, provenance: Provenance): Option<seq<Row>>
    requires rows != []
  {
    var transitions := Boundaries(rows);
    if |transitions| > 1 then None
    else if exists k :: 0 <= k < |rows| && EarlyV3(rows[k], transitions) then None
    else if transitions == [] then Some(rows + [NextRow(rows, V3, ts, Boundary(provenance))])
    else Some(rows)
  }

  function Prepared(existing: seq<Row>, ts: string, provenance: Option<Provenance>): (r: Option<seq<Row>>)
    ensures r.Some? ==> r.value != [] && existing <= r.value
  {
    if provenance.None? then Some(Started(existing, ts))
    else WithBoundary(Started(existing, ts), ts, provenance.value)
  }

  function Versioned(existing: seq<Row>, ts: string, provenance: Option<Provenance>,
                     frozen: SchemaVersion, payload: Payload): Plan
  {
    match Prepared(existing, ts, provenance)
    case None => Refuse
    case Some(base) =>
      var row := NextRow(base, if provenance.Some? then V3 else frozen, ts, payload);
      Write((base + [row])[|existing|..])
  }

  predicate SameEvent(row: Row, sessionId: string, kind: EventKind, ts: string) {
    var p := row.body.payload;
    p.Event? && p.eventSession == sessionId && p.kind == kind && row.body.ts == ts
  }

  predicate EventRecorded(existing: seq<Row>, sessionId: string, kind: EventKind, ts: string) {
    exists k :: 0 <= k < |existing| && SameEvent(existing[k], sessionId, kind, ts)
  }

  // ---- Anchor receipts -------------------------------------------------------

  function SessionRoots(rows: seq<Row>): seq<Digest> {
    if rows == [] then []
    else (match rows[0].body.payload
          case Session(_, root, _, _, _) => [root]
          case _ => []) + SessionRoots(rows[1..])
  }

  function ItemTotal(rows: seq<Row>): nat {
    if rows == [] then 0
    else (match rows[0].body.payload
          case Session(_, _, count, _, _) => count
          case _ => 0) + ItemTotal(rows[1..])
  }

  predicate NotAfter(codec: Codec, row: Row, receipt: int) {
    var t := codec.instant(row.body.ts);
    t.Some? && t.value <= receipt
  }

  /** The staged event describes the slice of rows it names. */
  predicate EventFits(existing: seq<Row>, event: StagedEvent) {
    && 0 <= event.rowStart < event.rowEnd <= |existing|
    && var covered := existing[event.rowStart..event.rowEnd];
    && var leaves := SessionRoots(covered);
    && leaves != []
    && CommitmentTree.DayRoot(leaves) == event.root
    && covered[|covered| - 1].h == event.chainTip
    && |leaves| == event.sessionCount
    && ItemTotal(covered) == event.itemCount
  }

  /** The receipt time is no earlier than any covered row and no later than the append time. */
  predicate TimesFit(codec: Codec, existing: seq<Row>, event: StagedEvent, receiptTs: string, ts: string)
    requires 0 <= event.rowStart <= event.rowEnd <= |existing|
  {
    var receipt, append := codec.instant(receiptTs), codec.instant(ts);
    && receipt.Some? && append.Some? && receipt.value <= append.value
    && forall k :: event.rowStart <= k < event.rowEnd ==> NotAfter(codec, existing[k], receipt.value)
  }

  predicate ReceiptClash(row: Row, event: StagedEvent, receiptId: string) {
    var p := row.body.payload;
    && p.AnchorReceipt?
    && (p.receiptId == receiptId || SameRange(p, event))
  }

  predicate SameRange(p: Payload, event: StagedEvent)
    requires p.AnchorReceipt?
  {
    p.rowStart == event.rowStart && p.rowEnd == event.rowEnd && p.anchorRoot == event.root
        && p.anchorTip == event.chainTip
  }

  /** The first earlier receipt that shares the id or the range decides between replay and refusal. */
  function AgainstReceipts(rows: seq<Row>, event: StagedEvent, receiptTs: string, receiptId: string): Option<Plan> {
    if rows == [] then None
    else if ReceiptClash(rows[0], event, receiptId) then
      var p := rows[0].body.payload;
      Some(if p.receiptId == receiptId && SameRange(p, event) && p.receiptTs == receiptTs then Replay else Refuse)
    else AgainstReceipts(rows[1..], event, receiptTs, receiptId)
  }

  function ReceiptPlan(codec: Codec, existing: seq<Row>, event: StagedEvent, receiptTs: string,
                       receiptId: string, ts: string): Plan
  {
    if !event.signed || !VerifyRows(existing, None).Intact? || !EventFits(existing, event) then Refuse
    else if !TimesFit(codec, existing, event, receiptTs, ts) then Refuse
    else
      match AgainstReceipts(existing, event, receiptTs, receiptId)
      case Some(plan) => plan
      case None =>
        var payload := AnchorReceipt(event.rowStart, event.rowEnd, event.root, event.chainTip, receiptTs, receiptId);
        Write([NextRow(existing, V2, ts, payload)])
  }

  /** What the locked section does after it has read `existing`. */
  function Planned(codec: Codec, existing: seq<Row>, req: Request, ts: string): Plan {
    match req
    case SessionRequest(id, root, count, source, provenance) =>
      Versioned(existing, ts, provenance, V2, Session(id, root, count, source, provenance))
    case BindingRequest(commit, repo, provenance) =>
      Versioned(existing, ts, provenance, V1, Binding(commit, repo, provenance))
    case EventRequest(id, kind, trigger, gen) =>
      if EventRecorded(existing, id, kind, ts) then Replay
      else Versioned(existing, ts, None, V2, Event(id, kind, trigger, gen))
    case ReceiptRequest(event, receiptTs, receiptId) =>
      ReceiptPlan(codec, existing, event, receiptTs, receiptId, ts)
  }

  // ---- Plans extend the chain ------------------------------------------------

  lemma NextRowExtends(rows: seq<Row>, version: SchemaVersion, ts: string, payload: Payload)
    requires Chain(rows) && rows != [] && !payload.Genesis?
    requires if payload.Boundary? then !BoundaryBefore(rows, |rows|)
             else version == V3 ==> BoundaryBefore(rows, |rows|)
    ensures Chain(rows + [NextRow(rows, version, ts, payload)])
  {
    var row := NextRow(rows, version, ts, payload);
    var all := rows + [row];
    assert InPlace(rows, |rows| - 1);
    assert forall m :: 0 <= m < |rows| ==> all[m] == rows[m];
    assert BoundaryBefore(all, |rows|) <==> BoundaryBefore(rows, |rows|);
    assert PrevOf(all, |rows|) == rows[|rows| - 1].h;
    ChainExtend(rows, row);
  }

  lemma StartedIsChain(existing: seq<Row>, ts: string)
    requires Chain(existing)
    ensures Chain(Started(existing, ts)) && Started(existing, ts) != [] && existing <= Started(existing, ts)
  {
    if existing == [] {
      assert InPlace([GenesisRow(ts)], 0);
    }
  }

  lemma {:induction false} BoundariesFound(rows: seq<Row>)
    ensures Boundaries(rows) == [] <==> !BoundaryBefore(rows, |rows|)
    ensures forall b :: b in Boundaries(rows) ==> b in rows && IsBoundary(b)
  {
    if rows != [] {
      BoundariesFound(rows[1..]);
      var rest := rows[1..];
      if BoundaryBefore(rest, |rest|) {
        var m :| 0 <= m < |rest| && IsBoundary(rest[m]);
        assert IsBoundary(rows[m + 1]);
      }
      if BoundaryBefore(rows, |rows|) && !IsBoundary(rows[0]) {
        var m :| 0 <= m < |rows| && IsBoundary(rows[m]);
        assert IsBoundary(rest[m - 1]);
      }
    }
  }

  lemma {:induction false} OneBoundary(rows: seq<Row>)
    requires forall m, n :: 0 <= m < n < |rows| ==> !(IsBoundary(rows[m]) && IsBoundary(rows[n]))
    ensures |Boundaries(rows)| <= 1
  {
    if rows != [] {
      OneBoundary(rows[1..]);
      BoundariesFound(rows[1..]);
      if IsBoundary(rows[0]) {
        assert forall m :: 0 < m < |rows| ==> !IsBoundary(rows[m]);
      }
    }
  }

  /** On a chain the boundary is always obtained: the two refusals of the source cannot fire. */
  lemma WithBoundaryOnChain(rows: seq<Row>, ts: string, provenance: Provenance)
    requires Chain(rows) && rows != []
    ensures var r := WithBoundary(rows, ts, provenance);
            && r.Some? && rows <= r.value && |r.value| <= |rows| + 1
            && Chain(r.value) && BoundaryBefore(r.value, |r.value|)
  {
    ChainReads(rows);
    OneBoundary(rows);
    BoundariesFound(rows);
    var transitions := Boundaries(rows);
    forall k | 0 <= k < |rows|
      ensures !EarlyV3(rows[k], transitions)
    {
      if rows[k].body.version == V3 && !IsBoundary(rows[k]) {
        assert BoundaryBefore(rows, k);
        var m :| 0 <= m < k && IsBoundary(rows[m]);
        assert transitions[0] in rows && IsBoundary(transitions[0]);
        var j :| 0 <= j < |rows| && rows[j] == transitions[0];
        assert j == m;
      }
    }
    if transitions == [] {
      NextRowExtends(rows, V3, ts, Boundary(provenance));
      var r := WithBoundary(rows, ts, provenance).value;
      assert IsBoundary(r[|rows|]);
    }
  }

  lemma VersionedKeepsChain(existing: seq<Row>, ts: string, provenance: Option<Provenance>,
                            frozen: SchemaVersion, payload: Payload)
    requires Chain(existing) && !payload.Genesis? && !payload.Boundary? && frozen != V3
    ensures var plan := Versioned(existing, ts, provenance, frozen, payload);
            && plan.Write? && plan.rows != []
            && Chain(existing + plan.rows)
            && plan.rows[|plan.rows| - 1].body.payload == payload
            && plan.rows[|plan.rows| - 1].body.ts == ts
            && forall k :: 0 <= k < |plan.rows| - 1 ==>
                 plan.rows[k].body.payload.Genesis? || IsBoundary(plan.rows[k])
  {
    PreparedIsChain(existing, ts, provenance);
    hide Chain, Prepared, BoundaryBefore, IsBoundary;
    var base := Prepared(existing, ts, provenance).value;
    var version := if provenance.Some? then V3 else frozen;
    NextRowExtends(base, version, ts, payload);
    var all := base + [NextRow(base, version, ts, payload)];
    var rows := Versioned(existing, ts, provenance, frozen, payload).rows;
    assert existing + rows == all;
    assert forall k :: 0 <= k < |rows| - 1 ==> rows[k] == base[|existing| + k];
  }

  /** What goes before the new row: a chain that extends the old one by a genesis or boundary row. */
  lemma PreparedIsChain(existing: seq<Row>, ts: string, provenance: Option<Provenance>)
    requires Chain(existing)
    ensures var base := Prepared(existing, ts, provenance);
            && base.Some? && base.value != [] && existing <= base.value && Chain(base.value)
            && (provenance.Some? ==> BoundaryBefore(base.value, |base.value|))
            && forall k :: |existing| <= k < |base.value| ==>
                 base.value[k].body.payload.Genesis? || IsBoundary(base.value[k])
  {
    StartedIsChain(existing, ts);
    var start := Started(existing, ts);
    if provenance.Some? {
      WithBoundaryOnChain(start, ts, provenance.value);
      BoundaryRows(start, ts, provenance.value);
    }
  }

  /** The only row `WithBoundary` adds is a boundary. */
  lemma BoundaryRows(rows: seq<Row>, ts: string, provenance: Provenance)
    requires rows != [] && WithBoundary(rows, ts, provenance).Some?
    ensures var r := WithBoundary(rows, ts, provenance).value;
            rows <= r && forall k :: |rows| <= k < |r| ==> IsBoundary(r[k])
  {
  }

  /** Whatever a writer plans on a chain, the chain with the planned rows is a chain, and an
      event row is planned only when its replay key is new. */
  lemma PlanKeepsChain(codec: Codec, existing: seq<Row>, req: Request, ts: string)
    requires Chain(existing)
    ensures var plan := Planned(codec, existing, req, ts);
            plan.Write? ==> plan.rows != [] && Chain(existing + plan.rows)
    ensures (req.SessionRequest? || req.BindingRequest?) ==> Planned(codec, existing, req, ts).Write?
    ensures req.EventRequest? ==>
              (Planned(codec, existing, req, ts) == Replay <==>
               EventRecorded(existing, req.eventSession, req.kind, ts))
  {
    match req
    case SessionRequest(id, root, count, source, provenance) =>
      VersionedKeepsChain(existing, ts, provenance, V2, Session(id, root, count, source, provenance));
    case BindingRequest(commit, repo, provenance) =>
      VersionedKeepsChain(existing, ts, provenance, V1, Binding(commit, repo, provenance));
    case EventRequest(id, kind, trigger, gen) =>
      VersionedKeepsChain(existing, ts, None, V2, Event(id, kind, trigger, gen));
    case ReceiptRequest(event, receiptTs, receiptId) =>
      var plan := Planned(codec, existing, req, ts);
      if plan.Write? {
        AgainstReceiptsNeverWrites(existing, event, receiptTs, receiptId);
        NextRowExtends(existing, V2, ts, plan.rows[0].body.payload);
      }
  }

  lemma {:induction false} AgainstReceiptsNeverWrites(rows: seq<Row>, event: StagedEvent, receiptTs: string,
                                                      receiptId: string)
    ensures AgainstReceipts(rows, event, receiptTs, receiptId) != None ==>
              !AgainstReceipts(rows, event, receiptTs, receiptId).value.Write?
  {
    if rows != [] && !ReceiptClash(rows[0], event, receiptId) {
      AgainstReceiptsNeverWrites(rows[1..], event, receiptTs, receiptId);
    }
  }

  // ---- The locked section ----------------------------------------------------

  /** The rows written before the schema refuses one. */
  function Admitted(codec: Codec, rows: seq<Row>): (r: seq<Row>)
    ensures r <= rows && Accepted(codec, r)
  {
    if rows == [] || !codec.accepts(rows[0]) then []
    else
      var rest := Admitted(codec, rows[1..]);
      [rows[0]] + rest
  }

  lemma {:induction false} AdmittedStep(codec: Codec, rows: seq<Row>, n: nat)
    requires n < |rows| && Accepted(codec, rows[..n])
    ensures !codec.accepts(rows[n]) ==> Admitted(codec, rows) == rows[..n]
    ensures codec.accepts(rows[n]) ==> Accepted(codec, rows[..n + 1])
  {
    assert rows[..n + 1] == rows[..n] + [rows[n]];
    if n > 0 {
      assert rows[..n][0] == rows[0];
      assert rows[1..][..n - 1] == rows[..n][1..];
      AdmittedStep(codec, rows[1..], n - 1);
      assert rows[..n] == [rows[0]] + rows[1..][..n - 1];
    }
  }

  lemma {:induction false} AdmittedAll(codec: Codec, rows: seq<Row>)
    ensures Admitted(codec, rows) == rows <==> Accepted(codec, rows)
  {
    if rows != [] {
      AdmittedAll(codec, rows[1..]);
      if Accepted(codec, rows) {
        assert Accepted(codec, rows[1..]);
      }
    }
  }

  datatype AppendResult = Appended(row: Row) | Replayed | TornRefused | Refused

  /** `_append_row`: the schema is asked first; an admitted row is written and made durable. */
  method AppendRow(codec: Codec, file: LedgerFile, row: Row) returns (ok: bool)
    requires file.Valid()
    modifies file
    ensures file.Valid() && file.quarantine == old(file.quarantine)
    ensures ok == codec.accepts(row)
    ensures ok ==> file.data == old(file.data) + Render(codec, [row]) && file.synced == |file.data|
    ensures !ok ==> file.data == old(file.data) && file.synced == old(file.synced)
  {
    ok := codec.accepts(row);
    if ok {
      RenderOne(codec, row);
      file.data := file.data + (codec.text(row) + [NL]);
      file.synced := |file.data|;
    }
  }

  /** One `append_*` call under the writer lock. */
  method Append(codec: Codec, file: LedgerFile, req: Request, ts: string) returns (r: AppendResult)
    requires file.Valid()
    modifies file
    ensures file.Valid() && file.quarantine == old(file.quarantine)
    ensures match ReadRows(codec, old(file.data))
            case Torn => r == TornRefused && file.data == old(file.data)
            case Corrupt => r == Refused && file.data == old(file.data)
            case Rows(existing) =>
              match Planned(codec, existing, req, ts)
              case Refuse => r == Refused && file.data == old(file.data)
              case Replay => r == Replayed && file.data == old(file.data)
              case Write(rows) =>
                && file.data == old(file.data) + Render(codec, Admitted(codec, rows))
                && (Accepted(codec, rows) && rows != [] ==>
                      r == Appended(rows[|rows| - 1]) && file.synced == |file.data|)
                && (!Accepted(codec, rows) ==> r == Refused)
  {
    hide ReadRows, Planned, Render;
    var read := ReadLedger(codec, file.data);
    match read {
      case Torn => return TornRefused;
      case Corrupt => return Refused;
      case Rows(existing) =>
        var plan := Planned(codec, existing, req, ts);
        match plan {
          case Refuse => return Refused;
          case Replay => return Replayed;
          case Write(rows) => r := WriteRows(codec, file, rows);
        }
    }
  }

  method WriteRows(codec: Codec, file: LedgerFile, rows: seq<Row>) returns (r: AppendResult)
    requires file.Valid()
    modifies file
    ensures file.Valid() && file.quarantine == old(file.quarantine)
    ensures file.data == old(file.data) + Render(codec, Admitted(codec, rows))
    ensures Accepted(codec, rows) && rows != [] ==> r == Appended(rows[|rows| - 1]) && file.synced == |file.data|
    ensures !Accepted(codec, rows) ==> r == Refused
  {
    RenderConcat(codec, [], []);
    assert Render(codec, []) == [];
    hide Render, Admitted;
    for n := 0 to |rows|
      invariant file.Valid() && file.quarantine == old(file.quarantine)
      invariant Accepted(codec, rows[..n])
      invariant file.data == old(file.data) + Render(codec, rows[..n])
      invariant n > 0 ==> file.synced == |file.data|
    {
      AdmittedStep(codec, rows, n);
      var ok := AppendRow(codec, file, rows[n]);
      if !ok {
        return Refused;
      }
      RenderConcat(codec, rows[..n], [rows[n]]);
      assert rows[..n + 1] == rows[..n] + [rows[n]];
      Associative(old(file.data), Render(codec, rows[..n]), Render(codec, [rows[n]]));
    }
    assert rows[..|rows|] == rows;
    AdmittedAll(codec, rows);
    return if rows == [] then Refused else Appended(rows[|rows| - 1]);
  }
}
