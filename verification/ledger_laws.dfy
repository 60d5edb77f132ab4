/** What an append puts on the ledger, read off the request it serves, and what a staged anchor event
must say of the rows it covers.
*/
module LedgerLaws {
  import opened Records
  import opened Ledger
  import opened LedgerWriters
  import CommitmentTree

  // ---- The rows of one append ------------------------------------------------

  /** The row carries the request, field by field. */
  predicate Carries(p: Payload, req: Request) {
    match req
    case SessionRequest(id, root, count, source, provenance) =>
      && p.Session? && p.sessionId == id && p.root == root && p.itemCount == count
      && p.source == source && p.provenance == provenance
    case BindingRequest(commit, repo, provenance) =>
      p.Binding? && p.commitHash == commit && p.repoId == repo && p.bindingProvenance == provenance
    case EventRequest(id, kind, trigger, gen) =>
      p.Event? && p.eventSession == id && p.kind == kind && p.trigger == trigger && p.contextGen == gen
    case ReceiptRequest(event, receiptTs, receiptId) =>
      && p.AnchorReceipt? && p.rowStart == event.rowStart && p.rowEnd == event.rowEnd
      && p.anchorRoot == event.root && p.anchorTip == event.chainTip
      && p.receiptTs == receiptTs && p.receiptId == receiptId
  }

  function ProvenanceOf(req: Request): Option<Provenance> {
    match req
    case SessionRequest(_, _, _, _, provenance) => provenance
    case BindingRequest(_, _, provenance) => provenance
    case _ => None
  }

  /** Explicit provenance makes a v3 row; without it each kind of row keeps its frozen version. */
  predicate Versions(version: SchemaVersion, req: Request) {
    && (ProvenanceOf(req).Some? ==> version == V3)
    && (ProvenanceOf(req).None? ==> version == if req.BindingRequest? then V1 else V2)
  }

  predicate HasBoundary(rows: seq<Row>) {
    exists k :: 0 <= k < |rows| && rows[k].body.payload.Boundary?
  }

  /** One row for the request at the append's time; before it a genesis exactly when the ledger was
      empty, and a boundary of the request's provenance exactly when it has one and the ledger had none. */
  ghost predicate Appends(existing: seq<Row>, rows: seq<Row>, req: Request, ts: string) {
    var genesis := if existing == [] then 1 else 0;
    var boundary := if ProvenanceOf(req).Some? && !HasBoundary(existing) then 1 else 0;
    && |rows| == genesis + boundary + 1
    && (forall k :: 0 <= k < |rows| ==> rows[k].body.ts == ts)
    && (genesis == 1 ==> rows[0].body.payload.Genesis? && rows[0].body.version == V1)
    && (boundary == 1 ==>
          && rows[genesis].body.payload == Boundary(ProvenanceOf(req).value)
          && rows[genesis].body.version == V3)
    && Carries(rows[|rows| - 1].body.payload, req) && Versions(rows[|rows| - 1].body.version, req)
  }

  /** `base` is `existing` with what must go before a row of this provenance. */
  ghost predicate Readied(existing: seq<Row>, base: seq<Row>, ts: string, provenance: Option<Provenance>) {
    var genesis := if existing == [] then 1 else 0;
    var boundary := if provenance.Some? && !HasBoundary(existing) then 1 else 0;
    && |base| == |existing| + genesis + boundary && existing <= base && base != []
    && (forall k :: |existing| <= k < |base| ==> base[k].body.ts == ts)
    && (genesis == 1 ==> base[0].body.payload.Genesis? && base[0].body.version == V1)
    && (boundary == 1 ==>
          && base[|existing| + genesis].body.payload == Boundary(provenance.value)
          && base[|existing| + genesis].body.version == V3)
  }

  lemma PreparedIsReadied(existing: seq<Row>, ts: string, provenance: Option<Provenance>)
    requires Chain(existing)
    ensures Prepared(existing, ts, provenance).Some?
    ensures Readied(existing, Prepared(existing, ts, provenance).value, ts, provenance)
  {
    PreparedIsChain(existing, ts, provenance);
    StartedIsChain(existing, ts);
    var start := Started(existing, ts);
    BoundariesFound(start);
    assert BoundaryBefore(start, |start|) <==> HasBoundary(existing) by {
      if m :| 0 <= m < |start| && IsBoundary(start[m]) {
        assert existing != [] && existing[m] == start[m];
      }
      if k :| 0 <= k < |existing| && existing[k].body.payload.Boundary? {
        assert IsBoundary(start[k]);
      }
    }
    hide Chain, Boundaries, EarlyV3;
  }

  lemma VersionedAppends(existing: seq<Row>, ts: string, provenance: Option<Provenance>,
                         frozen: SchemaVersion, payload: Payload, req: Request)
    requires Chain(existing) && frozen != V3 && Carries(payload, req) && provenance == ProvenanceOf(req)
    requires frozen == if req.BindingRequest? then V1 else V2
    ensures var plan := Versioned(existing, ts, provenance, frozen, payload);
            plan.Write? && Appends(existing, plan.rows, req, ts)
  {
    PreparedIsReadied(existing, ts, provenance);
    var base := Prepared(existing, ts, provenance).value;
    var row := NextRow(base, if provenance.Some? then V3 else frozen, ts, payload);
    assert Versioned(existing, ts, provenance, frozen, payload) == Write((base + [row])[|existing|..]);
    hide Chain, Prepared, Carries, Readied, Versioned, Appends;
    LastAppends(existing, base, row, req, ts);
  }

  lemma LastAppends(existing: seq<Row>, base: seq<Row>, last: Row, req: Request, ts: string)
    requires Readied(existing, base, ts, ProvenanceOf(req)) && last.body.ts == ts
    requires Carries(last.body.payload, req) && Versions(last.body.version, req)
    ensures |existing| <= |base| && Appends(existing, (base + [last])[|existing|..], req, ts)
  {
    hide Carries, Versions, HasBoundary;
    var rows := (base + [last])[|existing|..];
    assert forall k :: 0 <= k < |base| - |existing| ==> rows[k] == base[|existing| + k];
    assert rows[|rows| - 1] == last;
  }

  /** Whatever an append writes, it writes for its request and nothing else. */
  lemma PlanAppends(codec: Codec, existing: seq<Row>, req: Request, ts: string)
    requires Chain(existing) && Planned(codec, existing, req, ts).Write?
    ensures Appends(existing, Planned(codec, existing, req, ts).rows, req, ts)
  {
    hide Chain, Versioned, Prepared;
    match req
    case SessionRequest(id, root, count, source, provenance) =>
      VersionedAppends(existing, ts, provenance, V2, Session(id, root, count, source, provenance), req);
    case BindingRequest(commit, repo, provenance) =>
      VersionedAppends(existing, ts, provenance, V1, Binding(commit, repo, provenance), req);
    case EventRequest(id, kind, trigger, gen) =>
      VersionedAppends(existing, ts, None, V2, Event(id, kind, trigger, gen), req);
    case ReceiptRequest(event, receiptTs, receiptId) =>
      AgainstReceiptsNeverWrites(existing, event, receiptTs, receiptId);
      assert existing != [];
  }

  // ---- When an append writes -------------------------------------------------

  predicate SameReceipt(p: Payload, event: StagedEvent, receiptTs: string, receiptId: string) {
    && p.AnchorReceipt? && p.receiptId == receiptId && p.receiptTs == receiptTs
    && p.rowStart == event.rowStart && p.rowEnd == event.rowEnd
    && p.anchorRoot == event.root && p.anchorTip == event.chainTip
  }

  /** Another receipt has its id, or is for the same range, root and tip. */
  predicate Clashes(p: Payload, event: StagedEvent, receiptId: string) {
    && p.AnchorReceipt?
    && (p.receiptId == receiptId
        || (p.rowStart == event.rowStart && p.rowEnd == event.rowEnd
            && p.anchorRoot == event.root && p.anchorTip == event.chainTip))
  }

  ghost predicate FirstClash(rows: seq<Row>, event: StagedEvent, receiptId: string, k: nat) {
    && k < |rows| && Clashes(rows[k].body.payload, event, receiptId)
    && forall j :: 0 <= j < k ==> !Clashes(rows[j].body.payload, event, receiptId)
  }

  lemma {:induction false} AgainstReceiptsIff(rows: seq<Row>, event: StagedEvent, receiptTs: string, receiptId: string)
    ensures var plan := AgainstReceipts(rows, event, receiptTs, receiptId);
            && (plan.None? <==> forall k :: 0 <= k < |rows| ==> !Clashes(rows[k].body.payload, event, receiptId))
            && forall k: nat :: FirstClash(rows, event, receiptId, k) ==>
                 plan == Some(if SameReceipt(rows[k].body.payload, event, receiptTs, receiptId) then Replay else Refuse)
  {
    if rows != [] {
      var rest := rows[1..];
      AgainstReceiptsIff(rest, event, receiptTs, receiptId);
      assert ReceiptClash(rows[0], event, receiptId) <==> Clashes(rows[0].body.payload, event, receiptId);
      assert forall k :: 0 < k < |rows| ==> rows[k] == rest[k - 1];
      if !Clashes(rows[0].body.payload, event, receiptId) {
        forall k: nat | FirstClash(rows, event, receiptId, k)
          ensures k > 0 && FirstClash(rest, event, receiptId, k - 1)
        {
          assert forall j :: 0 <= j < k - 1 ==> rest[j] == rows[j + 1];
        }
      }
    }
  }

  /** The receipt is for an event that describes these rows, at a time between theirs and the append's. */
  predicate ReceiptStands(codec: Codec, existing: seq<Row>, event: StagedEvent, receiptTs: string, ts: string) {
    && event.signed && EventFits(existing, event)
    && codec.instant(receiptTs).Some? && codec.instant(ts).Some?
    && codec.instant(receiptTs).value <= codec.instant(ts).value
    && forall k :: event.rowStart <= k < event.rowEnd ==>
         && codec.instant(existing[k].body.ts).Some?
         && codec.instant(existing[k].body.ts).value <= codec.instant(receiptTs).value
  }

  /** On a chain, sessions and bindings are always written, an event unless its session, kind and time are
      recorded already, and a receipt if it stands and no earlier one clashes with it; a receipt that
      stands is a replay exactly when the first that clashes is the same. */
  lemma WritesIff(codec: Codec, existing: seq<Row>, req: Request, ts: string)
    requires Chain(existing)
    ensures req.SessionRequest? || req.BindingRequest? ==> Planned(codec, existing, req, ts).Write?
    ensures req.EventRequest? ==>
              var recorded := exists k :: 0 <= k < |existing| && RecordsEvent(existing[k], req, ts);
              Planned(codec, existing, req, ts).Write? == !recorded
              && (Planned(codec, existing, req, ts) == Replay <==> recorded)
    ensures req.ReceiptRequest? ==>
              var stands := ReceiptStands(codec, existing, req.event, req.receiptTs, ts);
              && (Planned(codec, existing, req, ts).Write? <==>
                    stands && forall k :: 0 <= k < |existing| ==>
                      !Clashes(existing[k].body.payload, req.event, req.receiptId))
              && forall k: nat :: FirstClash(existing, req.event, req.receiptId, k) ==>
                   (Planned(codec, existing, req, ts) == Replay <==>
                      stands && SameReceipt(existing[k].body.payload, req.event, req.receiptTs, req.receiptId))
  {
    hide Chain, Planned, EventFits, TimesFit, FirstClash, Clashes, ReceiptStands;
    PlanKeepsChain(codec, existing, req, ts);
    if req.EventRequest? {
      EventWritesIff(codec, existing, req, ts);
    } else if req.ReceiptRequest? {
      ReceiptWritesIff(codec, existing, req, ts);
    }
  }

  lemma EventWritesIff(codec: Codec, existing: seq<Row>, req: Request, ts: string)
    requires Chain(existing) && req.EventRequest?
    ensures var recorded := exists k :: 0 <= k < |existing| && RecordsEvent(existing[k], req, ts);
            && Planned(codec, existing, req, ts).Write? == !recorded
            && (Planned(codec, existing, req, ts) == Replay <==> recorded)
  {
    VersionedKeepsChain(existing, ts, None, V2, Event(req.eventSession, req.kind, req.trigger, req.contextGen));
    hide Chain, Versioned;
    if k :| 0 <= k < |existing| && SameEvent(existing[k], req.eventSession, req.kind, ts) {
      assert RecordsEvent(existing[k], req, ts);
    }
    if k :| 0 <= k < |existing| && RecordsEvent(existing[k], req, ts) {
      assert SameEvent(existing[k], req.eventSession, req.kind, ts);
    }
  }

  lemma ReceiptWritesIff(codec: Codec, existing: seq<Row>, req: Request, ts: string)
    requires Chain(existing) && req.ReceiptRequest?
    ensures var stands := ReceiptStands(codec, existing, req.event, req.receiptTs, ts);
            && (Planned(codec, existing, req, ts).Write? <==>
                  stands && forall k :: 0 <= k < |existing| ==>
                    !Clashes(existing[k].body.payload, req.event, req.receiptId))
            && forall k: nat :: FirstClash(existing, req.event, req.receiptId, k) ==>
                 (Planned(codec, existing, req, ts) == Replay <==>
                    stands && SameReceipt(existing[k].body.payload, req.event, req.receiptTs, req.receiptId))
  {
    IntactIffChain(existing);
    AgainstReceiptsIff(existing, req.event, req.receiptTs, req.receiptId);
    AgainstReceiptsNeverWrites(existing, req.event, req.receiptTs, req.receiptId);
    ClashFound(existing, req.event, req.receiptId);
    StandsIff(codec, existing, req.event, req.receiptTs, ts);
    hide Chain, EventFits, TimesFit, AgainstReceipts, FirstClash, Clashes, VerifyRows, SameReceipt, ReceiptStands;
  }

  lemma StandsIff(codec: Codec, existing: seq<Row>, event: StagedEvent, receiptTs: string, ts: string)
    ensures ReceiptStands(codec, existing, event, receiptTs, ts) <==>
            event.signed && EventFits(existing, event) && TimesFit(codec, existing, event, receiptTs, ts)
  {
    hide SessionRoots, ItemTotal;
  }

  lemma ClashFound(rows: seq<Row>, event: StagedEvent, receiptId: string)
    ensures forall k: nat :: FirstClash(rows, event, receiptId, k) ==>
              !forall j :: 0 <= j < |rows| ==> !Clashes(rows[j].body.payload, event, receiptId)
  {
    hide Clashes;
  }

  predicate RecordsEvent(row: Row, req: Request, ts: string)
    requires req.EventRequest?
  {
    && row.body.payload.Event? && row.body.ts == ts
    && row.body.payload.eventSession == req.eventSession && row.body.payload.kind == req.kind
  }

  // ---- What a staged event says of its rows ----------------------------------

  ghost predicate AreSessions(rows: seq<Row>, at: seq<nat>) {
    forall k :: 0 <= k < |at| ==> at[k] < |rows| && rows[at[k]].body.payload.Session?
  }

  /** `at` lists, in order, the places of all session rows. */
  ghost predicate SessionsAt(rows: seq<Row>, at: seq<nat>) {
    && AreSessions(rows, at)
    && (forall j, k :: 0 <= j < k < |at| ==> at[j] < at[k])
    && (forall i: nat :: i < |rows| && rows[i].body.payload.Session? ==> i in at)
  }

  /** The roots of the rows at these places, in order. */
  ghost predicate RootsOf(rows: seq<Row>, at: seq<nat>, roots: seq<Digest>)
    requires AreSessions(rows, at)
  {
    |roots| == |at| && forall k :: 0 <= k < |at| ==> roots[k] == rows[at[k]].body.payload.root
  }

  /** The item counts of the rows at the first `n` places, added up. */
  ghost function CountsAt(rows: seq<Row>, at: seq<nat>, n: nat): nat
    requires AreSessions(rows, at) && n <= |at|
  {
    if n == 0 then 0 else CountsAt(rows, at, n - 1) + rows[at[n - 1]].body.payload.itemCount
  }

  lemma {:induction false} RootsConcat(a: seq<Row>, b: seq<Row>)
    ensures SessionRoots(a + b) == SessionRoots(a) + SessionRoots(b)
    ensures ItemTotal(a + b) == ItemTotal(a) + ItemTotal(b)
  {
    if a == [] {
      assert a + b == b;
    } else {
      assert (a + b)[1..] == a[1..] + b;
      RootsConcat(a[1..], b);
    }
  }

  lemma {:induction false} CountsSame(rows: seq<Row>, more: seq<Row>, at: seq<nat>, longer: seq<nat>, n: nat)
    requires AreSessions(rows, at) && AreSessions(more, longer) && rows <= more && at <= longer && n <= |at|
    ensures CountsAt(rows, at, n) == CountsAt(more, longer, n)
  {
    if n > 0 {
      CountsSame(rows, more, at, longer, n - 1);
    }
  }

  /** The leaves of a day root are the roots of its session rows in row order, and the item total is the
      sum of their counts. */
  lemma {:induction false} RootsInOrder(rows: seq<Row>) returns (at: seq<nat>)
    ensures SessionsAt(rows, at) && AreSessions(rows, at) && RootsOf(rows, at, SessionRoots(rows))
    ensures ItemTotal(rows) == CountsAt(rows, at, |at|)
  {
    hide *;
    if rows == [] {
      at := [];
      NoSessions();
    } else {
      var n := |rows| - 1;
      var init, last := rows[..n], rows[n];
      var before := RootsInOrder(init);
      at := if last.body.payload.Session? then before + [n] else before;
      PlacesMore(rows, before, at);
      assert rows == init + [last];
      RootsConcat(init, [last]);
      OneRow(last);
      ArePlaces(init, before);
      ArePlaces(init + [last], at);
      CountsGrow(init, last, before, at);
      RootsGrow(init, last, before, at, SessionRoots(init));
    }
  }

  lemma NoSessions()
    ensures SessionsAt([], []) && AreSessions([], []) && RootsOf([], [], SessionRoots([]))
            && ItemTotal([]) == CountsAt([], [], 0)
  {
  }

  lemma ArePlaces(rows: seq<Row>, at: seq<nat>)
    requires SessionsAt(rows, at)
    ensures AreSessions(rows, at)
  {
  }

  lemma RootsGrow(init: seq<Row>, last: Row, before: seq<nat>, at: seq<nat>, roots: seq<Digest>)
    requires AreSessions(init, before) && AreSessions(init + [last], at) && RootsOf(init, before, roots)
    requires at == if last.body.payload.Session? then before + [|init|] else before
    ensures RootsOf(init + [last], at, roots + if last.body.payload.Session? then [last.body.payload.root] else [])
  {
    assert forall k :: 0 <= k < |before| ==> at[k] == before[k] && (init + [last])[at[k]] == init[before[k]];
  }

  lemma CountsGrow(init: seq<Row>, last: Row, before: seq<nat>, at: seq<nat>)
    requires AreSessions(init, before) && AreSessions(init + [last], at)
    requires at == if last.body.payload.Session? then before + [|init|] else before
    ensures CountsAt(init + [last], at, |at|) ==
            CountsAt(init, before, |before|) + if last.body.payload.Session? then last.body.payload.itemCount else 0
  {
    CountsSame(init, init + [last], before, at, |before|);
    if last.body.payload.Session? {
      assert at[|before|] == |init| && |at| == |before| + 1;
    }
  }

  lemma OneRow(row: Row)
    ensures SessionRoots([row]) == if row.body.payload.Session? then [row.body.payload.root] else []
    ensures ItemTotal([row]) == if row.body.payload.Session? then row.body.payload.itemCount else 0
  {
    assert [row][1..] == [];
  }

  lemma PlacesMore(rows: seq<Row>, before: seq<nat>, at: seq<nat>)
    requires rows != [] && SessionsAt(rows[..|rows| - 1], before)
    requires var n := |rows| - 1; at == if rows[n].body.payload.Session? then before + [n] else before
    ensures SessionsAt(rows, at)
  {
    var n := |rows| - 1;
    forall i: nat | i < |rows| && rows[i].body.payload.Session?
      ensures i in at
    {
      if i < n {
        assert rows[..n][i].body.payload.Session?;
        assert i in before;
      } else {
        assert at[|before|] == n;
      }
    }
  }

  /** A staged event fits exactly when its range holds a session row, its root is the day root of the
      covered session roots in order, its tip is the last covered row's hash, and its counts are those
      of the covered session rows. */
  lemma FitsIff(existing: seq<Row>, event: StagedEvent) returns (at: seq<nat>, roots: seq<Digest>)
    requires 0 <= event.rowStart < event.rowEnd <= |existing|
    ensures var covered := existing[event.rowStart..event.rowEnd];
            && SessionsAt(covered, at) && RootsOf(covered, at, roots)
            && (EventFits(existing, event) <==>
                  && roots != [] && event.root == CommitmentTree.DayRoot(roots)
                  && event.chainTip == existing[event.rowEnd - 1].h
                  && event.sessionCount == |at| && event.itemCount == CountsAt(covered, at, |at|))
  {
    var covered := existing[event.rowStart..event.rowEnd];
    at := RootsInOrder(covered);
    roots := SessionRoots(covered);
    assert covered[|covered| - 1] == existing[event.rowEnd - 1];
    hide SessionRoots, ItemTotal, SessionsAt, CountsAt, AreSessions, RootsOf;
  }
}
