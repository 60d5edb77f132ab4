/** Anchor ranges from cut through publish to the two independent re-checks.

One identity's events are listed in the order of their paths, which is the order of their dates.
*/
module Anchors {
  import opened Records
  import opened Ledger
  import opened LedgerWriters
  import CommitmentTree

  /** A signed event and the UTC day that names its file. */
  datatype Dated = Dated(date: int, event: StagedEvent)

  ghost predicate DatesIncrease(log: seq<Dated>) {
    forall i, j :: 0 <= i < j < |log| ==> log[i].date < log[j].date
  }

  predicate HasDate(log: seq<Dated>, date: int) {
    exists k :: 0 <= k < |log| && log[k].date == date
  }

  /** Adding a file to a directory that lists in date order. */
  function Insert(log: seq<Dated>, e: Dated): seq<Dated> {
    if log == [] || e.date < log[0].date then [e] + log
    else [log[0]] + Insert(log[1..], e)
  }

  lemma {:induction false} InsertLast(log: seq<Dated>, e: Dated)
    requires forall k :: 0 <= k < |log| ==> log[k].date < e.date
    ensures Insert(log, e) == log + [e]
  {
    if log != [] {
      InsertLast(log[1..], e);
    }
  }

  // ---- Ranges ----------------------------------------------------------------

  /** The ranges tile what lies after `from`: no gap, no overlap, none empty. */
  predicate Tiles(log: seq<Dated>, from: int) {
    log == [] || (log[0].event.rowStart == from && from < log[0].event.rowEnd && Tiles(log[1..], log[0].event.rowEnd))
  }

  /** The running maximum of range ends, as `cut`, `publish` and the verifier all keep it. */
  function MaxEnd(log: seq<Dated>, from: int): int {
    if log == [] then from
    else MaxEnd(log[1..], if log[0].event.rowEnd > from then log[0].event.rowEnd else from)
  }

  lemma {:induction false} MaxEndStep(log: seq<Dated>, n: nat, from: int)
    requires n < |log|
    ensures MaxEnd(log[..n + 1], from) ==
            if log[n].event.rowEnd > MaxEnd(log[..n], from) then log[n].event.rowEnd else MaxEnd(log[..n], from)
  {
    if n > 0 {
      assert log[..n + 1][1..] == log[1..][..n] && log[..n][1..] == log[1..][..n - 1];
      MaxEndStep(log[1..], n - 1, if log[0].event.rowEnd > from then log[0].event.rowEnd else from);
    }
  }

  lemma {:induction false} MaxEndConcat(a: seq<Dated>, b: seq<Dated>, from: int)
    ensures MaxEnd(a + b, from) == MaxEnd(b, MaxEnd(a, from))
  {
    if a == [] {
      assert a + b == b;
    } else {
      assert (a + b)[1..] == a[1..] + b;
      MaxEndConcat(a[1..], b, if a[0].event.rowEnd > from then a[0].event.rowEnd else from);
    }
  }

  /** In a tiling the maximum is the end of the last range. */
  lemma {:induction false} TilesConcat(a: seq<Dated>, b: seq<Dated>, from: int)
    ensures Tiles(a + b, from) <==> Tiles(a, from) && Tiles(b, MaxEnd(a, from))
  {
    if a == [] {
      assert a + b == b;
    } else {
      assert (a + b)[1..] == a[1..] + b;
      TilesConcat(a[1..], b, a[0].event.rowEnd);
    }
  }

  /** A range of a tiling, wherever it stands. */
  lemma {:induction false} TilesAt(log: seq<Dated>, from: int, k: nat)
    requires Tiles(log, from) && k < |log|
    ensures from <= log[k].event.rowStart < log[k].event.rowEnd
    ensures log[k].event.rowStart == MaxEnd(log[..k], from) && log[k].event.rowEnd == MaxEnd(log[..k + 1], from)
  {
    if k > 0 {
      assert log[..k][1..] == log[1..][..k - 1] && log[..k + 1][1..] == log[1..][..k];
      TilesAt(log[1..], log[0].event.rowEnd, k - 1);
    } else {
      assert log[..1][1..] == [];
    }
  }

  lemma {:induction false} TilesPair(log: seq<Dated>, from: int, j: nat, k: nat)
    requires Tiles(log, from) && j < k < |log|
    ensures log[j].event.rowEnd <= log[k].event.rowStart
  {
    if j > 0 {
      TilesPair(log[1..], log[0].event.rowEnd, j - 1, k - 1);
    } else {
      TilesAt(log[1..], log[0].event.rowEnd, k - 1);
    }
  }

  lemma {:induction false} TilesEnd(log: seq<Dated>, from: int)
    requires Tiles(log, from)
    ensures from <= MaxEnd(log, from)
    ensures log != [] ==> MaxEnd(log, from) == log[|log| - 1].event.rowEnd
  {
    if log != [] {
      TilesEnd(log[1..], log[0].event.rowEnd);
    }
  }

  /** What tiling means without recursion: each range starts where the one before it ends. */
  lemma TilesReads(log: seq<Dated>, from: int)
    requires Tiles(log, from)
    ensures forall k :: 0 <= k < |log| ==> from <= log[k].event.rowStart < log[k].event.rowEnd <= MaxEnd(log, from)
    ensures forall k :: 0 <= k < |log| ==> log[k].event.rowStart == MaxEnd(log[..k], from)
    ensures forall j, k :: 0 <= j < k < |log| ==> log[j].event.rowEnd <= log[k].event.rowStart
    ensures from <= MaxEnd(log, from)
  {
    hide Tiles, MaxEnd;
    TilesEnd(log, from);
    forall j, k | 0 <= j < k < |log|
      ensures log[j].event.rowEnd <= log[k].event.rowStart
    {
      TilesPair(log, from, j, k);
    }
    forall k | 0 <= k < |log|
      ensures from <= log[k].event.rowStart < log[k].event.rowEnd <= MaxEnd(log, from)
      ensures log[k].event.rowStart == MaxEnd(log[..k], from)
    {
      TilesAt(log, from, k);
      if k < |log| - 1 {
        TilesPair(log, from, k, |log| - 1);
        TilesAt(log, from, |log| - 1);
      }
    }
  }

  // ---- One batch -------------------------------------------------------------

  /** `build_batch`: the next range, or None where it raises. */
  function BuildBatch(rows: seq<Row>, previousEnd: Option<nat>, end: Option<nat>): Option<StagedEvent> {
    if !VerifyRows(rows, None).Intact? then None
    else
      var rowStart := if previousEnd.Some? then previousEnd.value else 0;
      var rowEnd := if end.Some? then end.value else |rows|;
      if rowEnd > |rows| || rowEnd <= rowStart then None
      else
        var covered := rows[rowStart..rowEnd];
        var leaves := SessionRoots(covered);
        if leaves == [] then None
        else Some(StagedEvent(rowStart, rowEnd, CommitmentTree.DayRoot(leaves), covered[|covered| - 1].h,
                              |leaves|, ItemTotal(covered), true))
  }

  /** `validate_batch` and, given the covered rows, `verify_batch`. */
  predicate VerifyBatch(event: StagedEvent, covered: seq<Row>) {
    var leaves := SessionRoots(covered);
    && event.signed && event.rowStart < event.rowEnd && event.sessionCount <= event.rowEnd - event.rowStart
    && |covered| == event.rowEnd - event.rowStart
    && |leaves| == event.sessionCount
    && leaves != [] && CommitmentTree.DayRoot(leaves) == event.root
    && covered[|covered| - 1].h == event.chainTip
  }

  lemma {:induction false} FewerRootsThanRows(rows: seq<Row>)
    ensures |SessionRoots(rows)| <= |rows|
  {
    if rows != [] {
      FewerRootsThanRows(rows[1..]);
    }
  }

  /** A batch that was built describes its rows, and verifies against them in every longer ledger. */
  lemma BuiltBatchVerifies(rows: seq<Row>, previousEnd: Option<nat>, end: Option<nat>, later: seq<Row>)
    requires BuildBatch(rows, previousEnd, end).Some? && rows <= later
    ensures var event := BuildBatch(rows, previousEnd, end).value;
            && event.rowStart == (if previousEnd.Some? then previousEnd.value else 0)
            && event.rowEnd == (if end.Some? then end.value else |rows|)
            && EventFits(rows, event) && EventFits(later, event)
            && VerifyBatch(event, later[event.rowStart..event.rowEnd])
  {
    var event := BuildBatch(rows, previousEnd, end).value;
    assert rows[event.rowStart..event.rowEnd] == later[event.rowStart..event.rowEnd];
    FewerRootsThanRows(rows[event.rowStart..event.rowEnd]);
  }

  /** `build_batch` raises exactly on a broken ledger, an empty range, a range past the end, or one
      without a session row. */
  lemma BatchRefusals(rows: seq<Row>, previousEnd: Option<nat>, end: Option<nat>)
    ensures var rowStart := if previousEnd.Some? then previousEnd.value else 0;
            var rowEnd := if end.Some? then end.value else |rows|;
            BuildBatch(rows, previousEnd, end).Some? <==>
              && Chain(rows) && rowStart < rowEnd <= |rows|
              && exists k :: rowStart <= k < rowEnd && rows[k].body.payload.Session?
  {
    IntactIffChain(rows);
    hide VerifyRows, Chain, SessionRoots;
    var rowStart := if previousEnd.Some? then previousEnd.value else 0;
    var rowEnd := if end.Some? then end.value else |rows|;
    if rowStart < rowEnd <= |rows| {
      RootsExist(rows[rowStart..rowEnd]);
      SessionBetween(rows, rowStart, rowEnd);
    }
  }

  lemma SessionBetween(rows: seq<Row>, from: nat, to: nat)
    requires from <= to <= |rows|
    ensures var covered := rows[from..to];
            (exists k :: 0 <= k < |covered| && covered[k].body.payload.Session?) <==>
              (exists k :: from <= k < to && rows[k].body.payload.Session?)
  {
    var covered := rows[from..to];
    assert forall k :: 0 <= k < |covered| ==> covered[k] == rows[from + k];
    if k :| 0 <= k < |covered| && covered[k].body.payload.Session? {
      assert rows[from + k].body.payload.Session?;
    }
    if m :| from <= m < to && rows[m].body.payload.Session? {
      assert covered[m - from].body.payload.Session?;
    }
  }

  lemma {:induction false} RootsExist(rows: seq<Row>)
    ensures SessionRoots(rows) != [] <==> exists k :: 0 <= k < |rows| && rows[k].body.payload.Session?
  {
    if rows != [] {
      RootsExist(rows[1..]);
      if k :| 0 <= k < |rows| && rows[k].body.payload.Session? {
        if k > 0 {
          assert rows[1..][k - 1].body.payload.Session?;
        }
      }
      if k :| 0 <= k < |rows[1..]| && rows[1..][k].body.payload.Session? {
        assert rows[k + 1].body.payload.Session?;
      }
    }
  }

  /** An event fixes the history behind it: any two ledgers whose covered rows verify against it
      agree on every row up to its end. */
  lemma EventFixesHistory(a: seq<Row>, b: seq<Row>, event: StagedEvent)
    requires Chain(a) && Chain(b) && 0 <= event.rowStart < event.rowEnd <= |a| && event.rowEnd <= |b|
    requires VerifyBatch(event, a[event.rowStart..event.rowEnd]) && VerifyBatch(event, b[event.rowStart..event.rowEnd])
    ensures a[..event.rowEnd] == b[..event.rowEnd]
  {
    var n := event.rowEnd;
    ChainPrefix(a, n);
    ChainPrefix(b, n);
    assert a[event.rowStart..n][n - event.rowStart - 1] == a[..n][n - 1];
    assert b[event.rowStart..n][n - event.rowStart - 1] == b[..n][n - 1];
    TipBinding(a[..n], b[..n]);
  }

  // ---- Cutting ---------------------------------------------------------------

  /** `cut`: one event a day, starting where the known events end; None where it raises. */
  function Cut(rows: seq<Row>, staging: seq<Dated>, clone: seq<Dated>, date: int): Option<Dated> {
    if HasDate(staging, date) || HasDate(clone, date) then None
    else
      var last := MaxEnd(clone, MaxEnd(staging, 0));
      match BuildBatch(rows, if last > 0 then Some(last) else None, None)
      case None => None
      case Some(event) => Some(Dated(date, event))
  }

  /** The largest `row_end` in two directories. */
  method KnownRowEnd(staging: seq<Dated>, clone: seq<Dated>) returns (last: int)
    ensures last == MaxEnd(clone, MaxEnd(staging, 0))
  {
    last := 0;
    var bases := [staging, clone];
    for b := 0 to 2
      invariant last == if b == 0 then 0 else if b == 1 then MaxEnd(staging, 0) else MaxEnd(clone, MaxEnd(staging, 0))
    {
      ghost var from := last;
      var base := bases[b];
      for k := 0 to |base|
        invariant last == MaxEnd(base[..k], from)
      {
        MaxEndStep(base, k, from);
        if base[k].event.rowEnd > last {
          last := base[k].event.rowEnd;
        }
      }
      assert base[..|base|] == base;
    }
  }

  // ---- Publishing ------------------------------------------------------------

  /** The clone's working files, of those the ones its index tracks, and of those the ones its commits
      hold.  A commit takes the whole index along. */
  datatype Clone = Clone(files: seq<Dated>, index: seq<Dated>, committed: seq<Dated>)

  /** Write the file, `git add` it, `git commit`. */
  function Committing(clone: Clone, e: Dated): Clone {
    Clone(Insert(clone.files, e), Insert(clone.index, e), Insert(clone.index, e))
  }

  datatype Published = Published(ok: bool, clone: Clone)

  function Find(log: seq<Dated>, date: int): (r: Option<Dated>)
    ensures r.Some? ==> r.value in log && r.value.date == date
    ensures r.None? <==> !HasDate(log, date)
  {
    if log == [] then None
    else if log[0].date == date then assert HasDate(log, date); Some(log[0])
    else
      var r := Find(log[1..], date);
      assert HasDate(log[1..], date) ==> HasDate(log, date) by {
        if k :| 0 <= k < |log[1..]| && log[1..][k].date == date {
          assert log[k + 1].date == date;
        }
      }
      assert HasDate(log, date) ==> HasDate(log[1..], date) by {
        if k :| 0 <= k < |log| && log[k].date == date {
          assert log[1..][k - 1].date == date;
        }
      }
      r
  }

  /** The event loop of `publish` over the staged events in order. */
  function PublishFrom(staging: seq<Dated>, clone: Clone): Published {
    if staging == [] then Published(true, clone)
    else
      match Find(clone.files, staging[0].date)
      case Some(existing) =>
        if existing != staging[0] then Published(false, clone) else PublishFrom(staging[1..], clone)
      case None =>
        if staging[0].event.rowStart != MaxEnd(clone.files, 0) then Published(false, clone)
        else PublishFrom(staging[1..], Committing(clone, staging[0]))
  }

  method Publish(staging: seq<Dated>, before: Clone) returns (r: Published)
    ensures r == PublishFrom(staging, before)
  {
    var clone := before;
    for k := 0 to |staging|
      invariant PublishFrom(staging[k..], clone) == PublishFrom(staging, before)
    {
      var e := staging[k];
      assert staging[k..][1..] == staging[k + 1..];
      var existing := Find(clone.files, e.date);
      if existing.Some? {
        if existing.value != e {
          return Published(false, clone);
        }
        continue;
      }
      var expectedStart := KnownRowEnd(clone.files, []);
      if e.event.rowStart != expectedStart {
        return Published(false, clone);
      }
      clone := Committing(clone, e);
    }
    r := Published(true, clone);
  }

  /** The clone once its files have grown from the first `n` to the first `m` staged events. */
  function Grown(staging: seq<Dated>, clone: Clone, n: nat, m: nat): Clone
    requires n <= m <= |staging|
  {
    var index := clone.index + staging[n..m];
    Clone(staging[..m], index, if n < m then index else clone.committed)
  }

  /** Publishing a tiling whose first `n` events are already there adds the rest and never trips. */
  lemma PublishTiling(staging: seq<Dated>, clone: Clone, n: nat)
    requires DatesIncrease(staging) && Tiles(staging, 0) && n <= |staging| && clone.files == staging[..n]
    requires forall e :: e in clone.index ==> e in clone.files
    ensures PublishFrom(staging, clone) == Published(true, Grown(staging, clone, n, |staging|))
  {
    PublishRest(staging, clone, n, 0);
  }

  lemma FindInPrefix(log: seq<Dated>, n: nat, k: nat)
    requires DatesIncrease(log) && k < n <= |log|
    ensures Find(log[..n], log[k].date) == Some(log[k])
  {
    assert log[..n][k] == log[k];
    assert HasDate(log[..n], log[k].date);
    var found := Find(log[..n], log[k].date).value;
    var j :| 0 <= j < n && log[..n][j] == found;
    assert log[j].date == log[k].date;
  }

  lemma NotInPrefix(log: seq<Dated>, n: nat)
    requires DatesIncrease(log) && n < |log|
    ensures Find(log[..n], log[n].date) == None && Insert(log[..n], log[n]) == log[..n + 1]
  {
    assert forall k :: 0 <= k < n ==> log[..n][k] == log[k];
    InsertLast(log[..n], log[n]);
    assert log[..n] + [log[n]] == log[..n + 1];
  }

  lemma {:induction false} PublishRest(staging: seq<Dated>, clone: Clone, n: nat, k: nat)
    requires DatesIncrease(staging) && Tiles(staging, 0) && k <= n <= |staging| && clone.files == staging[..n]
    requires forall e :: e in clone.index ==> e in clone.files
    ensures PublishFrom(staging[k..], clone) == Published(true, Grown(staging, clone, n, |staging|))
    decreases |staging| - k
  {
    hide Tiles, MaxEnd, Find, Insert;
    if k == |staging| {
      assert staging[..n] == staging && clone.index + staging[n..] == clone.index;
    } else {
      assert staging[k..][1..] == staging[k + 1..];
      if k < n {
        FindInPrefix(staging, n, k);
        PublishRest(staging, clone, n, k + 1);
      } else {
        NotInPrefix(staging, n);
        TilesAt(staging, 0, n);
        AllEarlier(staging, n, clone.index);
        InsertLast(clone.index, staging[n]);
        PublishRest(staging, Committing(clone, staging[n]), n + 1, k + 1);
        hide PublishFrom, DatesIncrease;
        GrownStep(staging, clone, n);
      }
    }
  }

  lemma GrownStep(staging: seq<Dated>, clone: Clone, n: nat)
    requires n < |staging| && Insert(clone.index, staging[n]) == clone.index + [staging[n]]
    ensures Grown(staging, Committing(clone, staging[n]), n + 1, |staging|) == Grown(staging, clone, n, |staging|)
  {
    hide Insert;
    var tail := staging[n + 1..|staging|];
    assert staging[n..|staging|] == [staging[n]] + tail;
    assert clone.index + [staging[n]] + tail == clone.index + ([staging[n]] + tail);
    assert n + 1 == |staging| ==> tail == [] && clone.index + [staging[n]] + tail == clone.index + [staging[n]];
  }

  lemma AllEarlier(staging: seq<Dated>, n: nat, part: seq<Dated>)
    requires DatesIncrease(staging) && n < |staging| && forall e :: e in part ==> e in staging[..n]
    ensures forall k :: 0 <= k < |part| ==> part[k].date < staging[n].date
  {
    forall k | 0 <= k < |part|
      ensures part[k].date < staging[n].date
    {
      assert part[k] in staging[..n];
    }
  }

  // ---- The two re-checks -----------------------------------------------------

  /** The verifier's loop over one identity's events: the dates that break continuity, and how far
      the rows are covered. */
  method VerifyContinuity(events: seq<Dated>) returns (failures: seq<int>, expected: int)
    ensures failures == [] <==> forall k :: 0 <= k < |events| ==> events[k].event.rowStart == MaxEnd(events[..k], 0)
    ensures expected == MaxEnd(events, 0)
  {
    failures, expected := [], 0;
    for k := 0 to |events|
      invariant expected == MaxEnd(events[..k], 0)
      invariant failures == [] <==> forall j :: 0 <= j < k ==> events[j].event.rowStart == MaxEnd(events[..j], 0)
    {
      if events[k].event.rowStart != expected {
        failures := failures + [events[k].date];
      }
      MaxEndStep(events, k, 0);
      expected := if expected > events[k].event.rowEnd then expected else events[k].event.rowEnd;
    }
    assert events[..|events|] == events;
  }

  /** With no empty range, the verifier finds no failure exactly when the ranges tile. */
  lemma {:induction false} NoFailureIffTiles(events: seq<Dated>, from: int)
    requires forall e :: e in events ==> e.event.rowStart < e.event.rowEnd
    ensures Tiles(events, from) <==>
            forall k :: 0 <= k < |events| ==> events[k].event.rowStart == MaxEnd(events[..k], from)
  {
    if events != [] {
      assert events[0] in events;
      var rest := events[1..];
      if Tiles(events, from) {
        TilesReads(events, from);
      }
      if forall k :: 0 <= k < |events| ==> events[k].event.rowStart == MaxEnd(events[..k], from) {
        assert events[..0] == [] && events[0].event.rowStart == from;
        forall k | 0 <= k < |rest|
          ensures rest[k].event.rowStart == MaxEnd(rest[..k], events[0].event.rowEnd)
        {
          assert events[k + 1] == rest[k] && events[..k + 1][1..] == rest[..k];
        }
        NoFailureIffTiles(rest, events[0].event.rowEnd);
      }
    }
  }

  /** The scorer's own chain check, which knows no provenance boundary. */
  ghost predicate PlainChain(rows: seq<Row>) {
    rows != [] && forall n :: 0 <= n < |rows| ==> PlainRow(rows, n)
  }

  predicate PlainRow(rows: seq<Row>, n: nat)
    requires n < |rows|
  {
    && rows[n].body.i == n
    && (rows[n].body.payload.Genesis? <==> n == 0)
    && rows[n].body.prev == PrevOf(rows, n)
    && rows[n].h == RowHash(rows[n].body)
  }

  method LedgerChainValid(rows: seq<Row>) returns (ok: bool)
    ensures ok <==> PlainChain(rows)
  {
    for index := 0 to |rows|
      invariant forall n :: 0 <= n < index ==> PlainRow(rows, n)
    {
      var row := rows[index];
      if row.body.i != index {
        assert !PlainRow(rows, index);
        return false;
      }
      if row.body.payload.Genesis? != (index == 0) {
        assert !PlainRow(rows, index);
        return false;
      }
      var expectedPrev := if index == 0 then GENESIS_PREV else rows[index - 1].h;
      if row.body.prev != expectedPrev || row.h != RowHash(row.body) {
        assert !PlainRow(rows, index);
        return false;
      }
    }
    ok := rows != [];
  }

  ghost predicate TipsMatch(rows: seq<Row>, anchors: seq<Dated>) {
    forall e :: e in anchors ==> 0 < e.event.rowEnd <= |rows| && e.event.chainTip == rows[e.event.rowEnd - 1].h
  }

  /** The scorer's continuity value on anchors it has sorted by range. */
  method AnchorChainContinuity(rows: seq<Row>, anchors: seq<Dated>) returns (ok: bool)
    requires forall e :: e in anchors ==> 0 <= e.event.rowStart < e.event.rowEnd <= |rows|
    ensures ok <==> anchors != [] && PlainChain(rows) && Tiles(anchors, 0) && TipsMatch(rows, anchors)
  {
    if anchors == [] {
      return false;
    }
    var valid := LedgerChainValid(rows);
    assert anchors[0] in anchors;
    if !valid || anchors[0].event.rowStart != 0 {
      return false;
    }
    var previousEnd := 0;
    for k := 0 to |anchors|
      invariant Tiles(anchors, 0) <==> Tiles(anchors[k..], previousEnd)
      invariant forall j :: 0 <= j < k ==> anchors[j].event.chainTip == rows[anchors[j].event.rowEnd - 1].h
    {
      var anchor := anchors[k];
      assert anchor in anchors;
      assert anchors[k..][0] == anchor && anchors[k..][1..] == anchors[k + 1..];
      if anchor.event.rowStart != previousEnd {
        return false;
      }
      if anchor.event.chainTip != rows[anchor.event.rowEnd - 1].h {
        return false;
      }
      previousEnd := anchor.event.rowEnd;
    }
    forall e | e in anchors
      ensures e.event.chainTip == rows[e.event.rowEnd - 1].h
    {
    }
    ok := true;
  }

  // ---- Whole histories -------------------------------------------------------

  /** The ledger, the staged events (which stay staged), the clone, and what was pushed. */
  datatype World = World(rows: seq<Row>, staging: seq<Dated>, clone: Clone, remote: seq<Dated>)

  const FIRST: World := World([], [], Clone([], [], []), [])

  datatype Act =
    | Append(rows: seq<Row>)              // anything else the ledger grows by, receipts included
    | CutDay(date: int)
    | PublishSome(upTo: nat, push: bool)  // the loop over the first `upTo` staged events, then the push if it got there
    | DieBeforeAdd(upTo: nat)             // death with the next event's file written and not yet added
    | DieBeforeCommit(upTo: nat)          // death with that file added and not yet committed
    | OtherCommit(push: bool)             // the commit of a record or of a proof

  ghost predicate Possible(w: World, act: Act) {
    match act
    case Append(rows) => w.rows <= rows && Chain(rows)
    case CutDay(_) => true
    case PublishSome(upTo, push) => upTo <= |w.staging|
    case DieBeforeAdd(upTo) => upTo < |w.staging|
    case DieBeforeCommit(upTo) => upTo < |w.staging|
    case OtherCommit(_) => true
  }

  /** The loop writes the file of this event. */
  predicate Writes(clone: Clone, e: Dated) {
    Find(clone.files, e.date).None? && e.event.rowStart == MaxEnd(clone.files, 0)
  }

  /** The event a death inside the loop leaves behind, if the loop got to write one. */
  function LeftBehind(w: World, upTo: nat): Option<Dated> {
    if upTo >= |w.staging| then None
    else
      var r := PublishFrom(w.staging[..upTo], w.clone);
      if r.ok && Writes(r.clone, w.staging[upTo]) then Some(w.staging[upTo]) else None
  }

  function Do(w: World, act: Act): World {
    match act
    case Append(rows) => w.(rows := rows)
    case CutDay(date) =>
      (match Cut(w.rows, w.staging, w.clone.files, date)
       case None => w
       case Some(e) => w.(staging := Insert(w.staging, e)))
    case PublishSome(upTo, push) =>
      if upTo > |w.staging| then w
      else
        var r := PublishFrom(w.staging[..upTo], w.clone);
        w.(clone := r.clone, remote := if push && r.ok then r.clone.committed else w.remote)
    case DieBeforeAdd(upTo) =>
      if upTo > |w.staging| then w
      else
        var clone := PublishFrom(w.staging[..upTo], w.clone).clone;
        var left := LeftBehind(w, upTo);
        w.(clone := if left.None? then clone else clone.(files := Insert(clone.files, left.value)))
    case DieBeforeCommit(upTo) =>
      if upTo > |w.staging| then w
      else
        var clone := PublishFrom(w.staging[..upTo], w.clone).clone;
        var left := LeftBehind(w, upTo);
        w.(clone := if left.None? then clone
                    else clone.(files := Insert(clone.files, left.value), index := Insert(clone.index, left.value)))
    case OtherCommit(push) =>
      w.(clone := w.clone.(committed := w.clone.index), remote := if push then w.clone.index else w.remote)
  }

  /** The dates an act orphans: their file is in the clone and no index tracks it. */
  function OrphanedBy(w: World, act: Act): set<int> {
    if act.DieBeforeAdd? && LeftBehind(w, act.upTo).Some? then {LeftBehind(w, act.upTo).value.date} else {}
  }

  /** The date of a cut comes after every date the identity already has. */
  ghost predicate Forward(w: World, act: Act) {
    act.CutDay? ==> forall e :: e in w.staging + w.clone.files ==> e.date < act.date
  }

  ghost predicate AllFit(rows: seq<Row>, log: seq<Dated>) {
    forall e :: e in log ==> EventFits(rows, e.event)
  }

  function Without(log: seq<Dated>, lost: set<int>): seq<Dated> {
    if log == [] then []
    else
      var last := log[|log| - 1];
      Without(log[..|log| - 1], lost) + (if last.date in lost then [] else [last])
  }

  lemma {:induction false} WithoutConcat(a: seq<Dated>, b: seq<Dated>, lost: set<int>)
    ensures Without(a + b, lost) == Without(a, lost) + Without(b, lost)
    decreases |b|
  {
    if b == [] {
      assert a + b == a;
    } else {
      assert (a + b)[..|a + b| - 1] == a + b[..|b| - 1];
      WithoutConcat(a, b[..|b| - 1], lost);
    }
  }

  lemma {:induction false} WithoutHas(log: seq<Dated>, lost: set<int>, e: Dated)
    ensures e in Without(log, lost) <==> e in log && e.date !in lost
  {
    if log != [] {
      WithoutHas(log[..|log| - 1], lost, e);
      assert log == log[..|log| - 1] + [log[|log| - 1]];
    }
  }

  lemma {:induction false} WithoutSame(log: seq<Dated>, lost: set<int>, more: set<int>)
    requires forall e :: e in log ==> (e.date in lost <==> e.date in more)
    ensures Without(log, lost) == Without(log, more)
  {
    if log != [] {
      WithoutSame(log[..|log| - 1], lost, more);
      assert log[|log| - 1] in log;
    }
  }

  lemma {:induction false} WithoutNone(log: seq<Dated>, lost: set<int>)
    requires forall e :: e in log ==> e.date !in lost
    ensures Without(log, lost) == log
  {
    if log != [] {
      WithoutNone(log[..|log| - 1], lost);
      assert log[|log| - 1] in log;
    }
  }

  ghost predicate Staged(w: World) {
    Chain(w.rows) && DatesIncrease(w.staging) && Tiles(w.staging, 0) && AllFit(w.rows, w.staging)
        && w.clone.files <= w.staging
  }

  /** The commits hold the first `c` staged events and the remote the first `r`, orphans aside. */
  ghost predicate Holds(w: World, lost: set<int>, c: nat, r: nat) {
    && r <= c <= |w.clone.files| <= |w.staging|
    && w.clone.committed == Without(w.staging[..c], lost)
    && w.remote == Without(w.staging[..r], lost)
  }

  ghost predicate Sound(w: World, lost: set<int>) {
    && Staged(w)
    && (forall d :: d in lost ==> HasDate(w.clone.files, d))
    && w.clone.index == Without(w.clone.files, lost)
    && exists c: nat, r: nat :: Holds(w, lost, c, r)
  }

  lemma FitsLater(rows: seq<Row>, later: seq<Row>, log: seq<Dated>)
    requires rows <= later && AllFit(rows, log)
    ensures AllFit(later, log)
  {
    forall e | e in log
      ensures EventFits(later, e.event)
    {
      assert EventFits(rows, e.event);
      assert rows[e.event.rowStart..e.event.rowEnd] == later[e.event.rowStart..e.event.rowEnd];
    }
  }

  /** Ends of a fitting tiling stay within the ledger, and no end in a prefix passes the last. */
  lemma EndWithinLedger(rows: seq<Row>, log: seq<Dated>, n: nat)
    requires AllFit(rows, log) && Tiles(log, 0) && n <= |log|
    ensures 0 <= MaxEnd(log, 0) <= |rows|
    ensures MaxEnd(log[..n], MaxEnd(log, 0)) == MaxEnd(log, 0)
  {
    TilesReads(log, 0);
    TilesEnd(log, 0);
    if log != [] {
      FitsWithin(rows, log, log[|log| - 1]);
    }
    hide Tiles, MaxEnd, EventFits, AllFit;
    MaxEndBelow(log[..n], MaxEnd(log, 0));
  }

  lemma FitsWithin(rows: seq<Row>, log: seq<Dated>, e: Dated)
    requires AllFit(rows, log) && e in log
    ensures 0 <= e.event.rowStart < e.event.rowEnd <= |rows|
    ensures e.event.chainTip == rows[e.event.rowEnd - 1].h
  {
    assert EventFits(rows, e.event);
    var covered := rows[e.event.rowStart..e.event.rowEnd];
    hide SessionRoots, ItemTotal, CommitmentTree.DayRoot;
    assert covered[|covered| - 1] == rows[e.event.rowEnd - 1];
  }

  lemma {:induction false} MaxEndBelow(log: seq<Dated>, from: int)
    requires forall k :: 0 <= k < |log| ==> log[k].event.rowEnd <= from
    ensures MaxEnd(log, from) == from
  {
    if log != [] {
      MaxEndBelow(log[1..], from);
    }
  }

  /** A forward cut continues exactly where the staged ranges end. */
  lemma CutExtends(w: World, date: int)
    requires Staged(w) && Forward(w, CutDay(date))
    ensures Staged(Do(w, CutDay(date))) && w.staging <= Do(w, CutDay(date)).staging
  {
    hide Tiles, MaxEnd, BuildBatch, EventFits;
    var cut := Cut(w.rows, w.staging, w.clone.files, date);
    if cut.Some? {
      var e := cut.value;
      var n := |w.clone.files|;
      assert w.staging[..n] == w.clone.files;
      EndWithinLedger(w.rows, w.staging, n);
      var last := MaxEnd(w.staging, 0);
      BuiltBatchVerifies(w.rows, if last > 0 then Some(last) else None, None, w.rows);
      forall k | 0 <= k < |w.staging|
        ensures w.staging[k].date < date
      {
        assert w.staging[k] in w.staging + w.clone.files;
      }
      InsertLast(w.staging, e);
      TilesConcat(w.staging, [e], 0);
      assert Tiles([e], last) by {
        OneTile(e, last);
      }
    }
  }

  lemma CutKeepsSound(w: World, lost: set<int>, date: int)
    requires Sound(w, lost) && Forward(w, CutDay(date))
    ensures Sound(Do(w, CutDay(date)), lost)
  {
    CutExtends(w, date);
    var after := Do(w, CutDay(date));
    assert after == w.(staging := after.staging);
    hide Staged, Cut, Do, Forward;
    LongerStaging(w, lost, after.staging);
  }

  lemma LongerStaging(w: World, lost: set<int>, staging: seq<Dated>)
    requires Sound(w, lost) && w.staging <= staging && Staged(w.(staging := staging))
    ensures Sound(w.(staging := staging), lost)
  {
    hide Staged, Without;
    var c: nat, r: nat :| Holds(w, lost, c, r);
    assert staging[..c] == w.staging[..c] && staging[..r] == w.staging[..r];
    assert Holds(w.(staging := staging), lost, c, r);
  }

  lemma OneTile(e: Dated, from: int)
    requires e.event.rowStart == from && from < e.event.rowEnd
    ensures Tiles([e], from)
  {
  }

  /** After a publish of the first `j` staged events the clone holds the longer prefix. */
  lemma PublishPrefix(w: World, j: nat)
    requires Staged(w) && j <= |w.staging| && forall e :: e in w.clone.index ==> e in w.clone.files
    ensures var n := |w.clone.files|;
            var m := if n > j then n else j;
            && PublishFrom(w.staging[..j], w.clone) == Published(true, Grown(w.staging, w.clone, n, m))
            && Grown(w.staging, w.clone, n, n) == w.clone
  {
    var part := w.staging[..j];
    var n := |w.clone.files|;
    assert w.staging[..n] == w.clone.files;
    assert w.clone.index + w.staging[n..n] == w.clone.index;
    if n <= j {
      PrefixTiles(w.staging, j);
      assert part[..n] == w.clone.files && part[n..j] == w.staging[n..j] && part[..j] == w.staging[..j];
      hide Tiles, DatesIncrease, AllFit, Chain, PublishFrom;
      PublishTiling(part, w.clone, n);
    } else {
      assert forall k :: 0 <= k < |part| ==> part[k] == w.clone.files[k];
      hide Tiles, AllFit, Chain, PublishFrom;
      PublishPresent(part, w.clone, w.staging);
    }
  }

  lemma PrefixTiles(log: seq<Dated>, n: nat)
    requires Tiles(log, 0) && DatesIncrease(log) && n <= |log|
    ensures Tiles(log[..n], 0) && DatesIncrease(log[..n])
  {
    TilesConcat(log[..n], log[n..], 0);
    assert log[..n] + log[n..] == log;
  }

  lemma IndexInFiles(w: World, lost: set<int>)
    requires Sound(w, lost)
    ensures forall e :: e in w.clone.index ==> e in w.clone.files
  {
    hide Staged;
    forall e | e in w.clone.index
      ensures e in w.clone.files
    {
      WithoutHas(w.clone.files, lost, e);
    }
  }

  lemma LaterDate(staging: seq<Dated>, p: nat, i: nat)
    requires DatesIncrease(staging) && p <= i < |staging|
    ensures !HasDate(staging[..p], staging[i].date)
  {
    assert forall k :: 0 <= k < p ==> staging[..p][k].date < staging[i].date;
  }

  /** Staged events beyond the clone's files are not orphans: no orphan has their date. */
  lemma NotLost(staging: seq<Dated>, files: seq<Dated>, lost: set<int>, n: nat, m: nat)
    requires DatesIncrease(staging) && files <= staging && |files| <= n <= m <= |staging|
    requires forall d :: d in lost ==> HasDate(files, d)
    ensures Without(staging[n..m], lost) == staging[n..m]
    ensures Without(staging[..m], lost) == Without(staging[..n], lost) + staging[n..m]
  {
    NoneLost(staging, files, lost, n, m);
    hide HasDate, DatesIncrease, Without;
    WithoutNone(staging[n..m], lost);
    WithoutConcat(staging[..n], staging[n..m], lost);
    assert staging[..n] + staging[n..m] == staging[..m];
  }

  lemma NoneLost(staging: seq<Dated>, files: seq<Dated>, lost: set<int>, n: nat, m: nat)
    requires DatesIncrease(staging) && files <= staging && |files| <= n <= m <= |staging|
    requires forall d :: d in lost ==> HasDate(files, d)
    ensures forall e :: e in staging[n..m] ==> e.date !in lost
  {
    var p := |files|;
    assert files == staging[..p];
    forall e | e in staging[n..m]
      ensures e.date !in lost
    {
      var i :| n <= i < m && staging[i] == e;
      LaterDate(staging, p, i);
    }
  }

  lemma GrownCommits(w: World, lost: set<int>, n: nat, m: nat, push: bool, c: nat, r: nat)
    requires n == |w.clone.files| <= m <= |w.staging| && Holds(w, lost, c, r)
    requires w.clone.index + w.staging[n..m] == Without(w.staging[..m], lost)
    ensures var clone := Grown(w.staging, w.clone, n, m);
            var c' := if n < m then m else c;
            Holds(w.(clone := clone, remote := if push then clone.committed else w.remote), lost, c',
                  if push then c' else r)
  {
    hide Without;
  }

  lemma StillStaged(w: World, clone: Clone, remote: seq<Dated>)
    requires Staged(w) && clone.files <= w.staging
    ensures Staged(w.(clone := clone, remote := remote)) && DatesIncrease(w.staging) && w.clone.files <= w.staging
  {
    hide Tiles, AllFit, Chain, DatesIncrease;
  }

  lemma Assembled(w: World, lost: set<int>, c: nat, r: nat)
    requires Staged(w) && w.clone.index == Without(w.clone.files, lost) && Holds(w, lost, c, r)
    requires forall d :: d in lost ==> HasDate(w.clone.files, d)
    ensures Sound(w, lost)
  {
    hide Staged, Holds, Without, HasDate;
  }

  /** The clone after more files, and what of it the orphans leave out. */
  lemma GrownHolds(w: World, lost: set<int>, m: nat, push: bool)
    requires Sound(w, lost) && |w.clone.files| <= m <= |w.staging|
    ensures var clone := Grown(w.staging, w.clone, |w.clone.files|, m);
            Sound(w.(clone := clone, remote := if push then clone.committed else w.remote), lost)
  {
    var n := |w.clone.files|;
    var clone := Grown(w.staging, w.clone, n, m);
    var remote := if push then clone.committed else w.remote;
    var c: nat, r: nat :| Holds(w, lost, c, r);
    var c' := if n < m then m else c;
    var after := w.(clone := clone, remote := remote);
    assert Staged(w) && w.staging[..n] == w.clone.files && clone.files == w.staging[..m]
           && w.clone.files <= clone.files;
    hide *;
    StillStaged(w, clone, remote);
    NotLost(w.staging, w.clone.files, lost, n, m);
    GrownCommits(w, lost, n, m, push, c, r);
    DatesStay(w.clone.files, clone.files, lost);
    Assembled(after, lost, c', if push then c' else r);
  }

  lemma DatesStay(log: seq<Dated>, more: seq<Dated>, dates: set<int>)
    requires log <= more && forall d :: d in dates ==> HasDate(log, d)
    ensures forall d :: d in dates ==> HasDate(more, d)
  {
    hide HasDate;
    forall d | d in dates
      ensures HasDate(more, d)
    {
      DateStays(log, more, d);
    }
  }

  /** What the loop over the first `upTo` staged events leaves, killed after it or pushed. */
  lemma PublishKeepsSound(w: World, lost: set<int>, upTo: nat, push: bool)
    requires Sound(w, lost) && upTo <= |w.staging|
    ensures Sound(Do(w, PublishSome(upTo, push)), lost)
    ensures PublishFrom(w.staging[..upTo], w.clone).ok
    ensures |Do(w, PublishSome(upTo, push)).clone.files| >= upTo
  {
    IndexInFiles(w, lost);
    PublishPrefix(w, upTo);
    var n := |w.clone.files|;
    assert w.clone.files <= w.staging;
    GrownHolds(w, lost, if n > upTo then n else upTo, push);
    hide Sound, Staged, PublishFrom, Tiles;
  }

  lemma DateStays(log: seq<Dated>, more: seq<Dated>, d: int)
    requires log <= more && HasDate(log, d)
    ensures HasDate(more, d)
  {
    var k :| 0 <= k < |log| && log[k].date == d;
    assert more[k].date == d;
  }

  lemma {:induction false} PublishPresent(part: seq<Dated>, clone: Clone, staging: seq<Dated>)
    requires DatesIncrease(staging) && clone.files <= staging
    requires forall k :: 0 <= k < |part| ==> part[k] in clone.files
    ensures PublishFrom(part, clone) == Published(true, clone)
  {
    if part != [] {
      assert part[0] in clone.files;
      var j :| 0 <= j < |clone.files| && clone.files[j] == part[0];
      assert HasDate(clone.files, part[0].date);
      var found := Find(clone.files, part[0].date).value;
      var m :| 0 <= m < |clone.files| && clone.files[m] == found;
      assert staging[m] == found && staging[j] == part[0];
      assert m == j;
      PublishPresent(part[1..], clone, staging);
    }
  }

  /** In a sound world a death inside the loop leaves behind the first event the clone lacks. */
  lemma LeavesNext(w: World, lost: set<int>, upTo: nat)
    requires Sound(w, lost) && upTo < |w.staging|
    ensures LeftBehind(w, upTo) == if |w.clone.files| <= upTo then Some(w.staging[upTo]) else None
    ensures |w.clone.files| <= upTo ==>
              Insert(Do(w, PublishSome(upTo, false)).clone.files, w.staging[upTo]) == w.staging[..upTo + 1]
  {
    IndexInFiles(w, lost);
    PublishPrefix(w, upTo);
    var n := |w.clone.files|;
    assert w.staging[..n] == w.clone.files;
    hide PublishFrom, AllFit, Chain;
    TilesAt(w.staging, 0, upTo);
    if n <= upTo {
      NotInPrefix(w.staging, upTo);
    } else {
      FindInPrefix(w.staging, n, upTo);
    }
  }

  /** A death is the loop so far, and the file it left behind. */
  lemma DieUnfolds(w: World, upTo: nat, added: bool)
    requires upTo < |w.staging|
    ensures var act := if added then DieBeforeCommit(upTo) else DieBeforeAdd(upTo);
            var mid := Do(w, PublishSome(upTo, false));
            match LeftBehind(w, upTo)
            case None => Do(w, act) == mid && OrphanedBy(w, act) == {}
            case Some(e) =>
              && Do(w, act) == mid.(clone := Clone(Insert(mid.clone.files, e),
                                                   if added then Insert(mid.clone.index, e) else mid.clone.index,
                                                   mid.clone.committed))
              && OrphanedBy(w, act) == if added then {} else {e.date}
  {
    hide PublishFrom, LeftBehind, Insert;
  }

  lemma DieKeepsSound(w: World, lost: set<int>, upTo: nat, added: bool)
    requires Sound(w, lost) && upTo < |w.staging|
    ensures var act := if added then DieBeforeCommit(upTo) else DieBeforeAdd(upTo);
            Sound(Do(w, act), lost + OrphanedBy(w, act))
  {
    var mid := Do(w, PublishSome(upTo, false));
    PublishKeepsSound(w, lost, upTo, false);
    LeavesNext(w, lost, upTo);
    IndexInFiles(w, lost);
    PublishPrefix(w, upTo);
    var n := |w.clone.files|;
    assert w.staging[..n] == w.clone.files;
    assert n <= upTo ==> mid.clone.files == w.staging[..upTo] && mid.staging == w.staging;
    hide *;
    DieUnfolds(w, upTo, added);
    assert lost + {} == lost;
    if n <= upTo {
      NextLeft(mid, lost, w.staging[upTo], upTo, added);
    }
  }

  lemma NextDates(mid: World, lost: set<int>, e: Dated, n: nat, lost': set<int>)
    requires n < |mid.staging| && mid.staging[n] == e && mid.clone.files == mid.staging[..n]
    requires lost' == lost || lost' == lost + {e.date}
    requires forall d :: d in lost ==> HasDate(mid.clone.files, d)
    ensures forall d :: d in lost' ==> HasDate(mid.staging[..n + 1], d)
  {
    var files := mid.staging[..n + 1];
    assert mid.clone.files <= files && files[n].date == e.date;
    forall d | d in lost'
      ensures HasDate(files, d)
    {
      if d in lost {
        DateStays(mid.clone.files, files, d);
      }
    }
  }

  lemma NextStaged(mid: World, n: nat, clone: Clone)
    requires Staged(mid) && n < |mid.staging| && clone.files == mid.staging[..n + 1]
    ensures Staged(mid.(clone := clone)) && DatesIncrease(mid.staging)
  {
    hide AllFit, Chain, DatesIncrease, Tiles;
  }

  /** The event after the clone's files appears in them, tracked or orphaned. */
  lemma NextLeft(mid: World, lost: set<int>, e: Dated, n: nat, added: bool)
    requires Sound(mid, lost) && n < |mid.staging| && mid.staging[n] == e && mid.clone.files == mid.staging[..n]
    ensures var index := if added then Insert(mid.clone.index, e) else mid.clone.index;
            var after := mid.(clone := Clone(mid.staging[..n + 1], index, mid.clone.committed));
            Sound(after, if added then lost else lost + {e.date})
  {
    hide Staged, Insert, Without, Holds, DatesIncrease, HasDate;
    var lost' := if added then lost else lost + {e.date};
    var index := if added then Insert(mid.clone.index, e) else mid.clone.index;
    var clone := Clone(mid.staging[..n + 1], index, mid.clone.committed);
    NextStaged(mid, n, clone);
    NextDates(mid, lost, e, n, lost');
    NextIndex(mid, lost, e, n, added);
    var c: nat, r: nat :| Holds(mid, lost, c, r);
    NextCommits(mid, lost, e, n, clone, lost', c, r);
  }

  lemma NextCommits(mid: World, lost: set<int>, e: Dated, n: nat, clone: Clone, lost': set<int>, c: nat, r: nat)
    requires DatesIncrease(mid.staging) && n < |mid.staging| && mid.staging[n] == e
             && mid.clone.files == mid.staging[..n]
    requires clone.files == mid.staging[..n + 1] && clone.committed == mid.clone.committed
    requires (lost' == lost || lost' == lost + {e.date}) && Holds(mid, lost, c, r)
    ensures Holds(mid.(clone := clone), lost', c, r)
  {
    SameUpTo(mid, lost, e, n, lost');
    hide DatesIncrease, Without;
  }

  lemma NextIndex(mid: World, lost: set<int>, e: Dated, n: nat, added: bool)
    requires Sound(mid, lost) && n < |mid.staging| && mid.staging[n] == e && mid.clone.files == mid.staging[..n]
    ensures Without(mid.staging[..n + 1], if added then lost else lost + {e.date}) ==
            if added then Insert(mid.clone.index, e) else mid.clone.index
  {
    hide Tiles, AllFit, Chain, Insert;
    IndexInFiles(mid, lost);
    AllEarlier(mid.staging, n, mid.clone.index);
    InsertLast(mid.clone.index, e);
    LaterDate(mid.staging, n, n);
    SameUpTo(mid, lost, e, n, if added then lost else lost + {e.date});
    hide DatesIncrease, HasDate;
    assert mid.staging[..n + 1][..n] == mid.staging[..n];
  }

  /** A new orphan changes nothing before it. */
  lemma SameUpTo(w: World, lost: set<int>, e: Dated, n: nat, lost': set<int>)
    requires DatesIncrease(w.staging) && n < |w.staging| && w.staging[n] == e
             && (lost' == lost || lost' == lost + {e.date})
    ensures forall k: nat :: k <= n ==> Without(w.staging[..k], lost') == Without(w.staging[..k], lost)
  {
    forall k: nat | k <= n
      ensures Without(w.staging[..k], lost') == Without(w.staging[..k], lost)
    {
      WithoutSame(w.staging[..k], lost, lost');
    }
  }

  lemma OtherCommitKeepsSound(w: World, lost: set<int>, push: bool)
    requires Sound(w, lost)
    ensures Sound(Do(w, OtherCommit(push)), lost)
  {
    hide Tiles, AllFit, Chain, DatesIncrease;
    var c: nat, r: nat :| Holds(w, lost, c, r);
    var n := |w.clone.files|;
    assert w.staging[..n] == w.clone.files;
    assert Holds(Do(w, OtherCommit(push)), lost, n, if push then n else r);
  }

  lemma ActKeepsSound(w: World, lost: set<int>, act: Act)
    requires Sound(w, lost) && Possible(w, act) && Forward(w, act)
    ensures Sound(Do(w, act), lost + OrphanedBy(w, act))
    ensures act.PublishSome? ==> PublishFrom(w.staging[..act.upTo], w.clone).ok
  {
    assert lost + {} == lost;
    match act {
      case Append(rows) => AppendKeepsSound(w, lost, rows);
      case CutDay(date) => CutKeepsSound(w, lost, date);
      case PublishSome(upTo, push) => PublishKeepsSound(w, lost, upTo, push);
      case DieBeforeAdd(upTo) => DieKeepsSound(w, lost, upTo, false);
      case DieBeforeCommit(upTo) => DieKeepsSound(w, lost, upTo, true);
      case OtherCommit(push) => OtherCommitKeepsSound(w, lost, push);
    }
  }

  lemma AppendKeepsSound(w: World, lost: set<int>, rows: seq<Row>)
    requires Sound(w, lost) && w.rows <= rows && Chain(rows)
    ensures Sound(w.(rows := rows), lost)
  {
    FitsLater(w.rows, rows, w.staging);
    hide Tiles, AllFit, Chain, DatesIncrease;
    var c: nat, r: nat :| Holds(w, lost, c, r);
    assert Holds(w.(rows := rows), lost, c, r);
  }

  ghost predicate History(ws: seq<World>, acts: seq<Act>) {
    && |ws| == |acts| + 1 && ws[0] == FIRST
    && forall k :: 0 <= k < |acts| ==> Possible(ws[k], acts[k]) && ws[k + 1] == Do(ws[k], acts[k])
  }

  /** The dates orphaned by the first `n` acts. */
  function Orphans(ws: seq<World>, acts: seq<Act>, n: nat): set<int>
    requires n <= |acts| < |ws|
  {
    if n == 0 then {} else Orphans(ws, acts, n - 1) + OrphanedBy(ws[n - 1], acts[n - 1])
  }

  lemma {:induction false} HistorySound(ws: seq<World>, acts: seq<Act>, n: nat)
    requires History(ws, acts) && n < |ws|
    requires forall k :: 0 <= k < |acts| ==> Forward(ws[k], acts[k])
    ensures Sound(ws[n], Orphans(ws, acts, n))
  {
    if n > 0 {
      HistorySound(ws, acts, n - 1);
      ActKeepsSound(ws[n - 1], Orphans(ws, acts, n - 1), acts[n - 1]);
    } else {
      assert Holds(FIRST, {}, 0, 0);
    }
  }

  // ---- When the published ranges tile ----------------------------------------

  /** A later event was pushed than one that was orphaned. */
  ghost predicate Gap(lost: set<int>, log: seq<Dated>) {
    exists d, e :: d in lost && e in log && d < e.date
  }

  lemma {:induction false} MaxEndAtMost(log: seq<Dated>, from: int, bound: int)
    requires from <= bound && forall e :: e in log ==> e.event.rowEnd <= bound
    ensures MaxEnd(log, from) <= bound
  {
    if log != [] {
      assert log[0] in log;
      MaxEndAtMost(log[1..], if log[0].event.rowEnd > from then log[0].event.rowEnd else from, bound);
    }
  }

  /** A prefix of a tiling, orphans aside, tiles exactly when nothing in it is later than an orphan. */
  lemma {:induction false} WithoutTilesIff(staging: seq<Dated>, lost: set<int>, r: nat)
    requires DatesIncrease(staging) && Tiles(staging, 0) && r <= |staging|
    requires forall d :: d in lost ==> HasDate(staging, d)
    ensures Tiles(Without(staging[..r], lost), 0) <==> !Gap(lost, Without(staging[..r], lost))
  {
    if r > 0 {
      hide Tiles, MaxEnd, HasDate;
      WithoutTilesIff(staging, lost, r - 1);
      var e := staging[r - 1];
      var before, after := Without(staging[..r - 1], lost), Without(staging[..r], lost);
      assert staging[..r][..r - 1] == staging[..r - 1];
      TilesAt(staging, 0, r - 1);
      OneTileIff(e, MaxEnd(before, 0));
      if e.date in lost {
        assert after == before;
      } else {
        assert after == before + [e];
        TilesConcat(before, [e], 0);
        if Gap(lost, before) {
          GapStays(lost, before, e);
        } else if d :| d in lost && d < e.date {
          OrphanLeavesHole(staging, lost, r - 1, d);
          assert e in after;
          assert Gap(lost, after);
        } else {
          NothingLostBefore(staging, lost, r - 1);
          NoGapBefore(lost, before, e);
        }
      }
    } else {
      assert Without(staging[..r], lost) == [];
    }
  }

  lemma OneTileIff(e: Dated, from: int)
    requires e.event.rowStart < e.event.rowEnd
    ensures Tiles([e], from) <==> e.event.rowStart == from
  {
  }

  lemma GapStays(lost: set<int>, log: seq<Dated>, e: Dated)
    requires Gap(lost, log)
    ensures Gap(lost, log + [e])
  {
    var d, o :| d in lost && o in log && d < o.date;
    assert o in log + [e];
  }

  lemma NoGapBefore(lost: set<int>, log: seq<Dated>, e: Dated)
    requires !Gap(lost, log) && forall d :: d in lost ==> e.date <= d
    ensures !Gap(lost, log + [e])
  {
  }

  /** When nothing held is later than an orphan, what is held ends before the orphan begins. */
  lemma OrphanLeavesHole(staging: seq<Dated>, lost: set<int>, n: nat, d: int)
    requires DatesIncrease(staging) && Tiles(staging, 0) && n < |staging| && d in lost && d < staging[n].date
    requires HasDate(staging, d) && !Gap(lost, Without(staging[..n], lost))
    ensures MaxEnd(Without(staging[..n], lost), 0) < staging[n].event.rowStart
  {
    var log := Without(staging[..n], lost);
    var k :| 0 <= k < |staging| && staging[k].date == d;
    assert k < n;
    TilesReads(staging, 0);
    TilesAt(staging, 0, k);
    forall e | e in log
      ensures e.event.rowEnd <= staging[k].event.rowStart
    {
      WithoutHas(staging[..n], lost, e);
      var j :| 0 <= j < n && staging[j] == e;
      assert e.date <= d && e.date != d;
      assert j < k;
    }
    hide Tiles, MaxEnd;
    MaxEndAtMost(log, 0, staging[k].event.rowStart);
  }

  lemma NothingLostBefore(staging: seq<Dated>, lost: set<int>, n: nat)
    requires DatesIncrease(staging) && Tiles(staging, 0) && n < |staging|
    requires forall d :: d in lost ==> staging[n].date <= d
    ensures Without(staging[..n], lost) == staging[..n]
    ensures MaxEnd(staging[..n], 0) == staging[n].event.rowStart && Tiles(staging[..n], 0)
  {
    WithoutNone(staging[..n], lost);
    TilesAt(staging, 0, n);
    PrefixTiles(staging, n);
  }

  /** For any history of appends, forward cuts, publishes, commits and deaths: `publish` never trips
      its own continuity check, every pushed event fits the ledger then and every longer one, and what
      is pushed tiles the rows from 0 with no gap or overlap exactly when no event was orphaned by a
      death before its `git add` and followed by a later one that was pushed. */
  lemma ContinuityIff(ws: seq<World>, acts: seq<Act>, n: nat, later: seq<Row>)
    requires History(ws, acts) && n < |ws|
    requires forall k :: 0 <= k < |acts| ==> Forward(ws[k], acts[k])
    requires ws[n].rows <= later && Chain(later)
    ensures Tiles(ws[n].remote, 0) <==> !Gap(Orphans(ws, acts, n), ws[n].remote)
    ensures forall upTo: nat :: upTo <= |ws[n].staging| ==> PublishFrom(ws[n].staging[..upTo], ws[n].clone).ok
    ensures ws[n].remote != [] ==> PlainChain(later) && TipsMatch(later, ws[n].remote)
    ensures AllFit(later, ws[n].remote)
  {
    HistorySound(ws, acts, n);
    var w, lost := ws[n], Orphans(ws, acts, n);
    var c: nat, r: nat :| Holds(w, lost, c, r);
    forall upTo: nat | upTo <= |w.staging|
      ensures PublishFrom(w.staging[..upTo], w.clone).ok
    {
      PublishKeepsSound(w, lost, upTo, false);
    }
    hide Tiles, Chain, PlainChain, TipsMatch, DatesIncrease, EventFits, PublishFrom;
    forall d | d in lost
      ensures HasDate(w.staging, d)
    {
      DateStays(w.clone.files, w.staging, d);
    }
    WithoutTilesIff(w.staging, lost, r);
    forall e | e in w.remote
      ensures e in w.staging
    {
      WithoutHas(w.staging[..r], lost, e);
    }
    FitsLater(w.rows, later, w.remote);
    if w.remote != [] {
      FitsNonEmpty(later, w.remote);
    }
  }

  /** Without a death before a `git add` the verifier's loop finds no failure and the scorer's value is
      true, then and under every later append. */
  lemma ContinuityTheorem(ws: seq<World>, acts: seq<Act>, n: nat, later: seq<Row>)
    requires History(ws, acts) && n < |ws|
    requires forall k :: 0 <= k < |acts| ==> Forward(ws[k], acts[k]) && !acts[k].DieBeforeAdd?
    requires ws[n].rows <= later && Chain(later)
    ensures Tiles(ws[n].remote, 0)
    ensures forall k :: 0 <= k < |ws[n].remote| ==> ws[n].remote[k].event.rowStart == MaxEnd(ws[n].remote[..k], 0)
    ensures ws[n].remote != [] ==> PlainChain(later) && TipsMatch(later, ws[n].remote)
  {
    ContinuityIff(ws, acts, n, later);
    NoOrphans(ws, acts, n);
    TilesReads(ws[n].remote, 0);
  }

  lemma {:induction false} NoOrphans(ws: seq<World>, acts: seq<Act>, n: nat)
    requires n <= |acts| < |ws| && forall k :: 0 <= k < |acts| ==> !acts[k].DieBeforeAdd?
    ensures Orphans(ws, acts, n) == {}
  {
    if n > 0 {
      NoOrphans(ws, acts, n - 1);
    }
  }

  lemma FitsNonEmpty(rows: seq<Row>, log: seq<Dated>)
    requires AllFit(rows, log) && log != [] && Chain(rows)
    ensures PlainChain(rows) && TipsMatch(rows, log)
  {
    hide AllFit, EventFits, PlainRow, Chain;
    ChainIsPlain(rows);
    forall e | e in log
      ensures 0 < e.event.rowEnd <= |rows| && e.event.chainTip == rows[e.event.rowEnd - 1].h
    {
      FitsWithin(rows, log, e);
    }
    FitsWithin(rows, log, log[0]);
  }

  lemma ChainIsPlain(rows: seq<Row>)
    requires Chain(rows)
    ensures forall n :: 0 <= n < |rows| ==> PlainRow(rows, n)
  {
    hide PrevOf, VersionHolds, BoundaryBefore;
    forall n | 0 <= n < |rows|
      ensures PlainRow(rows, n)
    {
      assert InPlace(rows, n);
    }
  }

  // ---- Dates that go backwards -----------------------------------------------

  lemma {:induction false} InsertSplits(log: seq<Dated>, e: Dated) returns (j: nat)
    ensures j <= |log| && Insert(log, e) == log[..j] + [e] + log[j..]
    ensures forall k :: 0 <= k < j ==> log[k].date <= e.date
    ensures j < |log| ==> e.date < log[j].date
  {
    if log == [] || e.date < log[0].date {
      j := 0;
    } else {
      var i := InsertSplits(log[1..], e);
      j := i + 1;
      assert log[..j] == [log[0]] + log[1..][..i] && log[j..] == log[1..][i..];
    }
  }

  /** In a tiling every proper prefix ends before the whole does. */
  lemma PrefixEndsEarlier(log: seq<Dated>, n: nat)
    requires Tiles(log, 0) && n <= |log|
    ensures MaxEnd(log[..n], 0) == MaxEnd(log, 0) <==> n == |log|
    ensures n < |log| ==> MaxEnd(log[..n], 0) == log[n].event.rowStart
  {
    TilesReads(log, 0);
    if n == |log| {
      assert log[..n] == log;
    }
  }

  /** What the cut of a sound world puts on disk: a range that starts where all known ranges end. */
  lemma CutStartsAtEnd(w: World, date: int)
    requires Staged(w) && Cut(w.rows, w.staging, w.clone.files, date).Some?
    ensures var e := Cut(w.rows, w.staging, w.clone.files, date).value;
            && e.date == date && e.event.rowStart == MaxEnd(w.staging, 0) < e.event.rowEnd
            && !HasDate(w.staging, date)
  {
    hide Tiles, MaxEnd, BuildBatch, EventFits;
    var n := |w.clone.files|;
    assert w.staging[..n] == w.clone.files;
    EndWithinLedger(w.rows, w.staging, n);
    var last := MaxEnd(w.staging, 0);
    BuiltBatchVerifies(w.rows, if last > 0 then Some(last) else None, None, w.rows);
  }

  lemma MisplacedBreaks(log: seq<Dated>, e: Dated, j: nat)
    requires Tiles(log, 0) && j < |log| && e.event.rowStart == MaxEnd(log, 0)
    ensures !Tiles(log[..j] + [e] + log[j..], 0)
  {
    PrefixEndsEarlier(log, j);
    var rest := [e] + log[j..];
    assert !Tiles(rest, MaxEnd(log[..j], 0));
    hide Tiles, MaxEnd;
    assert log[..j] + [e] + log[j..] == log[..j] + rest;
    TilesConcat(log[..j], rest, 0);
  }

  /** A date is forward exactly when its file lists last. */
  lemma ForwardIffLast(w: World, e: Dated, j: nat)
    requires w.clone.files <= w.staging && !HasDate(w.staging, e.date) && j <= |w.staging|
    requires forall k :: 0 <= k < j ==> w.staging[k].date <= e.date
    requires j < |w.staging| ==> e.date < w.staging[j].date
    ensures Forward(w, CutDay(e.date)) <==> j == |w.staging|
  {
    if j == |w.staging| {
      forall d | d in w.staging + w.clone.files
        ensures d.date < e.date
      {
        assert d in w.staging;
        var k :| 0 <= k < |w.staging| && w.staging[k] == d;
        assert w.staging[k].date != e.date;
      }
    } else {
      assert w.staging[j] in w.staging + w.clone.files;
    }
  }

  /** The date-ordered listing tiles after a cut if and only if the cut's date is the latest. */
  lemma TilesIffForward(w: World, date: int)
    requires Staged(w) && Cut(w.rows, w.staging, w.clone.files, date).Some?
    ensures var e := Cut(w.rows, w.staging, w.clone.files, date).value;
            Tiles(Insert(w.staging, e), 0) <==> Forward(w, CutDay(date))
  {
    CutStartsAtEnd(w, date);
    var e := Cut(w.rows, w.staging, w.clone.files, date).value;
    if Forward(w, CutDay(date)) {
      CutExtends(w, date);
    } else {
      hide Tiles, MaxEnd, Cut, Forward, HasDate, Insert, AllFit;
      var j := InsertSplits(w.staging, e);
      ForwardIffLast(w, e, j);
      MisplacedBreaks(w.staging, e, j);
    }
  }

  /** In row order, as the scorer lists events, every cut tiles, whatever its date. */
  lemma RowOrderTiles(w: World, date: int)
    requires Staged(w) && Cut(w.rows, w.staging, w.clone.files, date).Some?
    ensures Tiles(w.staging + [Cut(w.rows, w.staging, w.clone.files, date).value], 0)
  {
    hide Cut;
    CutStartsAtEnd(w, date);
    var e := Cut(w.rows, w.staging, w.clone.files, date).value;
    OneTile(e, MaxEnd(w.staging, 0));
    TilesConcat(w.staging, [e], 0);
  }

  lemma {:induction false} PublishConcat(a: seq<Dated>, b: seq<Dated>, clone: Clone)
    ensures var first := PublishFrom(a, clone);
            PublishFrom(a + b, clone) == if first.ok then PublishFrom(b, first.clone) else first
  {
    if a == [] {
      assert a + b == b;
    } else {
      assert (a + b)[1..] == a[1..] + b;
      if Find(clone.files, a[0].date).Some? {
        PublishConcat(a[1..], b, clone);
      } else {
        PublishConcat(a[1..], b, Committing(clone, a[0]));
      }
    }
  }

  lemma {:induction false} PublishListed(part: seq<Dated>, clone: Clone)
    requires forall k :: 0 <= k < |part| ==> Find(clone.files, part[k].date) == Some(part[k])
    ensures PublishFrom(part, clone) == Published(true, clone)
  {
    if part != [] {
      assert Find(clone.files, part[0].date) == Some(part[0]);
      PublishListed(part[1..], clone);
    }
  }

  lemma {:induction false} FindInserted(log: seq<Dated>, e: Dated, d: Dated)
    requires Find(log, d.date) == Some(d) && e.date != d.date
    ensures Find(Insert(log, e), d.date) == Some(d)
  {
    if log != [] && !(e.date < log[0].date) && log[0].date != d.date {
      FindInserted(log[1..], e, d);
    }
  }

  lemma {:induction false} FindOwn(log: seq<Dated>, k: nat)
    requires DatesIncrease(log) && k < |log|
    ensures Find(log, log[k].date) == Some(log[k])
  {
    if k > 0 {
      FindOwn(log[1..], k - 1);
    }
  }

  /** The event loop at a new file: it asks for the end of what the clone holds. */
  lemma PublishNew(e: Dated, rest: seq<Dated>, clone: Clone)
    requires !HasDate(clone.files, e.date)
    ensures PublishFrom([e] + rest, clone) ==
            if e.event.rowStart != MaxEnd(clone.files, 0) then Published(false, clone)
            else PublishFrom(rest, Committing(clone, e))
  {
    assert ([e] + rest)[1..] == rest;
  }

  lemma PublishAroundInserted(log: seq<Dated>, e: Dated, j: nat, clone: Clone)
    requires DatesIncrease(log) && !HasDate(log, e.date) && j <= |log| && clone.files == Insert(log, e)
    ensures PublishFrom(log[j..], clone).ok
  {
    var rest := log[j..];
    forall k | 0 <= k < |rest|
      ensures Find(Insert(log, e), rest[k].date) == Some(rest[k])
    {
      FindOwn(log, j + k);
      assert log[j + k].date != e.date;
      FindInserted(log, e, rest[k]);
    }
    PublishListed(rest, clone);
  }

  /** The loop over a listing with one inserted event, from the clone state at its turn. */
  lemma PublishAtTurn(staging: seq<Dated>, e: Dated, j: nat, m: nat, clone: Clone)
    requires DatesIncrease(staging) && Tiles(staging, 0) && !HasDate(staging, e.date)
    requires e.event.rowStart == MaxEnd(staging, 0) && j <= m <= |staging| && clone.files == staging[..m]
    ensures PublishFrom([e] + staging[j..], clone).ok <==> m == |staging|
  {
    hide Tiles, MaxEnd, HasDate, PublishFrom, DatesIncrease;
    PrefixEndsEarlier(staging, m);
    NoDateInPrefix(staging, m, e.date);
    PublishNew(e, staging[j..], clone);
    if m == |staging| {
      assert staging[..m] == staging;
      PublishAroundInserted(staging, e, j, Committing(clone, e));
    }
  }

  lemma PublishInserted(w: World, e: Dated, j: nat)
    requires Staged(w) && (forall d :: d in w.clone.index ==> d in w.clone.files)
    requires !HasDate(w.staging, e.date) && e.event.rowStart == MaxEnd(w.staging, 0) && j <= |w.staging|
    ensures PublishFrom(w.staging[..j] + ([e] + w.staging[j..]), w.clone).ok <==>
            j == |w.staging| || |w.clone.files| == |w.staging|
  {
    var n := |w.clone.files|;
    var m := if n > j then n else j;
    PublishPrefix(w, j);
    PublishAtTurn(w.staging, e, j, m, Grown(w.staging, w.clone, n, m));
    hide Tiles, MaxEnd, HasDate, PublishFrom, DatesIncrease, Chain, AllFit;
    PublishConcat(w.staging[..j], [e] + w.staging[j..], w.clone);
  }

  /** After a cut, `publish` trips unless the date is the latest or everything older was already
      published. */
  lemma PublishTripsIff(w: World, date: int)
    requires Staged(w) && forall d :: d in w.clone.index ==> d in w.clone.files
    requires Cut(w.rows, w.staging, w.clone.files, date).Some?
    ensures var e := Cut(w.rows, w.staging, w.clone.files, date).value;
            PublishFrom(Insert(w.staging, e), w.clone).ok <==> Forward(w, CutDay(date)) || w.clone.files == w.staging
  {
    hide Tiles, MaxEnd, Cut, Forward, HasDate, Insert, AllFit, PublishFrom, Chain, DatesIncrease;
    CutStartsAtEnd(w, date);
    var e := Cut(w.rows, w.staging, w.clone.files, date).value;
    var j := InsertSplits(w.staging, e);
    TripsIff(w, e, j);
    ForwardIffLast(w, e, j);
  }

  lemma TripsIff(w: World, e: Dated, j: nat)
    requires Staged(w) && forall d :: d in w.clone.index ==> d in w.clone.files
    requires !HasDate(w.staging, e.date) && e.event.rowStart == MaxEnd(w.staging, 0) && j <= |w.staging|
    requires Insert(w.staging, e) == w.staging[..j] + [e] + w.staging[j..]
    ensures PublishFrom(Insert(w.staging, e), w.clone).ok <==> j == |w.staging| || w.clone.files == w.staging
  {
    hide Tiles, MaxEnd, HasDate, Insert, AllFit, PublishFrom, Chain, DatesIncrease;
    PublishInserted(w, e, j);
    assert w.staging[..j] + [e] + w.staging[j..] == w.staging[..j] + ([e] + w.staging[j..]);
    assert w.clone.files == w.staging <==> |w.clone.files| == |w.staging|;
  }

  lemma NoDateInPrefix(log: seq<Dated>, n: nat, date: int)
    requires !HasDate(log, date) && n <= |log|
    ensures !HasDate(log[..n], date)
  {
    assert forall k :: 0 <= k < n ==> log[..n][k] == log[k];
  }

  // ---- A death between writing an event file and committing it --------------

  lemma {:induction false} InsertDates(log: seq<Dated>, e: Dated, date: int)
    ensures HasDate(Insert(log, e), date) <==> HasDate(log, date) || e.date == date
  {
    var j := InsertSplits(log, e);
    var more := Insert(log, e);
    assert forall k :: 0 <= k < j ==> more[k] == log[k];
    assert forall k :: j <= k < |log| ==> more[k + 1] == log[k];
    assert more[j] == e;
    if k :| 0 <= k < |log| && log[k].date == date {
      assert more[if k < j then k else k + 1].date == date;
    }
    if k :| 0 <= k < |more| && more[k].date == date {
      if k != j {
        assert log[if k < j then k else k - 1].date == date;
      }
    }
  }

  /** The file is there, so no later publish writes or adds it: what no index tracks stays untracked,
      whatever is staged.  What an index tracks the next commit takes along. */
  lemma {:induction false} OrphanStays(staging: seq<Dated>, clone: Clone, date: int)
    requires HasDate(clone.files, date)
    ensures var after := PublishFrom(staging, clone).clone;
            && HasDate(after.files, date)
            && (HasDate(after.index, date) <==> HasDate(clone.index, date))
            && (after == clone || after.committed == after.index)
  {
    if staging != [] {
      var e := staging[0];
      if Find(clone.files, e.date).Some? {
        OrphanStays(staging[1..], clone, date);
      } else {
        InsertDates(clone.files, e, date);
        InsertDates(clone.index, e, date);
        OrphanStays(staging[1..], Committing(clone, e), date);
      }
    }
  }

  // ---- A history that leaves a hole ------------------------------------------

  /** Two days with something to anchor, a death on the first, and a publish that goes through. */
  function HoleActs(first: seq<Row>, second: seq<Row>, added: bool): seq<Act> {
    [Append(first), CutDay(1), if added then DieBeforeCommit(0) else DieBeforeAdd(0), Append(second), CutDay(2),
     PublishSome(2, true)]
  }

  ghost predicate HasSession(rows: seq<Row>, from: nat) {
    exists k :: from <= k < |rows| && rows[k].body.payload.Session?
  }

  lemma MaxEndOne(e: Dated, from: int)
    ensures MaxEnd([e], from) == if e.event.rowEnd > from then e.event.rowEnd else from
  {
    assert [e][1..] == [];
  }

  /** The events the two cuts stage. */
  lemma HoleCuts(first: seq<Row>, second: seq<Row>) returns (e1: Dated, e2: Dated)
    requires Chain(first) && Chain(second) && first <= second && HasSession(first, 0) && HasSession(second, |first|)
    ensures Cut(first, [], [], 1) == Some(e1) && Cut(second, [e1], [e1], 2) == Some(e2)
    ensures e1.date == 1 && e1.event.rowStart == 0 && e1.event.rowEnd == |first|
    ensures e2.date == 2 && e2.event.rowStart == |first| && e2.event.rowEnd == |second| && |first| > 0
  {
    hide BuildBatch, VerifyBatch, EventFits, Chain;
    BatchRefusals(first, None, None);
    BuiltBatchVerifies(first, None, None, first);
    e1 := Dated(1, BuildBatch(first, None, None).value);
    MaxEndOne(e1, 0);
    MaxEndOne(e1, |first|);
    BatchRefusals(second, Some(|first|), None);
    BuiltBatchVerifies(second, Some(|first|), None, second);
    e2 := Dated(2, BuildBatch(second, Some(|first|), None).value);
  }

  /** Publishing both events when the first one's file is already there. */
  lemma HolePublish(e1: Dated, e2: Dated, index: seq<Dated>)
    requires e1.date == 1 && e2.date == 2 && 0 < e1.event.rowEnd == e2.event.rowStart
    requires index == [] || index == [e1]
    ensures PublishFrom([e1, e2], Clone([e1], index, [])) ==
            Published(true, Clone([e1, e2], index + [e2], index + [e2]))
  {
    var clone := Clone([e1], index, []);
    assert HasDate([e1], 1) by {
      assert [e1][0].date == 1;
    }
    assert Find([e1], 1) == Some(e1);
    assert [e1, e2][1..] == [e2] && [e2][1..] == [];
    assert Find([e1], 2) == None;
    assert MaxEnd([e1], 0) == e1.event.rowEnd;
    InsertLast([e1], e2);
    InsertLast(index, e2);
    assert PublishFrom([e2], clone) == PublishFrom([], Committing(clone, e2));
  }

  lemma HoleDeath(first: seq<Row>, e1: Dated, added: bool)
    requires e1.date == 1 && e1.event.rowStart == 0
    ensures var w := World(first, [e1], Clone([], [], []), []);
            var act := if added then DieBeforeCommit(0) else DieBeforeAdd(0);
            && Do(w, act) == w.(clone := Clone([e1], if added then [e1] else [], []))
            && OrphanedBy(w, act) == if added then {} else {1}
  {
    var w := World(first, [e1], Clone([], [], []), []);
    assert [e1][..0] == [];
    assert PublishFrom([], w.clone) == Published(true, w.clone);
    assert MaxEnd([], 0) == 0 && Find([], 1) == None;
    assert LeftBehind(w, 0) == Some(e1);
  }

  /** The worlds those acts go through. */
  function HoleWorlds(first: seq<Row>, second: seq<Row>, e1: Dated, e2: Dated, added: bool): seq<World> {
    var index := if added then [e1] else [];
    var none := Clone([], [], []);
    [FIRST, World(first, [], none, []), World(first, [e1], none, []), World(first, [e1], Clone([e1], index, []), []),
     World(second, [e1], Clone([e1], index, []), []), World(second, [e1, e2], Clone([e1], index, []), []),
     World(second, [e1, e2], Clone([e1, e2], index + [e2], index + [e2]), index + [e2])]
  }

  /** Growing and cutting, in the worlds of that history. */
  lemma HoleGrows(first: seq<Row>, second: seq<Row>, e1: Dated, e2: Dated, added: bool)
    requires Chain(first) && Chain(second) && first <= second
    requires Cut(first, [], [], 1) == Some(e1) && Cut(second, [e1], [e1], 2) == Some(e2)
    requires e1.date == 1 && e2.date == 2
    ensures var ws, acts := HoleWorlds(first, second, e1, e2, added), HoleActs(first, second, added);
            && ws[1] == Do(ws[0], acts[0]) && ws[2] == Do(ws[1], acts[1])
            && ws[4] == Do(ws[3], acts[3]) && ws[5] == Do(ws[4], acts[4])
            && Possible(ws[0], acts[0]) && Possible(ws[3], acts[3])
            && Forward(ws[1], acts[1]) && Forward(ws[4], acts[4])
  {
    hide Cut, Chain;
    InsertLast([], e1);
    InsertLast([e1], e2);
    assert [e1] + [e2] == [e1, e2];
  }

  lemma HoleEnds(first: seq<Row>, second: seq<Row>, e1: Dated, e2: Dated, added: bool)
    requires e1.date == 1 && e2.date == 2 && e1.event.rowStart == 0 && 0 < e1.event.rowEnd == e2.event.rowStart
    ensures var ws, acts := HoleWorlds(first, second, e1, e2, added), HoleActs(first, second, added);
            && ws[3] == Do(ws[2], acts[2]) && ws[6] == Do(ws[5], acts[5])
            && Possible(ws[2], acts[2]) && Possible(ws[5], acts[5])
            && OrphanedBy(ws[2], acts[2]) == if added then {} else {1}
  {
    HoleDeath(first, e1, added);
    HolePublish(e1, e2, if added then [e1] else []);
    hide PublishFrom, LeftBehind;
    assert [e1, e2][..2] == [e1, e2];
  }

  lemma HoleIsHistory(first: seq<Row>, second: seq<Row>, e1: Dated, e2: Dated, added: bool)
    requires Chain(first) && Chain(second) && first <= second
    requires Cut(first, [], [], 1) == Some(e1) && Cut(second, [e1], [e1], 2) == Some(e2)
    requires e1.date == 1 && e2.date == 2 && e1.event.rowStart == 0 && 0 < e1.event.rowEnd == e2.event.rowStart
    ensures var ws, acts := HoleWorlds(first, second, e1, e2, added), HoleActs(first, second, added);
            && History(ws, acts) && (forall k :: 0 <= k < |acts| ==> Forward(ws[k], acts[k]))
            && Orphans(ws, acts, 6) == if added then {} else {1}
  {
    HoleGrows(first, second, e1, e2, added);
    HoleEnds(first, second, e1, e2, added);
    hide Chain, Cut, Do, OrphanedBy;
    var ws, acts := HoleWorlds(first, second, e1, e2, added), HoleActs(first, second, added);
    assert Possible(ws[1], acts[1]) && Possible(ws[4], acts[4]);
    assert Forward(ws[0], acts[0]) && Forward(ws[2], acts[2]) && Forward(ws[3], acts[3]) && Forward(ws[5], acts[5]);
    hide Forward, Possible;
    SixSteps(ws, acts);
    HoleOrphans(ws, acts, added);
  }

  lemma SixSteps(ws: seq<World>, acts: seq<Act>)
    requires |acts| == 6 && |ws| == 7 && ws[0] == FIRST
    requires Possible(ws[0], acts[0]) && Possible(ws[1], acts[1]) && Possible(ws[2], acts[2])
    requires Possible(ws[3], acts[3]) && Possible(ws[4], acts[4]) && Possible(ws[5], acts[5])
    requires ws[1] == Do(ws[0], acts[0]) && ws[2] == Do(ws[1], acts[1]) && ws[3] == Do(ws[2], acts[2])
    requires ws[4] == Do(ws[3], acts[3]) && ws[5] == Do(ws[4], acts[4]) && ws[6] == Do(ws[5], acts[5])
    ensures History(ws, acts)
  {
    hide Do, Possible;
  }

  /** A history of forward cuts whose published ranges do not tile: the orphan's rows are withheld for
      good.  With the death after the `git add` instead, the same acts publish both ranges. */
  lemma HoleHistory(first: seq<Row>, second: seq<Row>, added: bool) returns (ws: seq<World>)
    requires Chain(first) && Chain(second) && first <= second && HasSession(first, 0) && HasSession(second, |first|)
    ensures var acts := HoleActs(first, second, added);
            && History(ws, acts) && (forall k :: 0 <= k < |acts| ==> Forward(ws[k], acts[k]))
            && |ws[6].remote| == (if added then 2 else 1)
            && (Tiles(ws[6].remote, 0) <==> added)
  {
    var e1, e2 := HoleCuts(first, second);
    HoleIsHistory(first, second, e1, e2, added);
    hide Cut, Do, Chain, Forward, Possible, Tiles, MaxEnd, PublishFrom, Orphans, EventFits, PlainRow;
    ws := HoleWorlds(first, second, e1, e2, added);
    var acts := HoleActs(first, second, added);
    ContinuityIff(ws, acts, 6, second);
    hide History;
    if !added {
      assert e2 in ws[6].remote;
    }
  }

  lemma HoleOrphans(ws: seq<World>, acts: seq<Act>, added: bool)
    requires |acts| == 6 && |ws| == 7
    requires forall k :: 0 <= k < 6 && k != 2 ==> !acts[k].DieBeforeAdd?
    requires OrphanedBy(ws[2], acts[2]) == if added then {} else {1}
    ensures Orphans(ws, acts, 6) == if added then {} else {1}
  {
    assert OrphanedBy(ws[0], acts[0]) == {} && OrphanedBy(ws[1], acts[1]) == {} && OrphanedBy(ws[3], acts[3]) == {};
    assert OrphanedBy(ws[4], acts[4]) == {} && OrphanedBy(ws[5], acts[5]) == {};
    hide OrphanedBy;
    var none: set<int> := {};
    assert Orphans(ws, acts, 0) == none;
    assert Orphans(ws, acts, 1) == none;
    assert Orphans(ws, acts, 2) == none;
    assert Orphans(ws, acts, 3) == OrphanedBy(ws[2], acts[2]);
    assert Orphans(ws, acts, 4) == Orphans(ws, acts, 3);
    assert Orphans(ws, acts, 5) == Orphans(ws, acts, 3);
  }

  /** Such a history exists: two session rows on two days. */
  lemma HoleExists(ts: string, one: Payload, two: Payload) returns (ws: seq<World>, acts: seq<Act>)
    requires one.Session? && two.Session?
    ensures History(ws, acts) && |ws| == 7 && (forall k :: 0 <= k < |acts| ==> Forward(ws[k], acts[k]))
    ensures !Tiles(ws[6].remote, 0)
  {
    VersionedKeepsChain([], ts, None, V2, one);
    var first := Versioned([], ts, None, V2, one).rows;
    assert [] + first == first;
    VersionedKeepsChain(first, ts, None, V2, two);
    var more := Versioned(first, ts, None, V2, two).rows;
    hide Versioned, Chain;
    assert first[|first| - 1].body.payload.Session?;
    var second := first + more;
    assert second[|second| - 1].body.payload.Session?;
    ws := HoleHistory(first, second, false);
    acts := HoleActs(first, second, false);
  }
}
