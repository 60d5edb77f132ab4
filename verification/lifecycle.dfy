/** Draining the lifecycle queue into ledger event rows, with replay. */
module Lifecycle {
  import opened Records
  import opened Framing
  import opened Ledger
  import opened LedgerWriters

  /** The part of a queue record that reaches an event row and its replay key. */
  datatype Record = Record(sessionId: string, kind: EventKind, trigger: Trigger, ts: string)

  const CR: Byte := 13

  /** Lines end at a newline, a carriage return, or the two together. */
  function SplitLines(data: Bytes, current: Bytes): seq<Bytes> {
    if data == [] then (if current == [] then [] else [current])
    else if data[0] == NL then [current] + SplitLines(data[1..], [])
    else if data[0] == CR then
      [current] + SplitLines(if |data| > 1 && data[1] == NL then data[2..] else data[1..], [])
    else SplitLines(data[1..], current + [data[0]])
  }

  /** The records of the complete part of a queue; what does not decode is dropped. */
  function Decoded(decode: Bytes -> Option<Record>, lines: seq<Bytes>): seq<Record> {
    if lines == [] then []
    else (match decode(lines[0]) case Some(r) => [r] case None => []) + Decoded(decode, lines[1..])
  }

  /** What a flush reads off a queue. */
  function RecordsOf(decode: Bytes -> Option<Record>, data: Bytes): seq<Record> {
    LineRecords(decode, CompleteLines(data))
  }

  function LineRecords(decode: Bytes -> Option<Record>, lines: seq<Bytes>): seq<Record> {
    Decoded(decode, SplitLines(Serialize(lines), []))
  }

  // ---- Event rows ------------------------------------------------------------

  /** An event row without its place in the chain. */
  datatype Observation = Observation(sessionId: string, kind: EventKind, trigger: Trigger, contextGen: nat, ts: string)

  function Observed(row: Row): seq<Observation> {
    match row.body.payload
    case Event(sid, kind, trigger, gen) => [Observation(sid, kind, trigger, gen, row.body.ts)]
    case _ => []
  }

  /** The event rows of a ledger, in order. */
  function View(rows: seq<Row>): seq<Observation> {
    if rows == [] then [] else View(rows[..|rows| - 1]) + Observed(rows[|rows| - 1])
  }

  function OfSession(view: seq<Observation>, sid: string): seq<Observation> {
    if view == [] then []
    else OfSession(view[..|view| - 1], sid) + (if view[|view| - 1].sessionId == sid then [view[|view| - 1]] else [])
  }

  function MaxGen(events: seq<Observation>): nat {
    if events == [] then 0
    else
      var before, last := MaxGen(events[..|events| - 1]), events[|events| - 1].contextGen;
      if last > before then last else before
  }

  /** `_context_generation`. */
  function Generation(view: seq<Observation>, r: Record): nat {
    var events := OfSession(view, r.sessionId);
    var current := MaxGen(events);
    if r.kind == CompactPre then current + 1
    else if r.kind == SessionStart && r.trigger == Compact then
      if events != [] && events[|events| - 1].kind == CompactPre then events[|events| - 1].contextGen
      else current + 1
    else current
  }

  predicate SameKey(o: Observation, r: Record) {
    o.sessionId == r.sessionId && o.kind == r.kind && o.ts == r.ts
  }

  predicate Seen(view: seq<Observation>, r: Record) {
    exists k :: 0 <= k < |view| && SameKey(view[k], r)
  }

  /** One record against the event rows so far: a replay adds nothing. */
  function Take(view: seq<Observation>, r: Record): seq<Observation> {
    if Seen(view, r) then view
    else view + [Observation(r.sessionId, r.kind, r.trigger, Generation(view, r), r.ts)]
  }

  function TakeAll(view: seq<Observation>, records: seq<Record>): seq<Observation> {
    if records == [] then view
    else Take(TakeAll(view, records[..|records| - 1]), records[|records| - 1])
  }

  // ---- Replay ----------------------------------------------------------------

  lemma {:induction false} TakeAllGrows(view: seq<Observation>, records: seq<Record>)
    ensures view <= TakeAll(view, records)
    ensures forall k :: 0 <= k < |records| ==> Seen(TakeAll(view, records), records[k])
  {
    if records != [] {
      var init, last := records[..|records| - 1], records[|records| - 1];
      TakeAllGrows(view, init);
      var before, after := TakeAll(view, init), TakeAll(view, records);
      assert before <= after;
      forall k | 0 <= k < |records|
        ensures Seen(after, records[k])
      {
        if k < |init| {
          assert Seen(before, init[k]);
          var j :| 0 <= j < |before| && SameKey(before[j], init[k]);
          assert SameKey(after[j], records[k]);
        } else if !Seen(before, last) {
          assert SameKey(after[|before|], last);
        }
      }
    }
  }

  lemma {:induction false} ReplayOfSeen(view: seq<Observation>, records: seq<Record>)
    requires forall k :: 0 <= k < |records| ==> Seen(view, records[k])
    ensures TakeAll(view, records) == view
  {
    if records != [] {
      ReplayOfSeen(view, records[..|records| - 1]);
    }
  }

  lemma {:induction false} TakeAllConcat(view: seq<Observation>, a: seq<Record>, b: seq<Record>)
    ensures TakeAll(view, a + b) == TakeAll(TakeAll(view, a), b)
  {
    if b == [] {
      assert a + b == a;
    } else {
      assert (a + b)[..|a + b| - 1] == a + b[..|b| - 1];
      TakeAllConcat(view, a, b[..|b| - 1]);
    }
  }

  /** A flush that died after `n` records, started again from the beginning, ends as if nothing had
      happened; the queue may have grown in between. */
  lemma Resume(view: seq<Observation>, records: seq<Record>, n: nat)
    requires n <= |records|
    ensures TakeAll(TakeAll(view, records[..n]), records) == TakeAll(view, records)
  {
    var a, b := records[..n], records[n..];
    assert records == a + b;
    var once := TakeAll(view, a);
    TakeAllGrows(view, a);
    ReplayOfSeen(once, a);
    TakeAllConcat(once, a, b);
    TakeAllConcat(view, a, b);
  }

  // ---- What every flush keeps ------------------------------------------------

  /** Each (session, kind, time) at most once. */
  ghost predicate KeysUnique(view: seq<Observation>) {
    forall j, k :: 0 <= j < k < |view| ==>
      !(view[j].sessionId == view[k].sessionId && view[j].kind == view[k].kind && view[j].ts == view[k].ts)
  }

  /** The generations of one session never fall and rise by at most one per row. */
  ghost predicate GensStep(events: seq<Observation>) {
    && (events != [] ==> events[0].contextGen <= 1)
    && forall k :: 0 < k < |events| ==>
         events[k - 1].contextGen <= events[k].contextGen <= events[k - 1].contextGen + 1
  }

  ghost predicate GensGood(view: seq<Observation>) {
    forall sid :: GensStep(OfSession(view, sid))
  }

  lemma {:induction false} MaxIsLast(events: seq<Observation>)
    requires GensStep(events)
    ensures events != [] ==> MaxGen(events) == events[|events| - 1].contextGen
    ensures events == [] ==> MaxGen(events) == 0
  {
    if events != [] {
      var init := events[..|events| - 1];
      forall k | 0 < k < |init|
        ensures init[k - 1].contextGen <= init[k].contextGen <= init[k - 1].contextGen + 1
      {
        assert events[k - 1].contextGen <= events[k].contextGen <= events[k - 1].contextGen + 1;
      }
      assert init != [] ==> init[0] == events[0];
      assert GensStep(init);
      MaxIsLast(init);
      if init != [] {
        var k := |events| - 1;
        assert events[k - 1].contextGen <= events[k].contextGen;
      }
    }
  }

  lemma TakeKeepsKeys(view: seq<Observation>, r: Record)
    requires KeysUnique(view)
    ensures KeysUnique(Take(view, r))
  {
    var after := Take(view, r);
    forall j, k | 0 <= j < k < |after|
      ensures !(after[j].sessionId == after[k].sessionId && after[j].kind == after[k].kind
                && after[j].ts == after[k].ts)
    {
      if k == |view| {
        assert !SameKey(view[j], r);
      }
    }
  }

  lemma GensStepSnoc(events: seq<Observation>, o: Observation)
    requires GensStep(events)
    requires o.contextGen == MaxGen(events) || o.contextGen == MaxGen(events) + 1
    ensures GensStep(events + [o])
  {
    MaxIsLast(events);
  }

  lemma TakeKeeps(view: seq<Observation>, r: Record)
    requires KeysUnique(view) && GensGood(view)
    ensures KeysUnique(Take(view, r)) && GensGood(Take(view, r))
  {
    TakeKeepsKeys(view, r);
    if !Seen(view, r) {
      var events := OfSession(view, r.sessionId);
      assert GensStep(events);
      MaxIsLast(events);
      var o := Observation(r.sessionId, r.kind, r.trigger, Generation(view, r), r.ts);
      GensStepSnoc(events, o);
      hide OfSession, MaxGen, GensStep, KeysUnique;
      forall sid
        ensures GensStep(OfSession(view + [o], sid))
      {
        OfSessionSnoc(view, o, sid);
        assert GensStep(OfSession(view, sid));
      }
    }
  }

  lemma OfSessionSnoc(view: seq<Observation>, o: Observation, sid: string)
    ensures OfSession(view + [o], sid) ==
            if o.sessionId == sid then OfSession(view, sid) + [o] else OfSession(view, sid)
  {
    assert (view + [o])[..|view|] == view;
    assert OfSession(view, sid) + [] == OfSession(view, sid);
  }

  lemma {:induction false} TakeAllKeeps(view: seq<Observation>, records: seq<Record>)
    requires KeysUnique(view) && GensGood(view)
    ensures KeysUnique(TakeAll(view, records)) && GensGood(TakeAll(view, records))
  {
    if records != [] {
      TakeAllKeeps(view, records[..|records| - 1]);
      TakeKeeps(TakeAll(view, records[..|records| - 1]), records[|records| - 1]);
    }
  }

  // ---- Rows and views --------------------------------------------------------

  lemma {:induction false} ViewConcat(a: seq<Row>, b: seq<Row>)
    ensures View(a + b) == View(a) + View(b)
  {
    if b == [] {
      assert a + b == a;
    } else {
      assert (a + b)[..|a + b| - 1] == a + b[..|b| - 1];
      ViewConcat(a, b[..|b| - 1]);
    }
  }

  lemma {:induction false} ViewNone(rows: seq<Row>)
    requires forall k :: 0 <= k < |rows| ==> !rows[k].body.payload.Event?
    ensures View(rows) == []
  {
    if rows != [] {
      ViewNone(rows[..|rows| - 1]);
    }
  }

  lemma {:induction false} RecordedIffSeen(rows: seq<Row>, r: Record)
    ensures EventRecorded(rows, r.sessionId, r.kind, r.ts) <==> Seen(View(rows), r)
  {
    if rows != [] {
      var init, last := rows[..|rows| - 1], rows[|rows| - 1];
      RecordedIffSeen(init, r);
      var before, after := View(init), View(rows);
      if EventRecorded(rows, r.sessionId, r.kind, r.ts) {
        var k :| 0 <= k < |rows| && SameEvent(rows[k], r.sessionId, r.kind, r.ts);
        if k < |init| {
          assert SameEvent(init[k], r.sessionId, r.kind, r.ts);
          var j :| 0 <= j < |before| && SameKey(before[j], r);
          assert SameKey(after[j], r);
        } else {
          assert SameKey(after[|before|], r);
        }
      }
      if Seen(after, r) {
        var j :| 0 <= j < |after| && SameKey(after[j], r);
        if j < |before| {
          assert SameKey(before[j], r);
          var k :| 0 <= k < |init| && SameEvent(init[k], r.sessionId, r.kind, r.ts);
          assert SameEvent(rows[k], r.sessionId, r.kind, r.ts);
        } else {
          assert SameEvent(last, r.sessionId, r.kind, r.ts);
        }
      }
    }
  }

  function RequestFor(rows: seq<Row>, r: Record): Request {
    EventRequest(r.sessionId, r.kind, r.trigger, Generation(View(rows), r))
  }

  /** The rows one record adds. */
  function RowsFor(codec: Codec, rows: seq<Row>, r: Record): seq<Row> {
    var plan := Planned(codec, rows, RequestFor(rows, r), r.ts);
    if plan.Write? then plan.rows else []
  }

  /** Appending for a record does to the event rows exactly what `Take` says, and keeps the chain.
      An interruption after the genesis row alone changes no event row. */
  lemma RowsForView(codec: Codec, rows: seq<Row>, r: Record)
    requires Chain(rows)
    ensures var more := RowsFor(codec, rows, r);
            && Chain(rows + more)
            && View(rows + more) == Take(View(rows), r)
            && forall k :: 0 <= k < |more| ==> View(rows + more[..k]) == View(rows)
  {
    var req := RequestFor(rows, r);
    PlanKeepsChain(codec, rows, req, r.ts);
    RecordedIffSeen(rows, r);
    var more := RowsFor(codec, rows, r);
    hide Chain, Versioned, Seen, EventRecorded;
    if more == [] {
      hide View;
      assert rows + more == rows;
    } else {
      var payload := Event(r.sessionId, r.kind, r.trigger, req.contextGen);
      VersionedKeepsChain(rows, r.ts, None, V2, payload);
      hide View;
      LastIsObserved(rows, more);
    }
  }

  /** Rows of which only the last is an event add that event to the view, and nothing before it. */
  lemma LastIsObserved(rows: seq<Row>, more: seq<Row>)
    requires more != [] && more[|more| - 1].body.payload.Event?
    requires forall k :: 0 <= k < |more| - 1 ==> !more[k].body.payload.Event?
    ensures View(rows + more) == View(rows) + Observed(more[|more| - 1])
    ensures forall k :: 0 <= k < |more| ==> View(rows + more[..k]) == View(rows)
  {
    forall k | 0 <= k < |more|
      ensures View(rows + more[..k]) == View(rows)
    {
      ViewConcat(rows, more[..k]);
      assert forall m :: 0 <= m < k ==> more[..k][m] == more[m];
      ViewNone(more[..k]);
    }
    ViewConcat(rows, more);
    ViewNone(more[..|more| - 1]);
  }

  // ---- Runs ------------------------------------------------------------------

  /** What happens to the ledger between the first flush attempt and the one that completes. */
  datatype Between =
    | DiedAfter(records: nat, rowsOfNext: nat)
    | OtherRows(rows: seq<Row>)

  ghost predicate Plausible(rows: seq<Row>, b: Between) {
    b.OtherRows? ==> Chain(rows + b.rows) && forall k :: 0 <= k < |b.rows| ==> !b.rows[k].body.payload.Event?
  }

  /** The ledger after flushing some records completely. */
  function FlushRows(codec: Codec, rows: seq<Row>, records: seq<Record>): seq<Row> {
    if records == [] then rows
    else
      var before := FlushRows(codec, rows, records[..|records| - 1]);
      before + RowsFor(codec, before, records[|records| - 1])
  }

  /** The ledger after a flush that died after whole records and part of the rows of the next. */
  function Interrupted(codec: Codec, rows: seq<Row>, records: seq<Record>, b: Between): seq<Row> {
    match b
    case DiedAfter(n, k) =>
      if n >= |records| then FlushRows(codec, rows, records)
      else
        var before := FlushRows(codec, rows, records[..n]);
        var next := RowsFor(codec, before, records[n]);
        if k < |next| then before + next[..k] else before
    case OtherRows(more) => rows + more
  }

  lemma {:induction false} FlushRowsView(codec: Codec, rows: seq<Row>, records: seq<Record>)
    requires Chain(rows)
    ensures Chain(FlushRows(codec, rows, records))
    ensures View(FlushRows(codec, rows, records)) == TakeAll(View(rows), records)
  {
    if records != [] {
      FlushRowsView(codec, rows, records[..|records| - 1]);
      RowsForView(codec, FlushRows(codec, rows, records[..|records| - 1]), records[|records| - 1]);
    }
  }

  lemma InterruptedKeeps(codec: Codec, rows: seq<Row>, records: seq<Record>, b: Between)
    requires Chain(rows) && Plausible(rows, b)
    ensures Chain(Interrupted(codec, rows, records, b))
    ensures TakeAll(View(Interrupted(codec, rows, records, b)), records) == TakeAll(View(rows), records)
  {
    hide RowsFor, Chain, View, TakeAll, Take;
    match b {
      case DiedAfter(n, k) =>
        if n >= |records| {
          FlushRowsView(codec, rows, records);
          assert records[..|records|] == records;
          Resume(View(rows), records, |records|);
        } else {
          var before := FlushRows(codec, rows, records[..n]);
          FlushRowsView(codec, rows, records[..n]);
          RowsForView(codec, before, records[n]);
          var next := RowsFor(codec, before, records[n]);
          if k < |next| {
            ChainPrefix(before + next, |before| + k);
            assert (before + next)[..|before| + k] == before + next[..k];
          }
          Resume(View(rows), records, n);
        }
      case OtherRows(more) =>
        ViewConcat(rows, more);
        ViewNone(more);
        assert View(rows) + [] == View(rows);
    }
  }

  function AfterAll(codec: Codec, rows: seq<Row>, records: seq<Record>, between: seq<Between>): seq<Row> {
    if between == [] then rows
    else Interrupted(codec, AfterAll(codec, rows, records, between[..|between| - 1]), records, between[|between| - 1])
  }

  ghost predicate AllPlausible(codec: Codec, rows: seq<Row>, records: seq<Record>, between: seq<Between>) {
    forall k :: 0 <= k < |between| ==> Plausible(AfterAll(codec, rows, records, between[..k]), between[k])
  }

  lemma {:induction false} AfterAllKeeps(codec: Codec, rows: seq<Row>, records: seq<Record>, between: seq<Between>)
    requires Chain(rows) && AllPlausible(codec, rows, records, between)
    ensures Chain(AfterAll(codec, rows, records, between))
    ensures TakeAll(View(AfterAll(codec, rows, records, between)), records) == TakeAll(View(rows), records)
  {
    if between != [] {
      var init := between[..|between| - 1];
      forall k | 0 <= k < |init|
        ensures Plausible(AfterAll(codec, rows, records, init[..k]), init[k])
      {
        assert init[..k] == between[..k];
        assert Plausible(AfterAll(codec, rows, records, between[..k]), between[k]);
      }
      AfterAllKeeps(codec, rows, records, init);
      assert Plausible(AfterAll(codec, rows, records, between[..|init|]), between[|init|]);
      InterruptedKeeps(codec, AfterAll(codec, rows, records, init), records, between[|between| - 1]);
    }
  }

  /** However many flushes die part way, and whatever other rows come in between, the flush that
      completes leaves the event rows, their order and their generations of one undisturbed flush;
      no replay key occurs twice and generations step as they must. */
  lemma FlushTheorem(codec: Codec, rows: seq<Row>, records: seq<Record>, between: seq<Between>)
    requires Chain(rows) && AllPlausible(codec, rows, records, between)
    requires KeysUnique(View(rows)) && GensGood(View(rows))
    ensures var final := FlushRows(codec, AfterAll(codec, rows, records, between), records);
            && Chain(final)
            && View(final) == View(FlushRows(codec, rows, records))
            && KeysUnique(View(final)) && GensGood(View(final))
  {
    AfterAllKeeps(codec, rows, records, between);
    FlushRowsView(codec, AfterAll(codec, rows, records, between), records);
    FlushRowsView(codec, rows, records);
    TakeAllKeeps(View(rows), records);
  }

  // ---- The queue file --------------------------------------------------------

  /** A queue whose compaction was killed: the first `n` bytes are already overwritten by the
      leftover tail, and nothing is truncated yet. */
  function Overwritten(data: Bytes, n: nat): Bytes
    requires n <= |Tail(data)| && |Tail(data)| <= |data|
  {
    Tail(data)[..n] + data[n..]
  }

  /** A kill during compaction leaves the queue as it was, at every point, exactly when the
      leftover tail already stood at its start; in particular when there is no tail. */
  lemma CompactionSafeIff(data: Bytes)
    ensures |Tail(data)| <= |data|
    ensures (forall n :: 0 <= n <= |Tail(data)| ==> Overwritten(data, n) == data) <==> Tail(data) <= data
  {
    Reassemble(data);
    var t := Tail(data);
    if t <= data {
      forall n | 0 <= n <= |t|
        ensures Overwritten(data, n) == data
      {
        assert data == data[..n] + data[n..];
        assert t[..n] == data[..n];
      }
    } else {
      assert Overwritten(data, |t|)[..|t|] == t;
    }
  }

  /** What the killed compaction leaves as lines.  The overwriting ended inside line `whole`, after its
      bytes `part`: that line is now the start of the tail and the rest of the line, the earlier lines are
      gone, the later ones and the tail are as before.  If it went past the last line, no line is left. */
  lemma OverwrittenLines(data: Bytes, n: nat) returns (whole: nat, part: Bytes)
    requires n <= |Tail(data)| <= |data|
    ensures var lines, t := CompleteLines(data), Tail(data);
            && whole <= |lines| && data[..n] == Serialize(lines[..whole]) + part
            && (whole < |lines| ==>
                  && part <= lines[whole]
                  && CompleteLines(Overwritten(data, n)) == [t[..n] + lines[whole][|part|..]] + lines[whole + 1..]
                  && Tail(Overwritten(data, n)) == t)
            && (whole == |lines| ==>
                  && part <= t
                  && CompleteLines(Overwritten(data, n)) == [] && Tail(Overwritten(data, n)) == t[..n] + t[|part|..])
  {
    var lines, t := CompleteLines(data), Tail(data);
    Reassemble(data);
    whole, part := CutSerialized(lines, t, n);
    hide CompleteLines, Tail;
    if whole < |lines| {
      RestOfLines(lines, t, n, whole, part);
      assert AllUnbroken(lines[whole + 1..]);
      hide AllUnbroken;
      GluedLine(t, n, lines[whole][|part|..], lines[whole + 1..]);
    } else {
      assert lines[..whole] == lines;
      assert data[n..] == t[|part|..];
      assert Overwritten(data, n) == Serialize([]) + (t[..n] + t[|part|..]);
      SplitSerialized([], t[..n] + t[|part|..]);
    }
  }

  lemma GluedLine(t: Bytes, n: nat, rest: Bytes, later: seq<Bytes>)
    requires n <= |t| && Unbroken(t) && Unbroken(rest) && AllUnbroken(later)
    ensures var queue := t[..n] + (Serialize([rest] + later) + t);
            CompleteLines(queue) == [t[..n] + rest] + later && Tail(queue) == t
  {
    var glued := [t[..n] + rest] + later;
    SerializeCons(rest, later);
    SerializeCons(t[..n] + rest, later);
    hide CompleteLines, Tail, Serialize;
    SplitSerialized(glued, t);
    Regroup(t[..n], rest, Serialize(later), t);
  }

  lemma Regroup(a: Bytes, b: Bytes, c: Bytes, d: Bytes)
    ensures a + ((b + [NL] + c) + d) == ((a + b) + [NL] + c) + d
  {
  }

  lemma RestOfLines(lines: seq<Bytes>, t: Bytes, n: nat, whole: nat, part: Bytes)
    requires whole < |lines| && part <= lines[whole] && n <= |Serialize(lines) + t|
    requires (Serialize(lines) + t)[..n] == Serialize(lines[..whole]) + part
    ensures (Serialize(lines) + t)[n..] == Serialize([lines[whole][|part|..]] + lines[whole + 1..]) + t
  {
    var item, later := lines[whole], lines[whole + 1..];
    assert lines == lines[..whole] + ([item] + later);
    SerializeConcat(lines[..whole], [item] + later);
    SerializeCons(item, later);
    SerializeCons(item[|part|..], later);
    assert item == part + item[|part|..];
    var head := Serialize(lines[..whole]) + part;
    assert Serialize(lines) + t == head + (item[|part|..] + [NL] + Serialize(later) + t);
  }

  /** How many bytes one step of the split takes. */
  function Step(data: Bytes): nat
    requires data != []
  {
    if data[0] == CR && |data| > 1 && data[1] == NL then 2 else 1
  }

  lemma SplitLinesStep(data: Bytes, current: Bytes)
    requires data != []
    ensures var ends := data[0] == NL || data[0] == CR;
            var rest := SplitLines(data[Step(data)..], if ends then [] else current + [data[0]]);
            SplitLines(data, current) == (if ends then [current] else []) + rest
  {
  }

  lemma StepConcat(a: Bytes, b: Bytes)
    requires a != [] && a[|a| - 1] == NL
    ensures (a + b)[0] == a[0] && Step(a + b) == Step(a) && (a + b)[Step(a)..] == a[Step(a)..] + b
    ensures a[Step(a)..] == [] ==> a[0] == NL || a[0] == CR
  {
  }

  lemma {:induction false} SplitLinesConcat(a: Bytes, b: Bytes, current: Bytes)
    requires a == [] ==> current == []
    requires a != [] ==> a[|a| - 1] == NL
    ensures SplitLines(a + b, current) == SplitLines(a, current) + SplitLines(b, [])
    decreases |a|
  {
    if a == [] {
      assert a + b == b;
    } else {
      StepConcat(a, b);
      SplitLinesStep(a, current);
      SplitLinesStep(a + b, current);
      hide SplitLines, Step;
      var ends := a[0] == NL || a[0] == CR;
      SplitLinesConcat(a[Step(a)..], b, if ends then [] else current + [a[0]]);
    }
  }

  lemma {:induction false} DecodedConcat(decode: Bytes -> Option<Record>, a: seq<Bytes>, b: seq<Bytes>)
    ensures Decoded(decode, a + b) == Decoded(decode, a) + Decoded(decode, b)
  {
    if a == [] {
      assert a + b == b;
    } else {
      assert (a + b)[1..] == a[1..] + b;
      DecodedConcat(decode, a[1..], b);
    }
  }

  lemma LineRecordsConcat(decode: Bytes -> Option<Record>, a: seq<Bytes>, b: seq<Bytes>)
    ensures LineRecords(decode, a + b) == LineRecords(decode, a) + LineRecords(decode, b)
  {
    SerializeConcat(a, b);
    SerializeEnds(a);
    SplitLinesConcat(Serialize(a), Serialize(b), []);
    DecodedConcat(decode, SplitLines(Serialize(a), []), SplitLines(Serialize(b), []));
  }

  /** The records of the line that the killed compaction glued together. */
  function Glued(decode: Bytes -> Option<Record>, data: Bytes, n: nat): seq<Record>
    requires n <= |Tail(data)| <= |data|
  {
    var lines := CompleteLines(Overwritten(data, n));
    LineRecords(decode, if lines == [] then [] else lines[..1])
  }

  /** All a later flush of such a queue can add are the records of the glued line: after the flush
      that was killed while compacting, it adds rows exactly when one of those is not yet recorded. */
  lemma CompactionReplays(codec: Codec, decode: Bytes -> Option<Record>, rows: seq<Row>, data: Bytes, n: nat)
    requires Chain(rows) && n <= |Tail(data)| <= |data|
    ensures var done := FlushRows(codec, rows, RecordsOf(decode, data));
            var again := FlushRows(codec, done, RecordsOf(decode, Overwritten(data, n)));
            var glued := Glued(decode, data, n);
            && View(again) == TakeAll(View(done), glued)
            && (View(again) == View(done) <==> forall k :: 0 <= k < |glued| ==> Seen(View(done), glued[k]))
  {
    var lines, after := CompleteLines(data), CompleteLines(Overwritten(data, n));
    var records, replayed, glued := RecordsOf(decode, data), RecordsOf(decode, Overwritten(data, n)),
        Glued(decode, data, n);
    var whole, part := OverwrittenLines(data, n);
    var done := FlushRows(codec, rows, records);
    FlushRowsView(codec, rows, records);
    FlushRowsView(codec, done, replayed);
    TakeAllGrows(View(rows), records);
    hide CompleteLines, Overwritten, Tail, FlushRows, View, Chain, Seen, Take, TakeAll, Decoded, SplitLines;
    if whole < |lines| {
      var later := lines[whole + 1..];
      assert after == after[..1] + later;
      LineRecordsConcat(decode, after[..1], later);
      assert lines == lines[..whole + 1] + later;
      LineRecordsConcat(decode, lines[..whole + 1], later);
      assert replayed == glued + LineRecords(decode, later);
      SuffixSeen(View(done), LineRecords(decode, lines[..whole + 1]), LineRecords(decode, later));
      ReplayAfter(View(done), glued, LineRecords(decode, later));
    } else {
      assert after == [];
      assert replayed == glued;
    }
    NothingNewIff(View(done), glued);
  }

  lemma SuffixSeen(view: seq<Observation>, a: seq<Record>, b: seq<Record>)
    requires forall k :: 0 <= k < |a + b| ==> Seen(view, (a + b)[k])
    ensures forall k :: 0 <= k < |b| ==> Seen(view, b[k])
  {
    hide Seen;
    forall k | 0 <= k < |b|
      ensures Seen(view, b[k])
    {
      assert (a + b)[|a| + k] == b[k];
    }
  }

  lemma ReplayAfter(view: seq<Observation>, a: seq<Record>, b: seq<Record>)
    requires forall k :: 0 <= k < |b| ==> Seen(view, b[k])
    ensures TakeAll(view, a + b) == TakeAll(view, a)
  {
    TakeAllConcat(view, a, b);
    TakeAllGrows(view, a);
    var grown := TakeAll(view, a);
    hide TakeAll;
    forall k | 0 <= k < |b|
      ensures Seen(grown, b[k])
    {
      var j :| 0 <= j < |view| && SameKey(view[j], b[k]);
      assert SameKey(grown[j], b[k]);
    }
    ReplayOfSeen(grown, b);
  }

  lemma NothingNewIff(view: seq<Observation>, records: seq<Record>)
    ensures TakeAll(view, records) == view <==> forall k :: 0 <= k < |records| ==> Seen(view, records[k])
  {
    if forall k :: 0 <= k < |records| ==> Seen(view, records[k]) {
      ReplayOfSeen(view, records);
    } else {
      TakeAllGrows(view, records);
    }
  }

  predicate Plain(text: Bytes) {
    forall k :: 0 <= k < |text| ==> text[k] != NL && text[k] != CR
  }

  /** A queue that shows it: two observations that agree up to some point, the second not yet complete,
      and a kill when the compaction has written it over the first.  The glued line is the second
      observation with the end of the first; the next flush records it although no line ever held it. */
  lemma CompactionAddsRow(codec: Codec, decode: Bytes -> Option<Record>, common: Bytes, first: Bytes,
                          second: Bytes, end: Bytes, seen: Record, unseen: Record)
    requires |first| == |second| && Plain(common) && Plain(first) && Plain(second) && Plain(end)
    requires decode(common + first + end) == Some(seen) && decode(common + second + end) == Some(unseen)
    requires seen.sessionId != unseen.sessionId
    ensures var data, n := common + first + end + [NL] + (common + second), |common + second|;
            && n <= |Tail(data)| <= |data|
            && RecordsOf(decode, data) == [seen] && Glued(decode, data, n) == [unseen]
            && var done := FlushRows(codec, [], [seen]);
               View(FlushRows(codec, done, RecordsOf(decode, Overwritten(data, n)))) != View(done)
  {
    var line, tail := common + first + end, common + second;
    var data, n := line + [NL] + tail, |tail|;
    OneLineQueue(decode, line, tail, seen);
    OneLineQueue(decode, tail + end, tail, unseen);
    assert Overwritten(data, n) == tail + end + [NL] + tail;
    assert [tail + end][..1] == [tail + end];
    hide CompleteLines, Tail, LineRecords, Overwritten;
    OtherRecordAdds(codec, decode, data, n, seen, unseen);
  }

  lemma OtherRecordAdds(codec: Codec, decode: Bytes -> Option<Record>, data: Bytes, n: nat, seen: Record,
                        unseen: Record)
    requires n <= |Tail(data)| <= |data| && seen.sessionId != unseen.sessionId
    requires RecordsOf(decode, data) == [seen] && Glued(decode, data, n) == [unseen]
    ensures var done := FlushRows(codec, [], [seen]);
            View(FlushRows(codec, done, RecordsOf(decode, Overwritten(data, n)))) != View(done)
  {
    CompactionReplays(codec, decode, [], data, n);
    FlushRowsView(codec, [], [seen]);
    NotSeen(seen, unseen);
    hide FlushRows, Chain, RecordsOf, Glued, Overwritten, Tail, TakeAll, Seen;
    assert View([]) == [];
  }

  lemma NotSeen(seen: Record, unseen: Record)
    requires seen.sessionId != unseen.sessionId
    ensures !Seen(TakeAll([], [seen]), unseen)
  {
    assert [seen][..0] == [];
  }

  lemma OneLineQueue(decode: Bytes -> Option<Record>, line: Bytes, tail: Bytes, r: Record)
    requires Plain(line) && Plain(tail) && decode(line) == Some(r)
    ensures CompleteLines(line + [NL] + tail) == [line] && Tail(line + [NL] + tail) == tail
    ensures LineRecords(decode, [line]) == [r]
  {
    SerializeOne(line);
    SplitSerialized([line], tail);
    SplitOneLine(line, []);
    hide SplitLines, CompleteLines, Tail;
    assert [] + line == line && [line][1..] == [];
    assert SplitLines(Serialize([line]), []) == [line];
    assert Decoded(decode, [line]) == [r] + Decoded(decode, []);
  }

  lemma {:induction false} SplitOneLine(line: Bytes, current: Bytes)
    requires Plain(line)
    ensures SplitLines(line + [NL], current) == [current + line]
  {
    SplitLinesStep(line + [NL], current);
    if line == [] {
      assert (line + [NL])[1..] == [] && current + line == current;
    } else {
      assert (line + [NL])[1..] == line[1..] + [NL];
      SplitOneLine(line[1..], current + [line[0]]);
      assert current + [line[0]] + line[1..] == current + line;
    }
  }

  /** A ledger file that holds one chain of rows and nothing else. */
  ghost predicate HoldsChain(codec: Codec, data: Bytes) {
    var read := ReadRows(codec, data);
    read.Rows? && Chain(read.rows) && Accepted(codec, read.rows) && data == Render(codec, read.rows)
  }

  /** The ledger of a flush that stopped part way, as the theorem allows any number of times. */
  ghost predicate StoppedWithin(codec: Codec, rows: seq<Row>, records: seq<Record>, data: Bytes) {
    exists n: nat, k: nat :: data == Render(codec, Interrupted(codec, rows, records, DiedAfter(n, k)))
  }

  datatype FlushResult = Flushed(appended: nat) | FlushError

  class QueueFile {
    var data: Bytes

    constructor (data: Bytes)
      ensures this.data == data
    {
      this.data := data;
    }

    /** `flush_queue`: every complete line is offered to the ledger, then the queue is cut to its
        unterminated tail; an exception leaves the queue as it was, and the ledger at a point from
        which a later flush resumes. */
    method Flush(codec: Codec, decode: Bytes -> Option<Record>, file: LedgerFile) returns (r: FlushResult)
      requires file.Valid() && Faithful(codec)
      modifies this, file
      ensures file.Valid()
      ensures r.FlushError? ==> data == old(data)
      ensures r.Flushed? ==> data == Tail(old(data))
      ensures CompleteLines(old(data)) == [] ==> r == Flushed(0) && data == old(data) && file.data == old(file.data)
      ensures CompleteLines(old(data)) != [] && HoldsChain(codec, old(file.data)) ==>
                var rows := ReadRows(codec, old(file.data)).rows;
                var records := RecordsOf(decode, old(data));
                if r.Flushed? then
                  && file.data == Render(codec, FlushRows(codec, rows, records))
                  && View(FlushRows(codec, rows, records)) == TakeAll(View(rows), records)
                  && |TakeAll(View(rows), records)| == |View(rows)| + r.appended
                else StoppedWithin(codec, rows, records, file.data)
    {
      if CompleteLines(data) == [] {
        Reassemble(data);
        assert Serialize([]) + Tail(data) == Tail(data);
        return Flushed(0);
      }
      var tail := Tail(data);
      var records := RecordsOf(decode, data);
      r := Drain(codec, file, records);
      if r.Flushed? {
        data := tail;
        if HoldsChain(codec, old(file.data)) {
          FlushRowsView(codec, ReadRows(codec, old(file.data)).rows, records);
        }
      }
    }

    method Drain(codec: Codec, file: LedgerFile, records: seq<Record>) returns (r: FlushResult)
      requires file.Valid() && Faithful(codec)
      modifies file
      ensures file.Valid()
      ensures HoldsChain(codec, old(file.data)) ==>
                var rows := ReadRows(codec, old(file.data)).rows;
                if r.Flushed? then
                  && file.data == Render(codec, FlushRows(codec, rows, records))
                  && |View(FlushRows(codec, rows, records))| == |View(rows)| + r.appended
                else StoppedWithin(codec, rows, records, file.data)
    {
      hide ReadRows, Chain, Render, Planned, StoppedWithin, Interrupted, View, Seen, EventRecorded;
      var appended := 0;
      ghost var holds := HoldsChain(codec, file.data);
      ghost var start: seq<Row> := if holds then ReadRows(codec, file.data).rows else [];
      ghost var rows := start;
      for n := 0 to |records|
        invariant file.Valid()
        invariant holds ==>
                    && rows == FlushRows(codec, start, records[..n])
                    && Chain(rows) && Accepted(codec, rows) && file.data == Render(codec, rows)
                    && |View(rows)| == |View(start)| + appended
      {
        var rec := records[n];
        assert records[..n + 1][..n] == records[..n];
        if holds {
          ReadRendered(codec, rows, []);
          assert Render(codec, rows) + [] == Render(codec, rows);
          PlanKeepsChain(codec, rows, RequestFor(rows, rec), rec.ts);
          RowsForView(codec, rows, rec);
          RecordedIffSeen(rows, rec);
        }
        var read := ReadLedger(codec, file.data);
        if !read.Rows? {
          return FlushError;
        }
        var req := RequestFor(read.rows, rec);
        var result := Append(codec, file, req, rec.ts);
        ghost var more := RowsFor(codec, rows, rec);
        if result.TornRefused? || result.Refused? {
          if holds {
            ghost var part := if more == [] then [] else Admitted(codec, more);
            RenderConcat(codec, rows, part);
            assert rows + [] == rows;
            AdmittedAll(codec, more);
            StopsWithin(codec, start, records, n, part);
          }
          return FlushError;
        }
        if result.Appended? {
          appended := appended + 1;
        }
        if more != [] {
          AdmittedAll(codec, more);
          RenderConcat(codec, rows, more);
        } else {
          assert rows + more == rows;
        }
        rows := rows + more;
      }
      assert records[..|records|] == records;
      return Flushed(appended);
    }
  }

  lemma StopsWithin(codec: Codec, rows: seq<Row>, records: seq<Record>, n: nat, part: seq<Row>)
    requires n < |records|
    requires var next := RowsFor(codec, FlushRows(codec, rows, records[..n]), records[n]);
             part <= next && (part == next ==> next == [])
    ensures StoppedWithin(codec, rows, records, Render(codec, FlushRows(codec, rows, records[..n]) + part))
  {
    hide RowsFor, FlushRows, Render;
    var before := FlushRows(codec, rows, records[..n]);
    assert before + [] == before;
    assert Interrupted(codec, rows, records, DiedAfter(n, |part|)) == before + part;
  }
}
