/** What a flush of the lifecycle queue adds, and which context generation each event row gets. */
module LifecycleLaws {
  import opened Records
  import opened Ledger
  import opened Lifecycle

  // ---- Lines of the queue ----------------------------------------------------

  predicate Ending(e: Bytes) {
    e == [NL] || e == [CR] || e == [CR, NL]
  }

  function Joined(lines: seq<Bytes>, ends: seq<Bytes>): Bytes
    requires |lines| == |ends|
  {
    if lines == [] then [] else lines[0] + ends[0] + Joined(lines[1..], ends[1..])
  }

  /** `data` is these lines, each with its ending, of which only a non-empty last line may have none.
      No ending stands inside a line, and none is cut in two. */
  ghost predicate LinesOf(data: Bytes, lines: seq<Bytes>, ends: seq<Bytes>)
    decreases |lines|
  {
    && |lines| == |ends| && data == Joined(lines, ends)
    && (lines != [] ==>
          && Plain(lines[0])
          && (Ending(ends[0]) || (|lines| == 1 && lines[0] != [] && ends[0] == []))
          && (ends[0] == [CR] ==> Joined(lines[1..], ends[1..]) == [] || Joined(lines[1..], ends[1..])[0] != NL)
          && LinesOf(Joined(lines[1..], ends[1..]), lines[1..], ends[1..]))
  }

  /** Splitting gives the lines. */
  lemma {:induction false} SplitIsLines(data: Bytes, current: Bytes) returns (ends: seq<Bytes>)
    requires Plain(current)
    ensures LinesOf(current + data, SplitLines(data, current), ends)
    decreases |data|
  {
    var lines := SplitLines(data, current);
    if data == [] {
      ends := if current == [] then [] else [[]];
      assert current == [] || (lines[1..] == [] && ends[1..] == []);
      assert current + data == current;
      assert current != [] ==> current + [] + [] == current;
    } else {
      var n := Step(data);
      SplitLinesStep(data, current);
      if data[0] == NL || data[0] == CR {
        var rest := SplitIsLines(data[n..], []);
        assert [] + data[n..] == data[n..];
        ends := [data[..n]] + rest;
        LineFirst(current, data, n, SplitLines(data[n..], []), rest);
      } else {
        ends := SplitIsLines(data[1..], current + [data[0]]);
        assert current + data == current + [data[0]] + data[1..];
      }
    }
  }

  lemma LineFirst(current: Bytes, data: Bytes, n: nat, lines: seq<Bytes>, ends: seq<Bytes>)
    requires data != [] && (data[0] == NL || data[0] == CR) && n == Step(data) && Plain(current)
    requires LinesOf(data[n..], lines, ends)
    ensures LinesOf(current + data, [current] + lines, [data[..n]] + ends)
  {
    var all, tails := [current] + lines, [data[..n]] + ends;
    assert all[1..] == lines && tails[1..] == ends;
    assert data == data[..n] + data[n..];
    assert current + data == current + data[..n] + data[n..];
  }

  // ---- Which rows are added --------------------------------------------------

  /** The event was recorded before the flush, or earlier in the queue. */
  ghost predicate Repeats(view: seq<Observation>, records: seq<Record>, i: nat)
    requires i < |records|
  {
    || (exists k :: 0 <= k < |view| && Same(view[k], records[i]))
    || (exists j :: 0 <= j < i && SameRecord(records[j], records[i]))
  }

  predicate Same(o: Observation, r: Record) {
    o.sessionId == r.sessionId && o.kind == r.kind && o.ts == r.ts
  }

  predicate SameRecord(a: Record, b: Record) {
    a.sessionId == b.sessionId && a.kind == b.kind && a.ts == b.ts
  }

  /** `at` lists, in order, the places of the records that repeat nothing. */
  ghost predicate FirstsAt(view: seq<Observation>, records: seq<Record>, at: seq<nat>) {
    && (forall j, k :: 0 <= j < k < |at| ==> at[j] < at[k])
    && (forall k :: 0 <= k < |at| ==> at[k] < |records| && !Repeats(view, records, at[k]))
    && (forall i: nat :: i < |records| && !Repeats(view, records, i) ==> i in at)
  }

  /** The rows after `view` are those of these records, one each and in order. */
  ghost predicate AddedBy(view: seq<Observation>, after: seq<Observation>, records: seq<Record>, at: seq<nat>) {
    && |after| == |view| + |at| && after[..|view|] == view
    && forall k :: 0 <= k < |at| ==>
         && at[k] < |records|
         && Same(after[|view| + k], records[at[k]]) && after[|view| + k].trigger == records[at[k]].trigger
  }

  lemma SeenIff(view: seq<Observation>, after: seq<Observation>, records: seq<Record>, at: seq<nat>, i: nat)
    requires i < |records| && FirstsAt(view, records[..i], at) && AddedBy(view, after, records[..i], at)
    ensures Seen(after, records[i]) <==> Repeats(view, records, i)
  {
    var r, front := records[i], records[..i];
    if Seen(after, r) {
      var k :| 0 <= k < |after| && SameKey(after[k], r);
      if k < |view| {
        assert after[..|view|][k] == view[k];
        assert Same(view[k], r);
      } else {
        assert after[k] == after[|view| + (k - |view|)];
        assert SameRecord(records[at[k - |view|]], r);
      }
    }
    if k :| 0 <= k < |view| && Same(view[k], r) {
      assert SameKey(after[..|view|][k], r) && after[k] == after[..|view|][k];
    } else if j :| 0 <= j < i && SameRecord(records[j], r) {
      EarlierSeen(view, after, front, at, j, r);
    }
  }

  /** What an earlier record of the queue says is on record by now. */
  lemma {:induction false} EarlierSeen(view: seq<Observation>, after: seq<Observation>, records: seq<Record>,
                                       at: seq<nat>, j: nat, r: Record)
    requires j < |records| && FirstsAt(view, records, at) && AddedBy(view, after, records, at)
    requires SameRecord(records[j], r)
    ensures Seen(after, r)
    decreases j
  {
    if Repeats(view, records, j) {
      if k :| 0 <= k < |view| && Same(view[k], records[j]) {
        assert after[..|view|][k] == after[k];
        assert SameKey(after[k], r);
      } else {
        var i :| 0 <= i < j && SameRecord(records[i], records[j]);
        EarlierSeen(view, after, records, at, i, r);
      }
    } else {
      assert j in at;
      var k :| 0 <= k < |at| && at[k] == j;
      assert SameKey(after[|view| + k], r);
    }
  }

  lemma FirstsMore(view: seq<Observation>, records: seq<Record>, at: seq<nat>, more: seq<nat>)
    requires records != [] && FirstsAt(view, records[..|records| - 1], at)
    requires var n := |records| - 1; more == if Repeats(view, records, n) then at else at + [n]
    ensures FirstsAt(view, records, more)
  {
    var n := |records| - 1;
    var front := records[..n];
    forall i: nat | i < n
      ensures Repeats(view, front, i) <==> Repeats(view, records, i)
    {
      assert forall j :: 0 <= j <= i ==> front[j] == records[j];
    }
    forall i: nat | i < |records| && !Repeats(view, records, i)
      ensures i in more
    {
      if i < n {
        assert i in at;
      } else {
        assert more[|at|] == n;
      }
    }
  }

  lemma AddedMore(view: seq<Observation>, before: seq<Observation>, records: seq<Record>, at: seq<nat>)
    requires records != [] && AddedBy(view, before, records[..|records| - 1], at)
    ensures var n := |records| - 1;
            && (Seen(before, records[n]) ==> AddedBy(view, Take(before, records[n]), records, at))
            && (!Seen(before, records[n]) ==> AddedBy(view, Take(before, records[n]), records, at + [n]))
  {
    var n := |records| - 1;
    hide Generation, Seen;
    forall k | 0 <= k < |at|
      ensures at[k] < n && records[..n][at[k]] == records[at[k]]
    {
    }
  }

  /** A flush adds one row for each record that repeats nothing, in their order, and no other. */
  lemma {:induction false} FlushAdds(view: seq<Observation>, records: seq<Record>) returns (at: seq<nat>)
    ensures FirstsAt(view, records, at) && AddedBy(view, TakeAll(view, records), records, at)
  {
    if records == [] {
      at := [];
    } else {
      var n := |records| - 1;
      var before := TakeAll(view, records[..n]);
      var places := FlushAdds(view, records[..n]);
      SeenIff(view, before, records, places, n);
      at := if Repeats(view, records, n) then places else places + [n];
      assert TakeAll(view, records) == Take(before, records[n]);
      hide FirstsAt, AddedBy, Repeats, Seen, Take, TakeAll;
      FirstsMore(view, records, places, at);
      AddedMore(view, before, records, places);
    }
  }

  // ---- Generations -----------------------------------------------------------

  /** The row of the same session just before this one is a compaction notice. */
  ghost predicate AfterNotice(view: seq<Observation>, n: nat)
    requires n < |view|
  {
    exists m :: JustBefore(view, m, n) && view[m].kind == CompactPre
  }

  predicate JustBefore(view: seq<Observation>, m: int, n: nat)
    requires n < |view|
  {
    && 0 <= m < n && view[m].sessionId == view[n].sessionId
    && forall k :: m < k < n ==> view[k].sessionId != view[n].sessionId
  }

  /** A row that reports a compaction: a notice, or a start after one that no notice announced. */
  ghost predicate Compacts(view: seq<Observation>, n: nat)
    requires n < |view|
  {
    || view[n].kind == CompactPre
    || (view[n].kind == SessionStart && view[n].trigger == Compact && !AfterNotice(view, n))
  }

  /** The compactions of a session among the first `n` rows. */
  ghost function Compactions(view: seq<Observation>, sid: string, n: nat): nat
    requires n <= |view|
  {
    if n == 0 then 0
    else
      Compactions(view, sid, n - 1) + (if view[n - 1].sessionId == sid && Compacts(view, n - 1) then 1 else 0)
  }

  /** The generation of each row is the number of compactions of its session up to it. */
  ghost predicate Counted(view: seq<Observation>) {
    forall n :: 0 <= n < |view| ==> CountedAt(view, n)
  }

  ghost predicate CountedAt(view: seq<Observation>, n: nat)
    requires n < |view|
  {
    view[n].contextGen == Compactions(view, view[n].sessionId, n + 1)
  }

  lemma CompactsLonger(view: seq<Observation>, o: Observation, n: nat)
    requires n < |view|
    ensures Compacts(view + [o], n) <==> Compacts(view, n)
  {
    var longer := view + [o];
    assert forall k :: 0 <= k <= n ==> longer[k] == view[k];
    if AfterNotice(view, n) {
      var m :| JustBefore(view, m, n) && view[m].kind == CompactPre;
      assert JustBefore(longer, m, n);
    }
    if AfterNotice(longer, n) {
      var m :| JustBefore(longer, m, n) && longer[m].kind == CompactPre;
      assert JustBefore(view, m, n);
    }
  }

  lemma {:induction false} CompactionsLonger(view: seq<Observation>, o: Observation, sid: string, n: nat)
    requires n <= |view|
    ensures Compactions(view + [o], sid, n) == Compactions(view, sid, n)
  {
    if n > 0 {
      CompactionsLonger(view, o, sid, n - 1);
      CompactsLonger(view, o, n - 1);
    }
  }

  /** The rows of one session and the last of them, found in the view. */
  lemma {:induction false} LastOf(view: seq<Observation>, sid: string) returns (m: int)
    ensures var events := OfSession(view, sid);
            && -1 <= m < |view| && (m == -1 <==> events == [])
            && (m >= 0 ==> view[m].sessionId == sid && view[m] == events[|events| - 1])
            && forall k :: m < k < |view| ==> view[k].sessionId != sid
  {
    if view == [] {
      m := -1;
    } else {
      var n := |view| - 1;
      if view[n].sessionId == sid {
        m := n;
      } else {
        m := LastOf(view[..n], sid);
      }
    }
  }

  /** The largest generation of a session is the number of its compactions. */
  lemma {:induction false} MaxCounts(view: seq<Observation>, sid: string)
    requires Counted(view)
    ensures MaxGen(OfSession(view, sid)) == Compactions(view, sid, |view|)
  {
    if view != [] {
      var n := |view| - 1;
      var init, last := view[..n], view[n];
      assert view == init + [last];
      forall k | 0 <= k < n
        ensures CountedAt(init, k)
      {
        assert CountedAt(view, k);
        CompactionsLonger(init, last, init[k].sessionId, k + 1);
      }
      MaxCounts(init, sid);
      OfSessionSnoc(init, last, sid);
      CompactionsLonger(init, last, sid, n);
      assert CountedAt(view, n);
      hide Compacts, OfSession, CountedAt, Counted;
      var events := OfSession(init, sid);
      assert (events + [last])[..|events|] == events;
      assert last.sessionId == sid ==> last.contextGen == Compactions(view, sid, n + 1);
    }
  }

  lemma LastCounts(view: seq<Observation>, sid: string, m: nat)
    requires Counted(view) && m < |view| && view[m].sessionId == sid
    requires forall k :: m < k < |view| ==> view[k].sessionId != sid
    ensures view[m].contextGen == Compactions(view, sid, |view|)
  {
    assert CountedAt(view, m);
    NoneBetween(view, sid, m + 1, |view|);
  }

  lemma {:induction false} NoneBetween(view: seq<Observation>, sid: string, m: nat, n: nat)
    requires m <= n <= |view| && forall k :: m <= k < n ==> view[k].sessionId != sid
    ensures Compactions(view, sid, n) == Compactions(view, sid, m)
    decreases n
  {
    if m < n {
      NoneBetween(view, sid, m, n - 1);
    }
  }

  lemma TakeCounts(view: seq<Observation>, r: Record)
    requires Counted(view)
    ensures Counted(Take(view, r))
  {
    if !Seen(view, r) {
      var sid, n := r.sessionId, |view|;
      var o := Observation(sid, r.kind, r.trigger, Generation(view, r), r.ts);
      var after := view + [o];
      forall k | 0 <= k < n
        ensures CountedAt(after, k)
      {
        assert CountedAt(view, k);
        CompactionsLonger(view, o, view[k].sessionId, k + 1);
      }
      MaxCounts(view, sid);
      CompactionsLonger(view, o, sid, n);
      var m := LastOf(view, sid);
      if m >= 0 {
        LastCounts(view, sid, m);
        assert JustBefore(after, m, n);
      }
      hide OfSession, MaxGen, Counted;
      assert AfterNotice(after, n) <==> m >= 0 && view[m].kind == CompactPre;
      assert CountedAt(after, n);
      assert Take(view, r) == after;
      CountedSnoc(after, n);
    }
  }

  lemma CountedSnoc(view: seq<Observation>, n: nat)
    requires |view| == n + 1 && forall k :: 0 <= k <= n ==> CountedAt(view, k)
    ensures Counted(view)
  {
  }

  lemma {:induction false} TakeAllCounts(view: seq<Observation>, records: seq<Record>)
    requires Counted(view)
    ensures Counted(TakeAll(view, records))
  {
    if records != [] {
      var n := |records| - 1;
      TakeAllCounts(view, records[..n]);
      TakeCounts(TakeAll(view, records[..n]), records[n]);
    }
  }

  /** On a ledger whose generations count compactions, an empty one for instance, every flush keeps
      that, after any number of deaths and other writers. */
  lemma GenerationsCount(codec: Codec, rows: seq<Row>, records: seq<Record>, between: seq<Between>)
    requires Chain(rows) && AllPlausible(codec, rows, records, between) && Counted(View(rows))
    ensures Counted(View(FlushRows(codec, AfterAll(codec, rows, records, between), records)))
    ensures Counted(View([]))
  {
    AfterAllKeeps(codec, rows, records, between);
    FlushRowsView(codec, AfterAll(codec, rows, records, between), records);
    TakeAllCounts(View(rows), records);
  }
}
