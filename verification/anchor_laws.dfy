/** When a cut and a publication go through, told from the events in the two directories. */
module AnchorLaws {
  import opened Records
  import opened Ledger
  import opened LedgerWriters
  import opened Anchors

  // ---- Where the known events end --------------------------------------------

  /** The largest range end among these events, or zero when there is none. */
  ghost predicate EndsAt(known: set<Dated>, end: int) {
    && end >= 0 && (forall e :: e in known ==> e.event.rowEnd <= end)
    && (end > 0 ==> exists e :: e in known && e.event.rowEnd == end)
  }

  function Files(log: seq<Dated>): set<Dated> {
    set e | e in log
  }

  lemma {:induction false} MaxIsEnd(log: seq<Dated>, from: int, known: set<Dated>)
    requires EndsAt(known, from)
    ensures EndsAt(known + Files(log), MaxEnd(log, from))
  {
    if log == [] {
      assert known + Files(log) == known;
    } else {
      var next := if log[0].event.rowEnd > from then log[0].event.rowEnd else from;
      assert EndsAt(known + {log[0]}, next) by {
        if next == from && from > 0 {
          var e :| e in known && e.event.rowEnd == from;
          assert e in known + {log[0]};
        } else {
          assert log[0] in known + {log[0]};
        }
      }
      MaxIsEnd(log[1..], next, known + {log[0]});
      assert known + {log[0]} + Files(log[1..]) == known + Files(log) by {
        assert log == [log[0]] + log[1..];
      }
    }
  }

  lemma EndIsOne(known: set<Dated>, a: int, b: int)
    requires EndsAt(known, a) && EndsAt(known, b)
    ensures a == b
  {
  }

  // ---- Cutting ---------------------------------------------------------------

  predicate HasRoot(rows: seq<Row>, from: int) {
    exists k :: 0 <= k < |rows| && from <= k && rows[k].body.payload.Session?
  }

  lemma DatesAre(log: seq<Dated>, date: int)
    ensures HasDate(log, date) <==> exists e :: e in log && e.date == date
  {
    if e :| e in log && e.date == date {
      var k :| 0 <= k < |log| && log[k] == e;
    }
    if HasDate(log, date) {
      var k :| 0 <= k < |log| && log[k].date == date;
      assert log[k] in log;
    }
  }

  /** A day is cut if and only if neither directory has an event of that day and a chain of rows goes on,
      with a session row, past the end of all known events; the event then covers all that lies past it. */
  lemma CutIff(rows: seq<Row>, staging: seq<Dated>, clone: seq<Dated>, date: int, end: int)
    requires EndsAt(Files(staging) + Files(clone), end)
    ensures Cut(rows, staging, clone, date).Some? <==>
            && (forall e :: e in staging || e in clone ==> e.date != date)
            && Chain(rows) && HasRoot(rows, end)
    ensures Cut(rows, staging, clone, date).Some? ==>
              var cut := Cut(rows, staging, clone, date).value;
              && cut.date == date && cut.event.rowStart == end && cut.event.rowEnd == |rows|
              && cut.event.signed && EventFits(rows, cut.event)
  {
    assert EndsAt({}, 0);
    MaxIsEnd(staging, 0, {});
    MaxIsEnd(clone, MaxEnd(staging, 0), {} + Files(staging));
    assert {} + Files(staging) + Files(clone) == Files(staging) + Files(clone);
    EndIsOne(Files(staging) + Files(clone), end, MaxEnd(clone, MaxEnd(staging, 0)));
    DatesAre(staging, date);
    DatesAre(clone, date);
    var previous := if end > 0 then Some(end as nat) else None;
    BatchRefusals(rows, previous, None);
    IntactIffChain(rows);
    if BuildBatch(rows, previous, None).Some? {
      BuiltBatchVerifies(rows, previous, None, rows);
    }
    hide EndsAt, MaxEnd, Chain, SessionRoots, VerifyRows, EventFits, Files;
  }

  /** A batch verifies against its rows if and only if it is signed and fits them in everything but the
      number of items, which the verifier cannot know. */
  lemma VerifiesIff(rows: seq<Row>, event: StagedEvent)
    requires 0 <= event.rowStart <= event.rowEnd <= |rows|
    ensures VerifyBatch(event, rows[event.rowStart..event.rowEnd]) <==>
            event.signed && exists items :: EventFits(rows, event.(itemCount := items))
  {
    var covered := rows[event.rowStart..event.rowEnd];
    FewerRootsThanRows(covered);
    if VerifyBatch(event, covered) {
      assert EventFits(rows, event.(itemCount := ItemTotal(covered)));
    }
  }

  // ---- Publishing ------------------------------------------------------------

  /** The staged event may be taken: it is in the clone as it stands, or no event of its day is and it
      starts where all events before it end. */
  ghost predicate Takes(staging: seq<Dated>, files: seq<Dated>, k: nat)
    requires k < |staging|
  {
    || staging[k] in files
    || ((forall f :: f in files ==> f.date != staging[k].date)
        && EndsAt(Files(files) + Files(staging[..k]), staging[k].event.rowStart))
  }

  lemma InsertHolds(log: seq<Dated>, e: Dated)
    requires DatesIncrease(log) && forall f :: f in log ==> f.date != e.date
    ensures DatesIncrease(Insert(log, e)) && forall f :: f in Insert(log, e) <==> f in log || f == e
  {
    var j := InsertSplits(log, e);
    forall k | 0 <= k < |log|
      ensures log[k].date != e.date
    {
      assert log[k] in log;
    }
  }

  lemma FindIs(log: seq<Dated>, e: Dated)
    requires DatesIncrease(log)
    ensures Find(log, e.date) == Some(e) <==> e in log
    ensures Find(log, e.date).None? <==> forall f :: f in log ==> f.date != e.date
  {
    DatesAre(log, e.date);
    if Find(log, e.date).Some? && e in log {
      var f := Find(log, e.date).value;
      var i, j :| 0 <= i < |log| && log[i] == f && 0 <= j < |log| && log[j] == e;
    }
  }

  /** All of these events were there. */
  predicate NoneNew(events: seq<Dated>, files: seq<Dated>) {
    forall e :: e in events ==> e in files
  }

  /** What the loop has done to the clone when it took the first `n` staged events: their files are there,
      by date, those that were not are tracked, and the last commit took all that is tracked. */
  ghost predicate Taken(staging: seq<Dated>, before: Clone, n: nat, after: Clone)
    requires n <= |staging|
  {
    && DatesIncrease(after.files)
    && (forall e :: e in after.files <==> e in before.files || e in staging[..n])
    && (forall e :: e in after.index <==> e in before.index || (e in staging[..n] && e !in before.files))
    && (if NoneNew(staging[..n], before.files) then after == before else after.committed == after.index)
  }

  lemma TakesRest(staging: seq<Dated>, files: seq<Dated>, more: seq<Dated>, k: nat)
    requires DatesIncrease(staging) && staging != [] && k < |staging| - 1
    requires forall f :: f in more <==> f in files || f == staging[0]
    ensures Takes(staging[1..], more, k) <==> Takes(staging, files, k + 1)
  {
    var e := staging[k + 1];
    assert staging[1..][k] == e && e.date != staging[0].date;
    assert Files(more) + Files(staging[1..][..k]) == Files(files) + Files(staging[..k + 1]) by {
      assert staging[..k + 1] == [staging[0]] + staging[1..][..k];
    }
  }

  /** The loop goes through if and only if every staged event may be taken, and stops at the first that may
      not; the clone then holds, by date, what it held and the events taken, none of them changed. */
  lemma {:induction false} PublishIff(staging: seq<Dated>, clone: Clone)
    requires DatesIncrease(staging) && DatesIncrease(clone.files)
    ensures PublishFrom(staging, clone).ok <==> forall k :: 0 <= k < |staging| ==> Takes(staging, clone.files, k)
    ensures exists n :: 0 <= n <= |staging| && Taken(staging, clone, n, PublishFrom(staging, clone).clone)
                        && (PublishFrom(staging, clone).ok <==> n == |staging|)
                        && (n < |staging| ==> !Takes(staging, clone.files, n))
    decreases |staging|
  {
    if staging == [] {
      assert Taken(staging, clone, 0, clone);
    } else {
      FirstTaken(staging, clone);
      if Takes(staging, clone.files, 0) {
        var next := if staging[0] in clone.files then clone else Committing(clone, staging[0]);
        RestIncreases(staging);
        PublishIff(staging[1..], next);
        var n :| 0 <= n <= |staging[1..]| && Taken(staging[1..], next, n, PublishFrom(staging[1..], next).clone)
                 && (PublishFrom(staging[1..], next).ok <==> n == |staging[1..]|)
                 && (n < |staging[1..]| ==> !Takes(staging[1..], next.files, n));
        forall k: nat | k < |staging| - 1
          ensures Takes(staging[1..], next.files, k) <==> Takes(staging, clone.files, k + 1)
        {
          TakesRest(staging, clone.files, next.files, k);
        }
        hide Takes, PublishFrom, Committing, DatesIncrease;
        TakenMore(staging, clone, next, n, PublishFrom(staging, clone).clone);
        RestTakes(staging, clone, next);
      } else {
        assert staging[..0] == [];
        assert Taken(staging, clone, 0, clone);
      }
    }
  }

  lemma RestIncreases(staging: seq<Dated>)
    requires DatesIncrease(staging) && staging != []
    ensures DatesIncrease(staging[1..])
  {
  }

  lemma TakenMore(staging: seq<Dated>, clone: Clone, next: Clone, n: nat, after: Clone)
    requires staging != [] && n < |staging| && DatesIncrease(staging) && Taken(staging[1..], next, n, after)
    requires Follows(staging[0], clone, next)
    ensures Taken(staging, clone, n + 1, after)
  {
    var e := staging[0];
    assert staging[..n + 1] == [e] + staging[1..][..n];
    forall f | f in staging[1..][..n]
      ensures f != e
    {
      var k :| 0 <= k < n && staging[1..][k] == f;
      assert staging[k + 1] == f;
    }
    hide DatesIncrease;
  }

  /** The clone after one event: as it was when the event was there, else with it in all three places. */
  ghost predicate Follows(e: Dated, clone: Clone, next: Clone) {
    && (forall f :: f in next.files <==> f in clone.files || f == e)
    && (if e in clone.files then next == clone
        else (forall f :: f in next.index <==> f in clone.index || f == e) && next.committed == next.index)
  }

  lemma {:induction false} InsertMembers(log: seq<Dated>, e: Dated)
    ensures forall f :: f in Insert(log, e) <==> f in log || f == e
  {
    if log != [] {
      InsertMembers(log[1..], e);
      assert log == [log[0]] + log[1..];
    }
  }

  lemma RestTakes(staging: seq<Dated>, clone: Clone, next: Clone)
    requires staging != [] && Takes(staging, clone.files, 0)
    requires forall k: nat :: k < |staging| - 1 ==>
               (Takes(staging[1..], next.files, k) <==> Takes(staging, clone.files, k + 1))
    ensures (forall k :: 0 <= k < |staging| ==> Takes(staging, clone.files, k)) <==>
            forall k :: 0 <= k < |staging[1..]| ==> Takes(staging[1..], next.files, k)
  {
    hide Takes;
    if forall k :: 0 <= k < |staging[1..]| ==> Takes(staging[1..], next.files, k) {
      forall k | 0 <= k < |staging|
        ensures Takes(staging, clone.files, k)
      {
        if k > 0 {
          assert Takes(staging[1..], next.files, k - 1);
        }
      }
    }
  }

  lemma NextFollows(clone: Clone, e: Dated)
    requires DatesIncrease(clone.files) && (e in clone.files || forall f :: f in clone.files ==> f.date != e.date)
    ensures var next := if e in clone.files then clone else Committing(clone, e);
            DatesIncrease(next.files) && Follows(e, clone, next)
  {
    InsertMembers(clone.index, e);
    if e !in clone.files {
      InsertHolds(clone.files, e);
    }
    hide DatesIncrease, Insert;
  }

  /** The first staged event: found as it is, taken as a new one, or the end of the loop. */
  lemma FirstTaken(staging: seq<Dated>, clone: Clone)
    requires staging != [] && DatesIncrease(staging) && DatesIncrease(clone.files)
    ensures var e := staging[0];
            if !Takes(staging, clone.files, 0) then PublishFrom(staging, clone) == Published(false, clone)
            else
              var next := if e in clone.files then clone else Committing(clone, e);
              && PublishFrom(staging, clone) == PublishFrom(staging[1..], next)
              && DatesIncrease(next.files) && Follows(e, clone, next)
  {
    hide EndsAt, MaxEnd, DatesIncrease, Files, Insert, Find, Follows, Committing;
    var e := staging[0];
    FindIs(clone.files, e);
    NoneEnds();
    MaxIsEnd(clone.files, 0, {});
    assert Files(staging[..0]) == {} by {
      NoFiles();
    }
    assert {} + Files(clone.files) == Files(clone.files) + Files(staging[..0]);
    if EndsAt(Files(clone.files) + Files(staging[..0]), e.event.rowStart) {
      EndIsOne(Files(clone.files) + Files(staging[..0]), e.event.rowStart, MaxEnd(clone.files, 0));
    }
    if Takes(staging, clone.files, 0) {
      NextFollows(clone, e);
    }
  }

  lemma NoneEnds()
    ensures EndsAt({}, 0)
  {
  }

  lemma NoFiles()
    ensures Files([]) == {}
  {
  }
}
