/** Session timing and agent hours: from verified records to a session's boundaries and observed
moments, and from those to active and wall-clock time.  Times are whole microseconds; the program's
fixed-width UTC timestamps order the same way as strings.
*/
module AgentHours {
  import opened Records

  datatype Source = Claude | Codex

  /** A decoded record: whether it is the source's opening or closing marker, and its timestamp. */
  datatype Decoded = Decoded(opens: bool, closes: bool, at: Option<int>)

  datatype Record = Record(index: nat, subject: bool, value: Option<Decoded>)

  datatype Session = Session(source: Source, startedAt: Option<int>, endedAt: Option<int>, records: seq<Record>)

  datatype Status = Observed | ScanInferred | UnknownStatus

  datatype Coverage = Complete | Partial | UnknownCoverage

  datatype Timing = Timing(openStatus: Status, closeStatus: Status, coverage: Coverage,
                           openedAt: Option<int>, closedAt: Option<int>, observed: seq<int>)

  // ---- Sorting a set ---------------------------------------------------------

  predicate Increasing(s: seq<int>) {
    forall i, j :: 0 <= i < j < |s| ==> s[i] < s[j]
  }

  function Insert(s: seq<int>, x: int): (r: seq<int>)
    requires Increasing(s)
    ensures Increasing(r) && forall y :: y in r <==> y in s || y == x
  {
    if s == [] then [x]
    else if x < s[0] then [x] + s
    else if x == s[0] then s
    else
      assert forall y :: y in s[1..] ==> s[0] < y;
      assert s == [s[0]] + s[1..];
      var rest := Insert(s[1..], x);
      assert forall k :: 0 <= k < |rest| ==> rest[k] in rest;
      [s[0]] + rest
  }

  /** In order, each once. */
  function Sorted(values: seq<int>): (r: seq<int>)
    ensures Increasing(r) && forall x :: x in r <==> x in values
  {
    if values == [] then []
    else
      assert values == values[..|values| - 1] + [values[|values| - 1]];
      Insert(Sorted(values[..|values| - 1]), values[|values| - 1])
  }

  /** The order leaves no choice. */
  lemma {:induction false} SortedUnique(a: seq<int>, b: seq<int>)
    requires Increasing(a) && Increasing(b) && forall x :: x in a <==> x in b
    ensures a == b
    decreases |a|
  {
    assert forall k :: 0 <= k < |a| ==> a[k] in a;
    assert forall k :: 0 <= k < |b| ==> b[k] in b;
    if |a| > 0 && |b| > 0 {
      forall x
        ensures x in a[1..] <==> x in b[1..]
      {
        assert x in a[1..] <==> x in a && x != a[0];
        assert x in b[1..] <==> x in b && x != b[0];
      }
      SortedUnique(a[1..], b[1..]);
    }
  }

  // ---- Active time -----------------------------------------------------------

  function Active(ordered: seq<int>, idleGap: int): int {
    if |ordered| < 2 then 0
    else (if ordered[1] - ordered[0] <= idleGap then ordered[1] - ordered[0] else 0) + Active(ordered[1..], idleGap)
  }

  /** Every step from one moment to the next is within the threshold. */
  predicate NoIdle(ordered: seq<int>, idleGap: int) {
    forall i :: 0 <= i < |ordered| - 1 ==> ordered[i + 1] - ordered[i] <= idleGap
  }

  lemma {:induction false} ActiveBounds(ordered: seq<int>, idleGap: int)
    requires Increasing(ordered) && |ordered| > 0
    ensures 0 <= Active(ordered, idleGap) <= ordered[|ordered| - 1] - ordered[0]
    ensures Active(ordered, idleGap) == ordered[|ordered| - 1] - ordered[0] <==> NoIdle(ordered, idleGap)
  {
    if |ordered| > 1 {
      var rest := ordered[1..];
      ActiveBounds(rest, idleGap);
      if NoIdle(rest, idleGap) && ordered[1] - ordered[0] <= idleGap {
        forall i | 0 <= i < |ordered| - 1
          ensures ordered[i + 1] - ordered[i] <= idleGap
        {
          if i > 0 {
            assert rest[i - 1 + 1] - rest[i - 1] <= idleGap;
          }
        }
      }
      if NoIdle(ordered, idleGap) {
        forall i | 0 <= i < |rest| - 1
          ensures rest[i + 1] - rest[i] <= idleGap
        {
          assert ordered[i + 1 + 1] - ordered[i + 1] <= idleGap;
        }
      }
    }
  }

  lemma {:induction false} ActiveGrowsWithThreshold(ordered: seq<int>, small: int, large: int)
    requires Increasing(ordered) && small <= large
    ensures Active(ordered, small) <= Active(ordered, large)
  {
    if |ordered| > 1 {
      ActiveGrowsWithThreshold(ordered[1..], small, large);
    }
  }

  /** One more moment between two others splits one step and keeps the rest. */
  lemma {:induction false} InsertNeverLowers(ordered: seq<int>, x: int, idleGap: int)
    requires Increasing(ordered) && |ordered| > 0 && ordered[0] <= x <= ordered[|ordered| - 1]
    ensures Active(ordered, idleGap) <= Active(Insert(ordered, x), idleGap)
    ensures Insert(ordered, x)[0] == ordered[0]
  {
    if x > ordered[0] {
      var rest := ordered[1..];
      assert Insert(ordered, x)[1..] == Insert(rest, x);
      if x < rest[0] {
        assert Insert(rest, x)[1..] == rest;
      } else {
        InsertNeverLowers(rest, x, idleGap);
      }
    }
  }

  function Points(opening: int, closing: int, observed: seq<int>): seq<int> {
    [opening, closing] + observed
  }

  function ActiveDuration(t: Timing, idleGap: int): int
    requires t.openedAt.Some? && t.closedAt.Some?
  {
    Active(Sorted(Points(t.openedAt.value, t.closedAt.value, t.observed)), idleGap)
  }

  /** The running total over consecutive moments. */
  method ComputeActive(t: Timing, idleGap: int) returns (total: int)
    requires t.openedAt.Some? && t.closedAt.Some?
    ensures total == ActiveDuration(t, idleGap)
  {
    var ordered := Sorted(Points(t.openedAt.value, t.closedAt.value, t.observed));
    assert t.openedAt.value in ordered;
    total := 0;
    for k := 0 to |ordered| - 1
      invariant total + Active(ordered[k..], idleGap) == Active(ordered, idleGap)
    {
      assert ordered[k..][1..] == ordered[k + 1..];
      var gap := ordered[k + 1] - ordered[k];
      if gap <= idleGap {
        total := total + gap;
      }
    }
  }

  /** The observed moments lie between the boundaries. */
  predicate WithinBounds(t: Timing) {
    && (t.openedAt.Some? && t.closedAt.Some? ==> t.openedAt.value <= t.closedAt.value)
    && (forall x :: x in t.observed ==>
          && (t.openedAt.Some? ==> t.openedAt.value <= x) && (t.closedAt.Some? ==> x <= t.closedAt.value))
  }

  lemma EndsOfPoints(opening: int, closing: int, observed: seq<int>)
    requires opening <= closing && forall x :: x in observed ==> opening <= x <= closing
    ensures var ordered := Sorted(Points(opening, closing, observed));
            |ordered| > 0 && ordered[0] == opening && ordered[|ordered| - 1] == closing
  {
    hide Sorted;
    var points := Points(opening, closing, observed);
    var ordered := Sorted(points);
    assert points[0] == opening && points[1] == closing;
    assert forall x :: x in points <==> x == opening || x == closing || x in observed;
    assert opening in ordered && closing in ordered;
    assert ordered[0] in ordered && ordered[|ordered| - 1] in ordered;
    var i :| 0 <= i < |ordered| && ordered[i] == opening;
    var j :| 0 <= j < |ordered| && ordered[j] == closing;
  }

  /** Active time adds up over a moment where it is cut in two, and two moments count their distance
      in full when it is within the threshold and not at all when it is not. */
  lemma {:induction false} ActiveAddsUp(ordered: seq<int>, k: nat, x: int, y: int, idleGap: int)
    requires k < |ordered|
    ensures Active(ordered, idleGap) == Active(ordered[..k + 1], idleGap) + Active(ordered[k..], idleGap)
    ensures Active([x, y], idleGap) == if y - x <= idleGap then y - x else 0
  {
    assert [x, y][1..] == [y];
    if k > 0 {
      assert ordered[..k + 1][1..] == ordered[1..][..k] && ordered[k..] == ordered[1..][k - 1..];
      ActiveAddsUp(ordered[1..], k - 1, x, y, idleGap);
    } else {
      assert ordered[..1][0] == ordered[0] && ordered[0..] == ordered;
    }
  }

  /** Active time never exceeds wall-clock time, and equals it exactly when no step is idle. */
  lemma ActiveWithinWall(t: Timing, idleGap: int)
    requires t.openedAt.Some? && t.closedAt.Some? && WithinBounds(t)
    ensures 0 <= ActiveDuration(t, idleGap) <= t.closedAt.value - t.openedAt.value
    ensures ActiveDuration(t, idleGap) == t.closedAt.value - t.openedAt.value <==>
            NoIdle(Sorted(Points(t.openedAt.value, t.closedAt.value, t.observed)), idleGap)
  {
    EndsOfPoints(t.openedAt.value, t.closedAt.value, t.observed);
    ActiveBounds(Sorted(Points(t.openedAt.value, t.closedAt.value, t.observed)), idleGap);
  }

  /** Without the bounds the first half fails: one stray observation makes a moment last an hour. */
  lemma ActiveBeyondWall()
    ensures exists t: Timing ::
            && Constructible(t) && t.openedAt == Some(0) && t.closedAt == Some(0) && t.observed == [60]
                                && ActiveDuration(t, 60) > t.closedAt.value - t.openedAt.value
  {
    var t := Timing(Observed, Observed, Complete, Some(0), Some(0), [60]);
    assert Constructible(t);
    var points := Points(0, 0, [60]);
    SortedUnique(Sorted(points), [0, 60]);
    assert Active([0, 60], 60) == 60 + Active([60], 60);
    assert ActiveDuration(t, 60) == 60;
  }

  /** An observation added inside the boundaries never lowers active time. */
  lemma ObservationNeverLowers(t: Timing, x: int, idleGap: int)
    requires t.openedAt.Some? && t.closedAt.Some? && WithinBounds(t)
    requires t.openedAt.value <= x <= t.closedAt.value
    ensures ActiveDuration(t, idleGap) <= ActiveDuration(t.(observed := t.observed + [x]), idleGap)
  {
    var points := Points(t.openedAt.value, t.closedAt.value, t.observed);
    var more := Points(t.openedAt.value, t.closedAt.value, t.observed + [x]);
    assert more[..|more| - 1] == points;
    EndsOfPoints(t.openedAt.value, t.closedAt.value, t.observed);
    InsertNeverLowers(Sorted(points), x, idleGap);
  }

  lemma ThresholdNeverLowers(t: Timing, small: int, large: int)
    requires t.openedAt.Some? && t.closedAt.Some? && small <= large
    ensures ActiveDuration(t, small) <= ActiveDuration(t, large)
  {
    ActiveGrowsWithThreshold(Sorted(Points(t.openedAt.value, t.closedAt.value, t.observed)), small, large);
  }

  // ---- From records to a timing ----------------------------------------------

  function Subject(records: seq<Record>): seq<Record> {
    if records == [] then []
    else (if records[0].subject then [records[0]] else []) + Subject(records[1..])
  }

  function FirstMarker(records: seq<Record>, opening: bool): Option<Record> {
    if records == [] then None
    else if IsMarker(records[0], opening) then Some(records[0])
    else FirstMarker(records[1..], opening)
  }

  function LastMarker(records: seq<Record>, opening: bool): Option<Record> {
    if records == [] then None
    else if IsMarker(records[|records| - 1], opening) then Some(records[|records| - 1])
    else LastMarker(records[..|records| - 1], opening)
  }

  predicate IsMarker(r: Record, opening: bool) {
    r.value.Some? && (if opening then r.value.value.opens else r.value.value.closes)
  }

  function At(r: Record): Option<int> {
    if r.value.Some? then r.value.value.at else None
  }

  /** A boundary: its time, where it came from, and the record index that limits the interval. */
  datatype Limit = Limit(at: Option<int>, status: Status, index: Option<nat>)

  function LimitOf(source: Source, given: Option<int>, marker: Option<Record>): Limit {
    if given.Some? then Limit(given, Observed, None)
    else if marker.Some? && At(marker.value).Some? then
      Limit(At(marker.value), if source == Codex then ScanInferred else Observed, Some(marker.value.index))
    else Limit(None, UnknownStatus, if marker.Some? then Some(marker.value.index) else None)
  }

  predicate Eligible(r: Record, open: Limit, close: Limit) {
    && (open.index.Some? ==> r.index >= open.index.value)
    && (close.index.Some? ==> r.index <= close.index.value)
  }

  /** An observation counts when it has a time inside whatever boundaries are known. */
  predicate Counts(r: Record, openedAt: Option<int>, closedAt: Option<int>) {
    && At(r).Some?
    && (openedAt.Some? ==> openedAt.value <= At(r).value)
    && (closedAt.Some? ==> At(r).value <= closedAt.value)
  }

  /** What every timing value must satisfy to be constructed at all. */
  predicate Constructible(t: Timing) {
    && (t.openedAt.None? <==> t.openStatus == UnknownStatus)
    && (t.closedAt.None? <==> t.closeStatus == UnknownStatus)
    && Increasing(t.observed)
    && (t.openedAt.Some? && t.closedAt.Some? ==> t.openedAt.value <= t.closedAt.value)
    && (t.coverage == UnknownCoverage ==> t.observed == [])
  }

  function Between(records: seq<Record>, open: Limit, close: Limit): seq<Record> {
    if records == [] then []
    else (if Eligible(records[0], open, close) then [records[0]] else []) + Between(records[1..], open, close)
  }

  lemma {:induction false} BetweenHolds(records: seq<Record>, open: Limit, close: Limit)
    ensures forall r :: r in Between(records, open, close) <==> r in records && Eligible(r, open, close)
  {
    if records != [] {
      BetweenHolds(records[1..], open, close);
      assert records == [records[0]] + records[1..];
    }
  }

  /** The moments the program keeps, and whether it kept one of every record. */
  ghost predicate Kept(eligible: seq<Record>, openedAt: Option<int>, closedAt: Option<int>, moments: seq<int>,
                       all: bool) {
    && (forall x :: x in moments <==> exists r :: r in eligible && Counts(r, openedAt, closedAt) && At(r) == Some(x))
    && (all <==> forall r :: r in eligible ==> Counts(r, openedAt, closedAt))
  }

  lemma KeptStep(eligible: seq<Record>, r: Record, openedAt: Option<int>, closedAt: Option<int>, moments: seq<int>,
                 all: bool)
    requires Kept(eligible, openedAt, closedAt, moments, all)
    ensures Counts(r, openedAt, closedAt) ==> Kept(eligible + [r], openedAt, closedAt, moments + [At(r).value], all)
    ensures !Counts(r, openedAt, closedAt) ==> Kept(eligible + [r], openedAt, closedAt, moments, false)
  {
    assert forall q :: q in eligible + [r] <==> q in eligible || q == r;
  }

  lemma NothingKept(openedAt: Option<int>, closedAt: Option<int>)
    ensures Kept([], openedAt, closedAt, [], true)
  {
  }

  lemma LimitStatus(source: Source, given: Option<int>, marker: Option<Record>)
    ensures var limit := LimitOf(source, given, marker); limit.at.None? <==> limit.status == UnknownStatus
  {
  }

  /** Sorting keeps the same moments; moments kept are within the boundaries. */
  lemma KeptSorted(eligible: seq<Record>, openedAt: Option<int>, closedAt: Option<int>, moments: seq<int>, all: bool)
    requires Kept(eligible, openedAt, closedAt, moments, all)
    ensures Kept(eligible, openedAt, closedAt, Sorted(moments), all)
    ensures eligible == [] ==> all
    ensures forall x :: x in Sorted(moments) ==>
              (openedAt.Some? ==> openedAt.value <= x) && (closedAt.Some? ==> x <= closedAt.value)
  {
  }

  // ---- What a timing states of its session -----------------------------------

  predicate Opens(r: Record) {
    r.subject && r.value.Some? && r.value.value.opens
  }

  predicate Closes(r: Record) {
    r.subject && r.value.Some? && r.value.value.closes
  }

  /** The subject's first opening marker, and last closing marker, stand here. */
  ghost predicate FirstOpening(records: seq<Record>, i: nat) {
    i < |records| && Opens(records[i]) && forall j :: 0 <= j < i ==> !Opens(records[j])
  }

  ghost predicate LastClosing(records: seq<Record>, i: nat) {
    i < |records| && Closes(records[i]) && forall j :: i < j < |records| ==> !Closes(records[j])
  }

  /** A boundary taken from a marker that may have no time of its own. */
  ghost predicate MarkedAs(source: Source, r: Record, limit: Limit) {
    && r.value.Some? && limit.index == Some(r.index) && limit.at == r.value.value.at
    && (limit.at.Some? ==> limit.status == if source == Codex then ScanInferred else Observed)
    && (limit.at.None? ==> limit.status == UnknownStatus)
  }

  /** A given start is the opening; otherwise the subject's first opening marker is, if there is one. */
  ghost predicate OpenedAs(session: Session, limit: Limit) {
    && (session.startedAt.Some? ==> limit == Limit(session.startedAt, Observed, None))
    && (session.startedAt.None? ==>
          && (forall i: nat :: FirstOpening(session.records, i) ==> MarkedAs(session.source, session.records[i], limit))
          && ((forall i :: 0 <= i < |session.records| ==> !Opens(session.records[i])) ==>
                limit == Limit(None, UnknownStatus, None)))
  }

  ghost predicate ClosedAs(session: Session, limit: Limit) {
    && (session.endedAt.Some? ==> limit == Limit(session.endedAt, Observed, None))
    && (session.endedAt.None? ==>
          && (forall i: nat :: LastClosing(session.records, i) ==> MarkedAs(session.source, session.records[i], limit))
          && ((forall i :: 0 <= i < |session.records| ==> !Closes(session.records[i])) ==>
                limit == Limit(None, UnknownStatus, None)))
  }

  /** A record of the subject, not outside the markers where these limit the interval. */
  predicate InSpan(r: Record, open: Limit, close: Limit) {
    && r.subject
    && (open.index.Some? ==> open.index.value <= r.index) && (close.index.Some? ==> r.index <= close.index.value)
  }

  /** It has a time, and that time is not outside the boundaries known. */
  predicate Contributes(r: Record, t: Timing) {
    && r.value.Some? && r.value.value.at.Some?
    && (t.openedAt.Some? ==> t.openedAt.value <= r.value.value.at.value)
    && (t.closedAt.Some? ==> r.value.value.at.value <= t.closedAt.value)
  }

  /** The timing of a session with these two boundaries; an end before the opening is dropped. */
  ghost predicate TimedBetween(session: Session, t: Timing, open: Limit, close: Limit) {
    && OpenedAs(session, open) && ClosedAs(session, close)
    && t.openedAt == open.at && t.openStatus == open.status
    && (if open.at.Some? && close.at.Some? && close.at.value < open.at.value
        then t.closedAt == None && t.closeStatus == UnknownStatus
        else t.closedAt == close.at && t.closeStatus == close.status)
    && (forall x :: x in t.observed <==>
          exists r :: r in session.records && InSpan(r, open, close) && Contributes(r, t)
              && r.value.value.at.value == x)
    && (t.coverage == UnknownCoverage <==> forall r :: r in session.records ==> !InSpan(r, open, close))
    && (t.coverage == Complete <==>
          && (exists r :: r in session.records && InSpan(r, open, close))
          && (forall r :: r in session.records && InSpan(r, open, close) ==> Contributes(r, t)))
  }

  ghost predicate TimedAs(session: Session, t: Timing) {
    exists open, close :: TimedBetween(session, t, open, close)
  }

  lemma {:induction false} SubjectHolds(records: seq<Record>)
    ensures forall r :: r in Subject(records) <==> r in records && r.subject
  {
    if records != [] {
      SubjectHolds(records[1..]);
      assert records == [records[0]] + records[1..];
    }
  }

  lemma {:induction false} FirstMarkerIs(records: seq<Record>)
    ensures var m := FirstMarker(Subject(records), true);
            && (forall i: nat :: FirstOpening(records, i) ==> m == Some(records[i]))
            && ((forall i :: 0 <= i < |records| ==> !Opens(records[i])) ==> m == None)
  {
    if records != [] {
      var rest := records[1..];
      FirstMarkerIs(rest);
      assert records[0].subject ==> Subject(records)[0] == records[0] && Subject(records)[1..] == Subject(rest);
      assert !records[0].subject ==> Subject(records) == Subject(rest);
      assert FirstMarker(Subject(records), true) ==
             if Opens(records[0]) then Some(records[0]) else FirstMarker(Subject(rest), true);
      hide Subject, FirstMarker;
      forall i: nat | FirstOpening(records, i)
        ensures FirstMarker(Subject(records), true) == Some(records[i])
      {
        if i > 0 {
          assert !Opens(records[0]);
          assert forall j :: 0 <= j < i - 1 ==> rest[j] == records[j + 1];
          assert FirstOpening(rest, i - 1);
        }
      }
      if forall i :: 0 <= i < |records| ==> !Opens(records[i]) {
        assert forall i :: 0 <= i < |rest| ==> rest[i] == records[i + 1];
        assert !Opens(records[0]);
      }
    }
  }

  lemma {:induction false} SubjectSnoc(records: seq<Record>, r: Record)
    ensures Subject(records + [r]) == Subject(records) + (if r.subject then [r] else [])
  {
    if records == [] {
      assert records + [r] == [r];
    } else {
      assert (records + [r])[1..] == records[1..] + [r];
      SubjectSnoc(records[1..], r);
    }
  }

  lemma {:induction false} LastMarkerIs(records: seq<Record>)
    ensures var m := LastMarker(Subject(records), false);
            && (forall i: nat :: LastClosing(records, i) ==> m == Some(records[i]))
            && ((forall i :: 0 <= i < |records| ==> !Closes(records[i])) ==> m == None)
  {
    if records != [] {
      var n := |records| - 1;
      var init := records[..n];
      LastMarkerIs(init);
      assert records == init + [records[n]];
      SubjectSnoc(init, records[n]);
      assert Subject(init) + [] == Subject(init);
      assert records[n].subject ==>
        var all := Subject(records); all[|all| - 1] == records[n] && all[..|all| - 1] == Subject(init);
      assert LastMarker(Subject(records), false) ==
             if Closes(records[n]) then Some(records[n]) else LastMarker(Subject(init), false);
      hide Subject, LastMarker;
      forall i: nat | LastClosing(records, i)
        ensures LastMarker(Subject(records), false) == Some(records[i])
      {
        if i < n {
          assert !Closes(records[n]);
          assert LastClosing(init, i);
        }
      }
      if forall i :: 0 <= i < |records| ==> !Closes(records[i]) {
        assert !Closes(records[n]);
      }
    }
  }

  lemma BoundariesHold(session: Session)
    ensures OpenedAs(session, LimitOf(session.source, session.startedAt, FirstMarker(Subject(session.records), true)))
    ensures ClosedAs(session, LimitOf(session.source, session.endedAt, LastMarker(Subject(session.records), false)))
  {
    FirstMarkerIs(session.records);
    LastMarkerIs(session.records);
    hide Subject, FirstMarker, LastMarker;
  }

  lemma SpanHolds(session: Session, eligible: seq<Record>, open: Limit, close: Limit)
    requires eligible == Between(Subject(session.records), open, close)
    ensures forall r :: r in eligible <==> r in session.records && InSpan(r, open, close)
    ensures eligible == [] <==> forall r :: r in session.records ==> !InSpan(r, open, close)
  {
    SubjectHolds(session.records);
    BetweenHolds(Subject(session.records), open, close);
    if eligible != [] {
      assert eligible[0] in eligible;
    }
  }

  lemma TimingHolds(session: Session, t: Timing, eligible: seq<Record>, open: Limit, close: Limit)
    requires OpenedAs(session, open) && ClosedAs(session, close)
    requires t.openedAt == open.at && t.openStatus == open.status
    requires if open.at.Some? && close.at.Some? && open.at.value > close.at.value
             then t.closedAt == None && t.closeStatus == UnknownStatus
             else t.closedAt == close.at && t.closeStatus == close.status
    requires forall r :: r in eligible <==> r in session.records && InSpan(r, open, close)
    requires eligible == [] <==> forall r :: r in session.records ==> !InSpan(r, open, close)
    requires Kept(eligible, t.openedAt, t.closedAt, t.observed, t.coverage == Complete || eligible == [])
    requires t.coverage == UnknownCoverage <==> eligible == []
    ensures TimedAs(session, t)
  {
    hide OpenedAs, ClosedAs;
    assert forall r :: Counts(r, t.openedAt, t.closedAt) <==> Contributes(r, t);
    assert eligible != [] ==> eligible[0] in eligible;
    assert TimedBetween(session, t, open, close);
  }

  /** Sort, deduplicate and bound one session's moments.  The result can always be constructed, its
      observations lie within its boundaries, and its coverage is complete exactly when every
      record between the boundary markers contributed. */
  method NormalizeOne(session: Session) returns (t: Timing)
    ensures Constructible(t) && WithinBounds(t)
    ensures TimedAs(session, t)
  {
    hide Subject, FirstMarker, LastMarker, LimitOf, Between, Kept;
    var records := Subject(session.records);
    var open := LimitOf(session.source, session.startedAt, FirstMarker(records, true));
    var close := LimitOf(session.source, session.endedAt, LastMarker(records, false));
    var closedAt, closeStatus := close.at, close.status;
    if open.at.Some? && close.at.Some? && open.at.value > close.at.value {
      closedAt, closeStatus := None, UnknownStatus;
    }
    LimitStatus(session.source, session.startedAt, FirstMarker(records, true));
    LimitStatus(session.source, session.endedAt, LastMarker(records, false));
    var eligible := Between(records, open, close);
    var valid: seq<int> := [];
    var complete := true;
    NothingKept(open.at, closedAt);
    for k := 0 to |eligible|
      invariant Kept(eligible[..k], open.at, closedAt, valid, complete)
      invariant k == 0 ==> valid == []
    {
      var r := eligible[k];
      KeptStep(eligible[..k], r, open.at, closedAt, valid, complete);
      assert eligible[..k + 1] == eligible[..k] + [r];
      if r.value.None? || At(r).None? {
        complete := false;
      } else if open.at.Some? && At(r).value < open.at.value {
        complete := false;
      } else if closedAt.Some? && At(r).value > closedAt.value {
        complete := false;
      } else {
        valid := valid + [At(r).value];
      }
    }
    assert eligible[..|eligible|] == eligible;
    var coverage := if eligible == [] then UnknownCoverage else if complete then Complete else Partial;
    t := Timing(open.status, closeStatus, coverage, open.at, closedAt, Sorted(valid));
    KeptSorted(eligible, open.at, closedAt, valid, complete);
    BoundariesHold(session);
    SpanHolds(session, eligible, open, close);
    TimingHolds(session, t, eligible, open, close);
  }

  // ---- Totals ----------------------------------------------------------------

  predicate BoundaryKnown(t: Timing) {
    t.openedAt.Some? && t.closedAt.Some?
  }

  predicate ActiveKnown(t: Timing) {
    BoundaryKnown(t) && t.coverage == Complete
  }

  function WallTotal(timings: seq<Timing>): int {
    if timings == [] then 0
    else
      (if BoundaryKnown(timings[0]) then timings[0].closedAt.value - timings[0].openedAt.value else 0)
      + WallTotal(timings[1..])
  }

  function ActiveTotal(timings: seq<Timing>, idleGap: int): int {
    if timings == [] then 0
    else
      (if ActiveKnown(timings[0]) then ActiveDuration(timings[0], idleGap) else 0)
      + ActiveTotal(timings[1..], idleGap)
  }

  /** The scorer's active total never exceeds its wall-clock total, although it sums over fewer
      sessions, and grows with the threshold. */
  lemma {:induction false} TotalsBounded(timings: seq<Timing>, small: int, large: int)
    requires forall t :: t in timings ==> WithinBounds(t)
    requires small <= large
    ensures 0 <= ActiveTotal(timings, small) <= ActiveTotal(timings, large) <= WallTotal(timings)
  {
    hide Active, Sorted;
    if timings != [] {
      assert timings[0] in timings;
      TotalsBounded(timings[1..], small, large);
      if BoundaryKnown(timings[0]) {
        ActiveWithinWall(timings[0], small);
        ActiveWithinWall(timings[0], large);
        ThresholdNeverLowers(timings[0], small, large);
      }
    }
  }

  /** When every session's boundaries and coverage are complete and no step is idle, the two totals
      agree. */
  lemma {:induction false} TotalsAgree(timings: seq<Timing>, idleGap: int)
    requires forall t :: t in timings ==> WithinBounds(t)
    requires forall t :: t in timings && BoundaryKnown(t) ==>
               ActiveKnown(t) && NoIdle(Sorted(Points(t.openedAt.value, t.closedAt.value, t.observed)), idleGap)
    ensures ActiveTotal(timings, idleGap) == WallTotal(timings)
  {
    hide Active, Sorted;
    if timings != [] {
      assert timings[0] in timings;
      TotalsAgree(timings[1..], idleGap);
      if BoundaryKnown(timings[0]) {
        ActiveWithinWall(timings[0], idleGap);
      }
    }
  }

  /** The totals add up over lists of timings, and one timing adds its own wall-clock time when both
      boundaries are known, and its active time when its coverage is complete as well. */
  lemma {:induction false} TotalsAddUp(a: seq<Timing>, b: seq<Timing>, t: Timing, idleGap: int)
    ensures WallTotal(a + b) == WallTotal(a) + WallTotal(b)
    ensures ActiveTotal(a + b, idleGap) == ActiveTotal(a, idleGap) + ActiveTotal(b, idleGap)
    ensures WallTotal([t]) ==
            if t.openedAt.Some? && t.closedAt.Some? then t.closedAt.value - t.openedAt.value else 0
    ensures ActiveTotal([t], idleGap) ==
            if t.openedAt.Some? && t.closedAt.Some? && t.coverage == Complete then ActiveDuration(t, idleGap) else 0
  {
    assert [t][1..] == [];
    if a == [] {
      assert a + b == b;
    } else {
      assert (a + b)[1..] == a[1..] + b;
      TotalsAddUp(a[1..], b, t, idleGap);
    }
  }

  /** The scorer's two sums over the timings of the sessions it is given. */
  method Score(sessions: seq<Session>, idleGap: int) returns (timings: seq<Timing>, wall: int, active: int)
    ensures |timings| == |sessions| && forall k :: 0 <= k < |timings| ==> TimedAs(sessions[k], timings[k])
    ensures forall t :: t in timings ==> Constructible(t) && WithinBounds(t)
    ensures wall == WallTotal(timings) && active == ActiveTotal(timings, idleGap)
    ensures 0 <= active <= wall
  {
    hide TimedAs;
    timings := [];
    for k := 0 to |sessions|
      invariant |timings| == k && forall j :: 0 <= j < k ==> TimedAs(sessions[j], timings[j])
      invariant forall t :: t in timings ==> Constructible(t) && WithinBounds(t)
    {
      var t := NormalizeOne(sessions[k]);
      timings := timings + [t];
    }
    TotalsBounded(timings, idleGap, idleGap);
    wall, active := WallTotal(timings), ActiveTotal(timings, idleGap);
  }
}
