/** Growing a corpus record by record, as both transcript producers do, and why what grows this way
passes the validator's checks on events and coverage.
*/
module CorpusBuild {
  import opened Records
  import opened LineageGraph
  import opened Episodes
  import opened Corpus

  /** One record's contribution. */
  datatype Parsed = Parsed(record: nat, parent: ParentLink, observedAt: Option<int>, commitment: Digest,
                           details: seq<Detail>)

  function EventAt(session: nat, episode: Option<EpisodeId>, p: Parsed, i: nat): Event
    requires i < |p.details|
  {
    Event.Event(session, p.record, i, episode, p.observedAt, p.parent, p.details[i])
  }

  function RecordEvents(session: nat, episode: Option<EpisodeId>, p: Parsed): seq<Event> {
    seq(|p.details|, i requires 0 <= i < |p.details| => EventAt(session, episode, p, i))
  }

  function GenerationsIn(details: seq<Detail>): seq<nat> {
    if details == [] then []
    else
      var last := details[|details| - 1];
      GenerationsIn(details[..|details| - 1]) +
      (if last.Lifecycle? && last.generation.Some? then [last.generation.value] else [])
  }

  // ---- What one record must satisfy ------------------------------------------

  predicate DetailShape(d: Detail) {
    EventShape(Event.Event(0, 0, 0, None, None, RootRecord, d))
  }

  /** A forge action follows the tool call it came from and points where that call points. */
  predicate ForgeFollows(p: Parsed, i: nat)
    requires i < |p.details|
  {
    p.details[i].Forge? ==>
      && p.details[i].outcome == UnknownResult
      && p.details[i].call.LinkedTool? && p.details[i].call.record == p.record && p.details[i].call.sub < i
      && p.details[p.details[i].call.sub].ToolCall?
      && p.details[p.details[i].call.sub].input == Some(p.details[i].invocation)
  }

  predicate DetailOk(p: Parsed, i: nat)
    requires i < |p.details|
  {
    && DetailShape(p.details[i])
    && (PointerOf(p.details[i]).Some? ==> PointerOf(p.details[i]).value.commitment == p.commitment)
    && ForgeFollows(p, i)
  }

  ghost predicate RecordOk(p: Parsed) {
    && (p.parent.LinkedParent? ==> p.parent.record < p.record)
    && (forall i :: 0 <= i < |p.details| ==> DetailOk(p, i))
    && (forall i, j :: 0 <= i < j < |p.details| && p.details[i].Forge? && p.details[j].Forge? ==>
          p.details[i].call != p.details[j].call)
  }

  predicate CallAt(events: seq<Event>, session: nat, record: nat, sub: nat) {
    exists e :: e in events && e.session == session && e.record == record && e.sub == sub && e.detail.ToolCall?
  }

  /** How the record fits after the events so far. */
  ghost predicate Fits(events: seq<Event>, session: nat, p: Parsed) {
    && (forall e :: e in events ==> e.session < session || (e.session == session && e.record < p.record))
    && (forall i :: 0 <= i < |p.details| ==> ResultFits(events, session, p.details[i]))
    && Ascending(GenerationsIn(p.details))
    && (forall g, h :: g in GenerationsIn(p.details) && h in GenerationsOf(events, session) ==> h < g)
  }

  predicate ResultFits(events: seq<Event>, session: nat, d: Detail) {
    d.ToolResult? && d.relation.LinkedTool? ==> CallAt(events, session, d.relation.record, d.relation.sub)
  }

  // ---- The corpus while it grows ---------------------------------------------

  ghost predicate ForgePending(events: seq<Event>, e: Event) {
    e.detail.Forge? ==>
      && e.detail.outcome == UnknownResult && e.detail.call.LinkedTool? && e.detail.call.record == e.record
      && exists target :: Standing(events, e, e.detail.call, target) && target.detail.input == Some(e.detail.invocation)
  }

  predicate ParentPrecedes(e: Event) {
    e.parent.LinkedParent? ==> e.parent.record < e.record
  }

  ghost predicate Growing(events: seq<Event>) {
    && Ordered(events)
    && (forall e :: e in events ==> EventShape(e) && ParentPrecedes(e))
    && (forall a, b :: a in events && b in events ==> SameSource(a, b))
    && Contiguous(events) && GenerationsRise(events)
    && (forall e :: e in events ==> ResultBound(events, e))
    && (forall e :: e in events ==> ForgePending(events, e))
    && ForgesDistinct(events)
  }

  lemma RecordEventsHold(session: nat, episode: Option<EpisodeId>, p: Parsed)
    ensures var added := RecordEvents(session, episode, p);
            && |added| == |p.details|
            && (forall i :: 0 <= i < |added| ==> added[i] == EventAt(session, episode, p, i))
            && (forall e :: e in added ==> e.session == session && e.record == p.record && e.episode == episode
                                            && e.sub < |p.details| && e == EventAt(session, episode, p, e.sub))
  {
  }

  lemma AppendOrdered(events: seq<Event>, session: nat, episode: Option<EpisodeId>, p: Parsed)
    requires Ordered(events) && Fits(events, session, p)
    ensures Ordered(events + RecordEvents(session, episode, p))
  {
    RecordEventsHold(session, episode, p);
    var added := RecordEvents(session, episode, p);
    var all := events + added;
    forall i, j | 0 <= i < j < |all|
      ensures Precedes(all[i], all[j])
    {
      if i < |events| {
        assert all[i] == events[i] && events[i] in events;
        assert j >= |events| ==> all[j] == added[j - |events|];
      } else {
        assert all[i] == added[i - |events|] && all[j] == added[j - |events|];
      }
    }
  }

  lemma AppendShape(events: seq<Event>, session: nat, episode: Option<EpisodeId>, p: Parsed)
    requires forall e :: e in events ==> EventShape(e) && ParentPrecedes(e)
    requires RecordOk(p)
    ensures forall e :: e in events + RecordEvents(session, episode, p) ==> EventShape(e) && ParentPrecedes(e)
  {
    RecordEventsHold(session, episode, p);
    forall e | e in RecordEvents(session, episode, p)
      ensures EventShape(e) && ParentPrecedes(e)
    {
      assert DetailOk(p, e.sub);
    }
  }

  lemma AppendSameSource(events: seq<Event>, session: nat, episode: Option<EpisodeId>, p: Parsed)
    requires forall a, b :: a in events && b in events ==> SameSource(a, b)
    requires RecordOk(p) && Fits(events, session, p)
    ensures forall a, b ::
            a in events + RecordEvents(session, episode, p) && b in events + RecordEvents(session, episode, p) ==>
              SameSource(a, b)
  {
    RecordEventsHold(session, episode, p);
    var added := RecordEvents(session, episode, p);
    forall a, b | a in events + added && b in events + added
      ensures SameSource(a, b)
    {
      if a in added {
        assert DetailOk(p, a.sub);
      }
      if b in added {
        assert DetailOk(p, b.sub);
      }
      assert a in events && b in events ==> SameSource(a, b);
    }
  }

  lemma {:induction false} SubsConcat(a: seq<Event>, b: seq<Event>, session: nat, record: nat)
    ensures SubsOf(a + b, session, record) == SubsOf(a, session, record) + SubsOf(b, session, record)
    decreases |b|
  {
    if b == [] {
      assert a + b == a;
    } else {
      assert (a + b)[..|a + b| - 1] == a + b[..|b| - 1];
      SubsConcat(a, b[..|b| - 1], session, record);
    }
  }

  lemma {:induction false} SubsNone(events: seq<Event>, session: nat, record: nat)
    requires forall e :: e in events ==> e.session != session || e.record != record
    ensures SubsOf(events, session, record) == []
  {
    if events != [] {
      assert events[|events| - 1] in events;
      SubsNone(events[..|events| - 1], session, record);
    }
  }

  lemma {:induction false} SubsOfRecord(events: seq<Event>, session: nat, record: nat)
    requires forall i :: 0 <= i < |events| ==>
             events[i].session == session && events[i].record == record && events[i].sub == i
    ensures FromZero(SubsOf(events, session, record)) && |SubsOf(events, session, record)| == |events|
  {
    if events != [] {
      SubsOfRecord(events[..|events| - 1], session, record);
    }
  }

  lemma AppendContiguous(events: seq<Event>, session: nat, episode: Option<EpisodeId>, p: Parsed)
    requires Contiguous(events) && Fits(events, session, p)
    ensures Contiguous(events + RecordEvents(session, episode, p))
  {
    RecordEventsHold(session, episode, p);
    var added := RecordEvents(session, episode, p);
    forall s: nat, r: nat
      ensures FromZero(SubsOf(events + added, s, r))
    {
      SubsConcat(events, added, s, r);
      assert FromZero(SubsOf(events, s, r));
      if s == session && r == p.record {
        SubsNone(events, s, r);
        SubsOfRecord(added, s, r);
        assert [] + SubsOf(added, s, r) == SubsOf(added, s, r);
      } else {
        SubsNone(added, s, r);
        assert SubsOf(events, s, r) + [] == SubsOf(events, s, r);
      }
    }
  }

  lemma {:induction false} GenerationsConcat(a: seq<Event>, b: seq<Event>, session: nat)
    ensures GenerationsOf(a + b, session) == GenerationsOf(a, session) + GenerationsOf(b, session)
    decreases |b|
  {
    if b == [] {
      assert a + b == a;
    } else {
      assert (a + b)[..|a + b| - 1] == a + b[..|b| - 1];
      GenerationsConcat(a, b[..|b| - 1], session);
    }
  }

  lemma {:induction false} GenerationsOfRecord(session: nat, episode: Option<EpisodeId>, p: Parsed, s: nat)
    ensures GenerationsOf(RecordEvents(session, episode, p), s) == if s == session then GenerationsIn(p.details) else []
    decreases |p.details|
  {
    if p.details != [] {
      var less := p.(details := p.details[..|p.details| - 1]);
      var added := RecordEvents(session, episode, p);
      assert added[..|added| - 1] == RecordEvents(session, episode, less);
      GenerationsOfRecord(session, episode, less, s);
    }
  }

  lemma AppendGenerations(events: seq<Event>, session: nat, episode: Option<EpisodeId>, p: Parsed)
    requires GenerationsRise(events) && Fits(events, session, p)
    ensures GenerationsRise(events + RecordEvents(session, episode, p))
  {
    var added := RecordEvents(session, episode, p);
    forall s: nat
      ensures Ascending(GenerationsOf(events + added, s))
    {
      GenerationsConcat(events, added, s);
      GenerationsOfRecord(session, episode, p, s);
      var old_ := GenerationsOf(events, s);
      assert Ascending(old_);
      if s == session {
        var more := GenerationsIn(p.details);
        assert forall k :: 0 <= k < |old_| ==> old_[k] in old_;
        assert forall k :: 0 <= k < |more| ==> more[k] in more;
      } else {
        assert old_ + [] == old_;
      }
    }
  }

  /** What stood before stands after more events. */
  lemma StillBound(events: seq<Event>, more: seq<Event>, e: Event)
    requires forall x :: x in events ==> x in more
    ensures ResultBound(events, e) ==> ResultBound(more, e)
    ensures ForgePending(events, e) ==> ForgePending(more, e)
  {
    if e.detail.ToolResult? && e.detail.relation.LinkedTool? && ResultBound(events, e) {
      var target :| Standing(events, e, e.detail.relation, target);
      assert Standing(more, e, e.detail.relation, target);
    }
    if e.detail.Forge? && ForgePending(events, e) {
      var target :| Standing(events, e, e.detail.call, target) && target.detail.input == Some(e.detail.invocation);
      assert Standing(more, e, e.detail.call, target);
    }
  }

  lemma AppendBound(events: seq<Event>, session: nat, episode: Option<EpisodeId>, p: Parsed)
    requires forall e :: e in events ==> ResultBound(events, e) && ForgePending(events, e)
    requires RecordOk(p) && Fits(events, session, p)
    ensures forall e :: e in events + RecordEvents(session, episode, p) ==>
              ResultBound(events + RecordEvents(session, episode, p), e)
                  && ForgePending(events + RecordEvents(session, episode, p), e)
  {
    RecordEventsHold(session, episode, p);
    var added := RecordEvents(session, episode, p);
    var all := events + added;
    forall e | e in all
      ensures ResultBound(all, e) && ForgePending(all, e)
    {
      if e in events {
        StillBound(events, all, e);
      } else {
        assert e == EventAt(session, episode, p, e.sub);
        NewBound(events, session, episode, p, e);
      }
    }
  }

  lemma NewBound(events: seq<Event>, session: nat, episode: Option<EpisodeId>, p: Parsed, e: Event)
    requires RecordOk(p) && Fits(events, session, p)
    requires e in RecordEvents(session, episode, p)
    ensures ResultBound(events + RecordEvents(session, episode, p), e)
    ensures ForgePending(events + RecordEvents(session, episode, p), e)
  {
    RecordEventsHold(session, episode, p);
    var added := RecordEvents(session, episode, p);
    var all := events + added;
    assert DetailOk(p, e.sub) && ResultFits(events, session, e.detail);
    if e.detail.ToolResult? && e.detail.relation.LinkedTool? {
      var target :| target in events && target.session == session && target.record == e.detail.relation.record
                    && target.sub == e.detail.relation.sub && target.detail.ToolCall?;
      assert Standing(all, e, e.detail.relation, target);
    }
    if e.detail.Forge? {
      var target := EventAt(session, episode, p, e.detail.call.sub);
      assert target == added[e.detail.call.sub] && target in all;
      assert Standing(all, e, e.detail.call, target);
    }
  }

  lemma AppendForges(events: seq<Event>, session: nat, episode: Option<EpisodeId>, p: Parsed)
    requires ForgesDistinct(events) && (forall e :: e in events ==> ForgePending(events, e))
    requires RecordOk(p) && Fits(events, session, p)
    ensures ForgesDistinct(events + RecordEvents(session, episode, p))
  {
    RecordEventsHold(session, episode, p);
    var added := RecordEvents(session, episode, p);
    var all := events + added;
    forall i, j | 0 <= i < j < |all| && all[i].detail.Forge? && all[j].detail.Forge?
      ensures all[i].session != all[j].session || all[i].detail.call != all[j].detail.call
    {
      if i < |events| {
        assert all[i] == events[i] && events[i] in events;
        if j >= |events| {
          assert all[j] == added[j - |events|];
          assert DetailOk(p, j - |events|);
          assert ForgePending(events, events[i]);
        } else {
          assert all[j] == events[j];
        }
      } else {
        assert all[i] == added[i - |events|] && all[j] == added[j - |events|];
      }
    }
  }

  /** One more record keeps every check on events. */
  lemma AppendGrows(events: seq<Event>, session: nat, episode: Option<EpisodeId>, p: Parsed)
    requires Growing(events) && RecordOk(p) && Fits(events, session, p)
    ensures Growing(events + RecordEvents(session, episode, p))
  {
    AppendOrdered(events, session, episode, p);
    AppendShape(events, session, episode, p);
    AppendSameSource(events, session, episode, p);
    AppendContiguous(events, session, episode, p);
    AppendGenerations(events, session, episode, p);
    AppendBound(events, session, episode, p);
    AppendForges(events, session, episode, p);
  }

  // ---- Counting --------------------------------------------------------------

  function PointersIn(details: seq<Detail>): nat {
    if details == [] then 0
    else PointersIn(details[..|details| - 1]) + (if PointerOf(details[|details| - 1]).Some? then 1 else 0)
  }

  function PrimaryIn(details: seq<Detail>): nat {
    if details == [] then 0
    else PrimaryIn(details[..|details| - 1]) + (if IsPrimary(details[|details| - 1]) then 1 else 0)
  }

  function UnknownIn(details: seq<Detail>): nat {
    if details == [] then 0
    else UnknownIn(details[..|details| - 1]) + (if IsUnknown(details[|details| - 1]) then 1 else 0)
  }

  lemma {:induction false} CountsConcat(a: seq<Detail>, b: seq<Detail>)
    ensures PointersIn(a + b) == PointersIn(a) + PointersIn(b)
    ensures PrimaryIn(a + b) == PrimaryIn(a) + PrimaryIn(b)
    ensures UnknownIn(a + b) == UnknownIn(a) + UnknownIn(b)
    decreases |b|
  {
    if b == [] {
      assert a + b == a;
    } else {
      assert (a + b)[..|a + b| - 1] == a + b[..|b| - 1];
      CountsConcat(a, b[..|b| - 1]);
    }
  }

  lemma {:induction false} EventCounts(events: seq<Event>, session: nat, episode: Option<EpisodeId>, p: Parsed)
    ensures var all := events + RecordEvents(session, episode, p);
            && CountPointers(all) == CountPointers(events) + PointersIn(p.details)
            && CountPrimary(all) == CountPrimary(events) + PrimaryIn(p.details)
            && CountUnknown(all) == CountUnknown(events) + UnknownIn(p.details)
    decreases |p.details|
  {
    var added := RecordEvents(session, episode, p);
    if p.details == [] {
      assert events + added == events;
    } else {
      var less := p.(details := p.details[..|p.details| - 1]);
      assert (events + added)[..|events + added| - 1] == events + RecordEvents(session, episode, less);
      EventCounts(events, session, episode, less);
    }
  }

  /** From `before` to `after` the counters moved as these details say they may. */
  predicate Counted(before: Coverage, after: Coverage, details: seq<Detail>) {
    && after.contentReferences == before.contentReferences + PointersIn(details)
    && before.blocksSeen + PrimaryIn(details) <= after.blocksSeen
    && after.blocksUnsupported - before.blocksUnsupported <= after.blocksSeen - before.blocksSeen
    && before.contentUnknown + UnknownIn(details) <= after.contentUnknown
    && after.contentUnknown - before.contentUnknown <= after.blocksSeen - before.blocksSeen
    && after.turnsAmbiguous - before.turnsAmbiguous <= after.contentUnknown - before.contentUnknown
    && after.sessionsAdmitted == before.sessionsAdmitted && after.recordsSeen == before.recordsSeen
    && after.recordsAmbiguous == before.recordsAmbiguous && after.recordsParsed == before.recordsParsed
    && after.recordsMalformed == before.recordsMalformed && after.recordsUnsupported == before.recordsUnsupported
    && after.lineageUnresolved == before.lineageUnresolved
  }

  lemma CountedThen(a: Coverage, b: Coverage, c: Coverage, first: seq<Detail>, second: seq<Detail>)
    requires Counted(a, b, first) && Counted(b, c, second)
    ensures Counted(a, c, first + second)
  {
    CountsConcat(first, second);
  }

  /** The validator's coverage conditions, and every record so far accounted for once. */
  ghost predicate Tallied(c: Coverage, events: seq<Event>, records: nat) {
    CoverageHolds(c, events) && c.recordsParsed + c.recordsMalformed + c.recordsUnsupported == records
  }

  lemma TallyParsed(c: Coverage, after: Coverage, events: seq<Event>, records: nat,
                    session: nat, episode: Option<EpisodeId>, p: Parsed)
    requires Tallied(c, events, records) && Counted(c, after, p.details)
    ensures Tallied(after.(recordsParsed := after.recordsParsed + 1), events + RecordEvents(session, episode, p),
                    records + 1)
  {
    EventCounts(events, session, episode, p);
    RecordEventsHold(session, episode, p);
    var all := events + RecordEvents(session, episode, p);
    assert RecordsWithEvents(all) <= RecordsWithEvents(events) + {(session, p.record)};
    PairSubset(RecordsWithEvents(all), RecordsWithEvents(events) + {(session, p.record)});
  }

  lemma PairSubset(a: set<(nat, nat)>, b: set<(nat, nat)>)
    requires a <= b
    ensures |a| <= |b|
  {
    assert b == a + (b - a);
  }

  lemma TallyUnparsed(c: Coverage, after: Coverage, events: seq<Event>, records: nat)
    requires Tallied(c, events, records) && Counted(c, after, [])
    ensures Tallied(after.(recordsUnsupported := after.recordsUnsupported + 1), events, records + 1)
  {
  }

  lemma NothingTallied()
    ensures Growing([]) && Tallied(NO_COVERAGE, [], 0)
  {
    assert forall s: nat, r: nat :: SubsOf([], s, r) == [];
    assert forall s: nat :: GenerationsOf([], s) == [];
    assert RecordsWithEvents([]) == {};
  }

  // ---- Joining forge outcomes ------------------------------------------------

  function Rejoined(events: seq<Event>, e: Event): Event {
    if e.detail.Forge? && e.detail.call.LinkedTool? then
      e.(detail := e.detail.(outcome :=
                             Outcome(StatusesOf(events, e.session, e.detail.call.record, e.detail.call.sub))))
    else e
  }

  /** `_join_forge_outcomes`: give every forge action the outcome of its call's one result. */
  function Rejoin(events: seq<Event>): (r: seq<Event>)
    ensures |r| == |events|
  {
    seq(|events|, i requires 0 <= i < |events| => Rejoined(events, events[i]))
  }

  function Statuses(statuses: map<(nat, nat, nat), seq<ResultStatus>>, key: (nat, nat, nat)): seq<ResultStatus> {
    if key in statuses then statuses[key] else []
  }

  method JoinForgeOutcomes(events: seq<Event>) returns (joined: seq<Event>)
    ensures joined == Rejoin(events)
  {
    var statuses: map<(nat, nat, nat), seq<ResultStatus>> := map[];
    for k := 0 to |events|
      invariant forall s: nat, r: nat, t: nat :: Statuses(statuses, (s, r, t)) == StatusesOf(events[..k], s, r, t)
    {
      var e := events[k];
      assert events[..k + 1][..k] == events[..k];
      if e.detail.ToolResult? && e.detail.relation.LinkedTool? {
        var key := (e.session, e.detail.relation.record, e.detail.relation.sub);
        statuses := statuses[key := Statuses(statuses, key) + [e.detail.status]];
      }
    }
    assert events[..|events|] == events;
    joined := [];
    for k := 0 to |events|
      invariant joined == Rejoin(events)[..k]
    {
      var e := events[k];
      if e.detail.Forge? && e.detail.call.LinkedTool? {
        var linked := Statuses(statuses, (e.session, e.detail.call.record, e.detail.call.sub));
        joined := joined + [e.(detail := e.detail.(outcome := if |linked| == 1 then linked[0] else UnknownResult))];
      } else {
        joined := joined + [e];
      }
    }
  }

  /** Equal but for the outcome of a forge action. */
  predicate Alike(a: Event, b: Event) {
    || a == b
    || (a.detail.Forge?
        && b == a.(detail := a.detail.(outcome :=
                     if b.detail.Forge? then b.detail.outcome else a.detail.outcome)))
  }

  ghost predicate AllAlike(xs: seq<Event>, ys: seq<Event>) {
    |xs| == |ys| && forall i :: 0 <= i < |xs| ==> Alike(xs[i], ys[i])
  }

  lemma {:induction false} AlikeCounts(xs: seq<Event>, ys: seq<Event>)
    requires AllAlike(xs, ys)
    ensures CountPointers(xs) == CountPointers(ys) && CountPrimary(xs) == CountPrimary(ys)
            && CountUnknown(xs) == CountUnknown(ys)
  {
    if xs != [] {
      var n := |xs| - 1;
      AlikeCounts(xs[..n], ys[..n]);
      assert Alike(xs[n], ys[n]);
    }
  }

  lemma {:induction false} AlikeAt(xs: seq<Event>, ys: seq<Event>, s: nat, r: nat, t: nat)
    requires AllAlike(xs, ys)
    ensures SubsOf(xs, s, r) == SubsOf(ys, s, r)
    ensures GenerationsOf(xs, s) == GenerationsOf(ys, s)
    ensures StatusesOf(xs, s, r, t) == StatusesOf(ys, s, r, t)
  {
    if xs != [] {
      var n := |xs| - 1;
      AlikeAt(xs[..n], ys[..n], s, r, t);
      assert Alike(xs[n], ys[n]);
    }
  }

  lemma AlikeRecords(xs: seq<Event>, ys: seq<Event>)
    requires AllAlike(xs, ys)
    ensures RecordsWithEvents(xs) == RecordsWithEvents(ys)
  {
    forall k | k in RecordsWithEvents(xs)
      ensures k in RecordsWithEvents(ys)
    {
      var e :| e in xs && k == (e.session, e.record);
      var i :| 0 <= i < |xs| && xs[i] == e;
      assert Alike(xs[i], ys[i]) && ys[i] in ys;
    }
    forall k | k in RecordsWithEvents(ys)
      ensures k in RecordsWithEvents(xs)
    {
      var e :| e in ys && k == (e.session, e.record);
      var i :| 0 <= i < |ys| && ys[i] == e;
      assert Alike(xs[i], ys[i]) && xs[i] in xs;
    }
  }

  /** Nothing the checks read of a list of events depends on forge outcomes. */
  lemma AlikeReads(xs: seq<Event>, ys: seq<Event>)
    requires AllAlike(xs, ys)
    ensures CountPointers(xs) == CountPointers(ys) && CountPrimary(xs) == CountPrimary(ys)
            && CountUnknown(xs) == CountUnknown(ys)
    ensures forall s: nat, r: nat :: SubsOf(xs, s, r) == SubsOf(ys, s, r)
    ensures forall s: nat :: GenerationsOf(xs, s) == GenerationsOf(ys, s)
    ensures forall s: nat, r: nat, t: nat :: StatusesOf(xs, s, r, t) == StatusesOf(ys, s, r, t)
    ensures RecordsWithEvents(xs) == RecordsWithEvents(ys)
  {
    hide *;
    AlikeCounts(xs, ys);
    AlikeRecords(xs, ys);
    forall s: nat, r: nat
      ensures SubsOf(xs, s, r) == SubsOf(ys, s, r) && GenerationsOf(xs, s) == GenerationsOf(ys, s)
    {
      AlikeAt(xs, ys, s, r, 0);
    }
    forall s: nat
      ensures GenerationsOf(xs, s) == GenerationsOf(ys, s)
    {
      AlikeAt(xs, ys, s, 0, 0);
    }
    forall s: nat, r: nat, t: nat
      ensures StatusesOf(xs, s, r, t) == StatusesOf(ys, s, r, t)
    {
      AlikeAt(xs, ys, s, r, t);
    }
  }

  lemma RejoinAlike(events: seq<Event>)
    ensures AllAlike(events, Rejoin(events))
    ensures forall e :: e in Rejoin(events) ==> exists o :: o in events && e == Rejoined(events, o)
    ensures forall o :: o in events ==> Rejoined(events, o) in Rejoin(events)
  {
    forall o | o in events
      ensures Rejoined(events, o) in Rejoin(events)
    {
      var i :| 0 <= i < |events| && events[i] == o;
      assert Rejoin(events)[i] == Rejoined(events, o);
    }
  }

  lemma TallyRejoined(c: Coverage, events: seq<Event>, records: nat)
    requires Tallied(c, events, records)
    ensures Tallied(c, Rejoin(events), records)
  {
    RejoinAlike(events);
    AlikeReads(events, Rejoin(events));
  }

  /** Joining the outcomes of a grown corpus gives events that pass every check on events. */
  lemma RejoinedHold(sessions: seq<ManifestSession>, events: seq<Event>)
    requires Growing(events) && forall e :: e in events ==> Placed(sessions, e)
    ensures EventsHold(sessions, Rejoin(events))
  {
    var joined := Rejoin(events);
    hide Growing, Rejoin;
    RejoinAlike(events);
    AlikeReads(events, joined);
    RejoinedOrder(events, joined);
    RejoinedLocal(sessions, events, joined);
    RejoinedBound(events, joined);
    RejoinedRuns(events, joined);
  }

  lemma RejoinedRuns(events: seq<Event>, joined: seq<Event>)
    requires Growing(events)
    requires forall s: nat, r: nat :: SubsOf(events, s, r) == SubsOf(joined, s, r)
    requires forall s: nat :: GenerationsOf(events, s) == GenerationsOf(joined, s)
    ensures Contiguous(joined) && GenerationsRise(joined)
  {
    forall s: nat, r: nat
      ensures FromZero(SubsOf(joined, s, r))
    {
      assert FromZero(SubsOf(events, s, r));
    }
    forall s: nat
      ensures Ascending(GenerationsOf(joined, s))
    {
      assert Ascending(GenerationsOf(events, s));
    }
  }

  lemma RejoinedOrder(events: seq<Event>, joined: seq<Event>)
    requires Growing(events) && AllAlike(events, joined)
    ensures Ordered(joined) && ForgesDistinct(joined)
  {
    forall i, j | 0 <= i < j < |joined|
      ensures Precedes(joined[i], joined[j])
    {
      assert Alike(events[i], joined[i]) && Alike(events[j], joined[j]);
      assert Precedes(events[i], events[j]);
    }
    forall i, j | 0 <= i < j < |joined| && joined[i].detail.Forge? && joined[j].detail.Forge?
      ensures joined[i].session != joined[j].session || joined[i].detail.call != joined[j].detail.call
    {
      assert Alike(events[i], joined[i]) && Alike(events[j], joined[j]);
    }
  }

  lemma RejoinedOne(sessions: seq<ManifestSession>, events: seq<Event>, o: Event)
    requires EventShape(o) && Placed(sessions, o)
    ensures EventShape(Rejoined(events, o)) && Placed(sessions, Rejoined(events, o))
  {
  }

  lemma RejoinedPair(events: seq<Event>, x: Event, y: Event)
    requires SameSource(x, y)
    ensures SameSource(Rejoined(events, x), Rejoined(events, y))
  {
  }

  lemma RejoinedLocal(sessions: seq<ManifestSession>, events: seq<Event>, joined: seq<Event>)
    requires Growing(events) && (forall e :: e in events ==> Placed(sessions, e))
    requires forall e :: e in joined ==> exists o :: o in events && e == Rejoined(events, o)
    ensures forall e :: e in joined ==> EventShape(e) && Placed(sessions, e)
    ensures forall a, b :: a in joined && b in joined ==> SameSource(a, b)
  {
    hide Ordered, Contiguous, GenerationsRise, ResultBound, ForgePending, ForgesDistinct, Rejoined, Placed, EventShape,
        SameSource;
    forall e | e in joined
      ensures EventShape(e) && Placed(sessions, e)
    {
      var o :| o in events && e == Rejoined(events, o);
      RejoinedOne(sessions, events, o);
    }
    forall a, b | a in joined && b in joined
      ensures SameSource(a, b)
    {
      var x :| x in events && a == Rejoined(events, x);
      var y :| y in events && b == Rejoined(events, y);
      RejoinedPair(events, x, y);
    }
  }

  lemma RejoinedBound(events: seq<Event>, joined: seq<Event>)
    requires Growing(events)
    requires forall e :: e in joined ==> exists o :: o in events && e == Rejoined(events, o)
    requires forall o :: o in events ==> Rejoined(events, o) in joined
    requires forall s: nat, r: nat, t: nat :: StatusesOf(events, s, r, t) == StatusesOf(joined, s, r, t)
    ensures forall e :: e in joined ==> ResultBound(joined, e)
    ensures forall e :: e in joined ==> ForgeBound(joined, e)
  {
    forall e | e in joined
      ensures ResultBound(joined, e) && ForgeBound(joined, e)
    {
      var o :| o in events && e == Rejoined(events, o);
      assert ResultBound(events, o) && ForgePending(events, o);
      if e.detail.ToolResult? && e.detail.relation.LinkedTool? {
        var target :| Standing(events, o, o.detail.relation, target);
        assert Rejoined(events, target) == target;
        assert Standing(joined, e, e.detail.relation, target);
      }
      if e.detail.Forge? {
        var target :| Standing(events, o, o.detail.call, target) && target.detail.input == Some(o.detail.invocation);
        assert Rejoined(events, target) == target;
        assert Standing(joined, e, e.detail.call, target);
      }
    }
  }
}
