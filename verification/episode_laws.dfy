/** Which session an inferred link names, told from the sessions themselves. */
module EpisodeLaws {
  import opened Records
  import opened LineageGraph
  import opened Episodes
  import opened Transcripts

  const HALF_AN_HOUR: int := 1800000000

  // ---- What a session may continue -------------------------------------------

  /** The session has all that the temporal rule reads. */
  predicate Timed(s: VerifiedSession) {
    s.repo.Some? && s.headBefore.Some? && s.headAfter.Some? && s.startedAt.Some? && s.endedAt.Some?
  }

  /** By start, then end, then id. */
  predicate Earlier(a: VerifiedSession, b: VerifiedSession)
    requires Timed(a) && Timed(b)
  {
    if a.startedAt != b.startedAt then a.startedAt.value < b.startedAt.value
    else if a.endedAt != b.endedAt then a.endedAt.value < b.endedAt.value
    else a.id < b.id
  }

  /** `later` starts in the same repository, at the head `earlier` left, within half an hour of its end. */
  predicate MayContinue(earlier: VerifiedSession, later: VerifiedSession)
    requires Timed(earlier) && Timed(later)
  {
    && Earlier(earlier, later)
    && earlier.repo == later.repo && earlier.headAfter == later.headBefore
    && earlier.endedAt.value <= later.startedAt.value <= earlier.endedAt.value + HALF_AN_HOUR
  }

  /** The session that the lineage names is itself among the sessions. */
  predicate ParentOf(sessions: seq<VerifiedSession>, a: nat, b: nat) {
    && (exists s :: s in sessions && s.id == a && s.parent == Some(b))
    && (exists s :: s in sessions && s.id == b)
  }

  /** The session with this id is timed and earlier than `later`. */
  predicate EarlierId(sessions: seq<VerifiedSession>, a: nat, later: VerifiedSession)
    requires Timed(later)
  {
    exists s :: s in sessions && s.id == a && Timed(s) && Earlier(s, later)
  }

  /** The edges before `later` has its turn: parents, and the links of the sessions earlier than it. */
  ghost predicate EdgesBefore(sessions: seq<VerifiedSession>, links: map<nat, nat>, later: VerifiedSession,
                              before: Edges)
    requires Timed(later)
  {
    forall a: nat, b: nat :: b in Predecessors(before, a) <==>
      ParentOf(sessions, a, b) || (a in links && links[a] == b && EarlierId(sessions, a, later))
  }

  /** A session `later` may continue without closing a cycle. */
  ghost predicate Open(sessions: seq<VerifiedSession>, before: Edges, s: VerifiedSession, later: VerifiedSession)
    requires Timed(later)
  {
    s in sessions && Timed(s) && MayContinue(s, later) && !Reach(before, s.id, later.id)
  }

  /** The link is to the last of the open sessions; there is none when no session is open or the last
      one is the recorded parent already. */
  ghost predicate LinkedToLast(sessions: seq<VerifiedSession>, links: map<nat, nat>, later: VerifiedSession,
                               before: Edges)
    requires Timed(later)
  {
    if forall s :: !Open(sessions, before, s, later) then later.id !in links
    else
      exists last :: Open(sessions, before, last, later)
        && (forall o :: Open(sessions, before, o, later) ==> o.id == last.id || Earlier(o, last))
        && if later.parent == Some(last.id) then later.id !in links
           else later.id in links && links[later.id] == last.id
  }

  // ---- One turn of the temporal rule -----------------------------------------

  /** The links known before turn `k` are those of the turns before it. */
  ghost predicate OldLinks(prior: map<nat, nat>, links: map<nat, nat>, todo: seq<Span>, k: nat)
    requires k <= |todo|
  {
    && (forall a :: a in prior <==> a in links && exists j :: 0 <= j < k && todo[j].id == a)
    && (forall a :: a in prior && a in links ==> prior[a] == links[a])
  }

  ghost predicate TurnTaken(recorded: map<nat, nat>, links: map<nat, nat>, later: Span, choice: Option<Span>) {
    if choice.Some? && !(later.id in recorded && recorded[later.id] == choice.value.id)
    then later.id in links && links[later.id] == choice.value.id
    else later.id !in links
  }

  lemma {:induction false} LinksOfTurns(spans: seq<Span>, todo: seq<Span>, recorded: map<nat, nat>, edges: Edges,
                                        links: map<nat, nat>)
    requires Inferred(spans, todo, recorded, edges, links)
    ensures forall a :: a in links ==> exists j :: 0 <= j < |todo| && todo[j].id == a
    decreases |todo|
  {
    if todo != [] {
      var n := |todo| - 1;
      var before: Edges, prior: map<nat, nat>, choice: Option<Span> :|
        && Inferred(spans, todo[..n], recorded, before, prior) && Chosen(before, spans, todo[n], choice)
        && edges == Continued(before, todo[n], choice) && links == Linked(prior, recorded, todo[n], choice);
      LinksOfTurns(spans, todo[..n], recorded, before, prior);
      forall a | a in links
        ensures exists j :: 0 <= j < |todo| && todo[j].id == a
      {
        if a in prior {
          var j :| 0 <= j < n && todo[..n][j].id == a;
          assert todo[j].id == a;
        } else {
          assert todo[n].id == a;
        }
      }
    }
  }

  lemma OldNow(prior: map<nat, nat>, links: map<nat, nat>, todo: seq<Span>, recorded: map<nat, nat>,
               choice: Option<Span>)
    requires todo != [] && Distinct(todo) && links == Linked(prior, recorded, todo[|todo| - 1], choice)
    requires forall a :: a in prior ==> exists j :: 0 <= j < |todo| - 1 && todo[j].id == a
    ensures OldLinks(prior, links, todo, |todo| - 1) && TurnTaken(recorded, links, todo[|todo| - 1], choice)
  {
  }

  lemma OldStill(prior: map<nat, nat>, links: map<nat, nat>, more: map<nat, nat>, todo: seq<Span>, k: nat,
                 recorded: map<nat, nat>, choice: Option<Span>)
    requires todo != [] && k < |todo| - 1 && Distinct(todo) && OldLinks(prior, links, todo[..|todo| - 1], k)
    requires more == Linked(links, recorded, todo[|todo| - 1], choice)
    ensures OldLinks(prior, more, todo, k)
  {
    var n := |todo| - 1;
    assert forall j :: 0 <= j < k ==> todo[..n][j] == todo[j] && todo[j].id != todo[n].id;
  }

  lemma LastTurn(spans: seq<Span>, todo: seq<Span>, recorded: map<nat, nat>, edges: Edges, links: map<nat, nat>)
    returns (before: Edges, prior: map<nat, nat>, choice: Option<Span>)
    requires todo != [] && Inferred(spans, todo, recorded, edges, links)
    ensures var n := |todo| - 1;
            && Inferred(spans, todo[..n], recorded, before, prior) && Chosen(before, spans, todo[n], choice)
            && links == Linked(prior, recorded, todo[n], choice)
  {
    var n := |todo| - 1;
    hide Chosen, Linked, Continued;
    before, prior, choice :|
      && Inferred(spans, todo[..n], recorded, before, prior) && Chosen(before, spans, todo[n], choice)
      && edges == Continued(before, todo[n], choice) && links == Linked(prior, recorded, todo[n], choice);
  }

  lemma OthersDistinct(todo: seq<Span>, n: nat, k: nat)
    requires Distinct(todo) && k < n < |todo|
    ensures Distinct(todo[..n]) && todo[k].id != todo[n].id && todo[..n][..k] == todo[..k]
  {
  }

  lemma TakenStill(recorded: map<nat, nat>, links: map<nat, nat>, later: Span, choice: Option<Span>, last: Span,
                   now: Option<Span>)
    requires TurnTaken(recorded, links, later, choice) && later.id != last.id
    ensures TurnTaken(recorded, Linked(links, recorded, last, now), later, choice)
  {
  }

  /** What the graph and the choice were at turn `k`. */
  lemma {:induction false} TurnAt(spans: seq<Span>, todo: seq<Span>, recorded: map<nat, nat>, edges: Edges,
                                  links: map<nat, nat>, k: nat)
    returns (before: Edges, prior: map<nat, nat>, choice: Option<Span>)
    requires Inferred(spans, todo, recorded, edges, links) && Distinct(todo) && k < |todo|
    ensures Inferred(spans, todo[..k], recorded, before, prior) && Chosen(before, spans, todo[k], choice)
    ensures OldLinks(prior, links, todo, k) && TurnTaken(recorded, links, todo[k], choice)
    decreases |todo|
  {
    hide *;
    var n := |todo| - 1;
    var last: map<nat, nat>, now: Option<Span>;
    before, last, now := LastTurn(spans, todo, recorded, edges, links);
    if k == n {
      prior, choice := last, now;
      LinksOfTurns(spans, todo[..n], recorded, before, last);
      assert forall j :: 0 <= j < n ==> todo[..n][j] == todo[j];
      OldNow(last, links, todo, recorded, now);
    } else {
      OthersDistinct(todo, n, k);
      before, prior, choice := TurnAt(spans, todo[..n], recorded, before, last, k);
      OldStill(prior, last, links, todo, k, recorded, now);
      TakenStill(recorded, last, todo[k], choice, todo[n], now);
    }
  }

  // ---- Sessions and spans ----------------------------------------------------

  function SpanFor(s: VerifiedSession): Span
    requires Timed(s)
  {
    Span(s.id, s.repo.value, s.headBefore.value, s.headAfter.value, s.startedAt.value, s.endedAt.value)
  }

  lemma SpanIs(s: VerifiedSession)
    ensures SpanOf(s) == if Timed(s) then Some(SpanFor(s)) else None
  {
  }

  lemma {:induction false} SpansAre(nodes: seq<Node>)
    ensures forall x :: x in Spans(nodes) <==> exists n :: n in nodes && n.span == Some(x)
  {
    if nodes != [] {
      SpansAre(nodes[1..]);
      assert nodes == [nodes[0]] + nodes[1..];
    }
  }

  /** The spans are those of the timed sessions. */
  lemma SessionSpans(sessions: seq<VerifiedSession>)
    ensures forall s :: s in sessions && Timed(s) ==> SpanFor(s) in Spans(Nodes(sessions))
    ensures forall x :: x in Spans(Nodes(sessions)) ==> exists s :: s in sessions && Timed(s) && SpanFor(s) == x
  {
    var nodes := Nodes(sessions);
    SpansAre(nodes);
    hide Spans, SpanOf;
    forall s | s in sessions && Timed(s)
      ensures SpanFor(s) in Spans(nodes)
    {
      var i :| 0 <= i < |sessions| && sessions[i] == s;
      SpanIs(s);
      assert nodes[i] in nodes;
    }
    forall x | x in Spans(nodes)
      ensures exists s :: s in sessions && Timed(s) && SpanFor(s) == x
    {
      var n :| n in nodes && n.span == Some(x);
      var i :| 0 <= i < |nodes| && nodes[i] == n;
      SpanIs(sessions[i]);
      assert sessions[i] in sessions;
    }
  }

  lemma SpanOrder(a: VerifiedSession, b: VerifiedSession)
    requires Timed(a) && Timed(b)
    ensures Before(SpanFor(a), SpanFor(b)) <==> Earlier(a, b)
    ensures a.id != b.id ==> Earlier(a, b) || Earlier(b, a)
    ensures Earlier(a, b) ==> a != b
    ensures a.id != b.id ==> (Candidate(SpanFor(a), SpanFor(b)) <==> MayContinue(a, b))
  {
  }

  /** A session is known by its id. */
  lemma SameId(sessions: seq<VerifiedSession>, a: VerifiedSession, b: VerifiedSession)
    requires Checked(sessions) && a in sessions && b in sessions && a.id == b.id
    ensures a == b
  {
    var i, j :| 0 <= i < |sessions| && sessions[i] == a && 0 <= j < |sessions| && sessions[j] == b;
    hide SessionChecked;
  }

  lemma {:induction false} RecordedAre(nodes: seq<Node>, ids: set<nat>, a: nat, b: nat)
    requires Accepted(nodes)
    ensures (a in RecordedFrom(nodes, ids) && RecordedFrom(nodes, ids)[a] == b)
            <==> b in ids && exists n :: n in nodes && n.id == a && n.parent == Some(b)
  {
    if nodes != [] {
      var n := |nodes| - 1;
      AcceptedPrefix(nodes);
      RecordedAre(nodes[..n], ids, a, b);
      assert nodes == nodes[..n] + [nodes[n]];
      RecordedBelow(nodes[..n], ids);
      assert forall m :: m in nodes[..n] ==> m.id != nodes[n].id by {
        hide RecordedFrom;
      }
    }
  }

  lemma {:induction false} RecordedBelow(nodes: seq<Node>, ids: set<nat>)
    ensures forall a :: a in RecordedFrom(nodes, ids) ==> exists n :: n in nodes && n.id == a
  {
    if nodes != [] {
      var n := |nodes| - 1;
      RecordedBelow(nodes[..n], ids);
      assert nodes == nodes[..n] + [nodes[n]];
    }
  }

  lemma NodesAre(sessions: seq<VerifiedSession>)
    ensures forall s :: s in sessions ==> NodeOf(s) in Nodes(sessions)
    ensures forall n :: n in Nodes(sessions) ==> exists s :: s in sessions && NodeOf(s) == n
  {
    hide NodeOf;
    forall s | s in sessions
      ensures NodeOf(s) in Nodes(sessions)
    {
      var i :| 0 <= i < |sessions| && sessions[i] == s;
      assert Nodes(sessions)[i] == NodeOf(s);
    }
    forall n | n in Nodes(sessions)
      ensures exists s :: s in sessions && NodeOf(s) == n
    {
      var i :| 0 <= i < |sessions| && Nodes(sessions)[i] == n;
      assert sessions[i] in sessions;
    }
  }

  lemma ChildIs(sessions: seq<VerifiedSession>, a: nat, b: nat)
    ensures (exists n :: n in Nodes(sessions) && n.id == a && n.parent == Some(b))
            <==> exists s :: s in sessions && s.id == a && s.parent == Some(b)
  {
    NodesAre(sessions);
    hide Nodes, SpanOf;
    if n :| n in Nodes(sessions) && n.id == a && n.parent == Some(b) {
      var s :| s in sessions && NodeOf(s) == n;
      assert s.id == a && s.parent == Some(b);
    }
    if s :| s in sessions && s.id == a && s.parent == Some(b) {
      assert NodeOf(s) in Nodes(sessions);
    }
  }

  lemma IdIs(sessions: seq<VerifiedSession>, b: nat)
    ensures b in Ids(Nodes(sessions)) <==> exists s :: s in sessions && s.id == b
  {
    NodesAre(sessions);
    hide Nodes, SpanOf;
    if b in Ids(Nodes(sessions)) {
      var n :| n in Nodes(sessions) && n.id == b;
      var s :| s in sessions && NodeOf(s) == n;
      assert s.id == b;
    }
    if s :| s in sessions && s.id == b {
      assert NodeOf(s) in Nodes(sessions);
    }
  }

  lemma ParentsAre(sessions: seq<VerifiedSession>, a: nat, b: nat)
    requires Checked(sessions)
    ensures (a in Recorded(Nodes(sessions)) && Recorded(Nodes(sessions))[a] == b) <==> ParentOf(sessions, a, b)
  {
    CheckedNodes(sessions);
    hide RecordedFrom, Accepted, Checked, Nodes, Ids;
    RecordedAre(Nodes(sessions), Ids(Nodes(sessions)), a, b);
    ChildIs(sessions, a, b);
    IdIs(sessions, b);
  }

  // ---- The law ---------------------------------------------------------------

  /** The edges at one turn are the parents and the links of the sessions that had theirs. */
  lemma EdgesAtTurn(sessions: seq<VerifiedSession>, links: map<nat, nat>, later: VerifiedSession, sorted: seq<Span>,
                    k: nat, before: Edges, prior: map<nat, nat>)
    requires Checked(sessions) && later in sessions && Timed(later) && k < |sorted| && sorted[k] == SpanFor(later)
    requires InOrder(sorted) && Distinct(sorted) && forall x :: x in sorted <==> x in Spans(Nodes(sessions))
    requires EdgesAre(before, Recorded(Nodes(sessions)), prior) && OldLinks(prior, links, sorted, k)
    ensures EdgesBefore(sessions, links, later, before)
  {
    SessionSpans(sessions);
    hide Spans, Nodes, Checked, RecordedFrom, Earlier, Before;
    forall a: nat
      ensures (exists j :: 0 <= j < k && sorted[j].id == a) <==> EarlierId(sessions, a, later)
    {
      EarlierTurn(sessions, later, sorted, k, a);
    }
    hide EarlierId, InOrder, Distinct;
    forall a: nat, b: nat
      ensures b in Predecessors(before, a) <==>
              ParentOf(sessions, a, b) || (a in links && links[a] == b && EarlierId(sessions, a, later))
    {
      ParentsAre(sessions, a, b);
    }
  }

  lemma EarlierTurn(sessions: seq<VerifiedSession>, later: VerifiedSession, sorted: seq<Span>, k: nat, a: nat)
    requires later in sessions && Timed(later) && k < |sorted| && sorted[k] == SpanFor(later)
    requires InOrder(sorted) && Distinct(sorted)
    requires forall s :: s in sessions && Timed(s) ==> SpanFor(s) in sorted
    requires forall x :: x in sorted ==> exists s :: s in sessions && Timed(s) && SpanFor(s) == x
    ensures (exists j :: 0 <= j < k && sorted[j].id == a) <==> EarlierId(sessions, a, later)
  {
    if j :| 0 <= j < k && sorted[j].id == a {
      assert sorted[j] in sorted;
      var s :| s in sessions && Timed(s) && SpanFor(s) == sorted[j];
      SpanOrder(s, later);
    }
    if EarlierId(sessions, a, later) {
      var s :| s in sessions && s.id == a && Timed(s) && Earlier(s, later);
      SpanOrder(s, later);
      var j :| 0 <= j < |sorted| && sorted[j] == SpanFor(s);
      BeforeIrreflexive(SpanFor(s));
      assert j != k;
      assert j < k;
    }
  }

  /** The choice at one turn is the last of the open sessions. */
  lemma ChoiceIsLast(sessions: seq<VerifiedSession>, links: map<nat, nat>, later: VerifiedSession, before: Edges,
                     choice: Option<Span>)
    requires Checked(sessions) && later in sessions && Timed(later)
    requires Chosen(before, Spans(Nodes(sessions)), SpanFor(later), choice)
    requires TurnTaken(Recorded(Nodes(sessions)), links, SpanFor(later), choice)
    ensures LinkedToLast(sessions, links, later, before)
  {
    SessionSpans(sessions);
    var spans := Spans(Nodes(sessions));
    hide Spans, Nodes, RecordedFrom, Reach, SessionChecked;
    forall s | s in sessions && Timed(s)
      ensures Open(sessions, before, s, later) <==>
              Candidate(SpanFor(s), SpanFor(later)) && !Reach(before, s.id, later.id)
    {
      OpenIs(sessions, before, s, later);
    }
    if choice.Some? {
      var last :| last in sessions && Timed(last) && SpanFor(last) == choice.value;
      assert Open(sessions, before, last, later);
      forall o | Open(sessions, before, o, later)
        ensures o.id == last.id || Earlier(o, last)
      {
        SpanOrder(last, o);
        SpanOrder(o, last);
      }
      ParentsAre(sessions, later.id, last.id);
      ParentHere(sessions, later, last);
    } else {
      forall s
        ensures !Open(sessions, before, s, later)
      {
        if s in sessions && Timed(s) {
          assert SpanFor(s) in spans;
        }
      }
    }
  }

  lemma OpenIs(sessions: seq<VerifiedSession>, before: Edges, s: VerifiedSession, later: VerifiedSession)
    requires Checked(sessions) && later in sessions && Timed(later) && s in sessions && Timed(s)
    ensures Open(sessions, before, s, later) <==>
            Candidate(SpanFor(s), SpanFor(later)) && !Reach(before, s.id, later.id)
  {
    hide Checked, Reach;
    SpanOrder(s, later);
    if s.id == later.id {
      SameId(sessions, s, later);
    }
  }

  lemma ParentHere(sessions: seq<VerifiedSession>, later: VerifiedSession, last: VerifiedSession)
    requires Checked(sessions) && later in sessions && last in sessions
    ensures ParentOf(sessions, later.id, last.id) <==> later.parent == Some(last.id)
  {
    if ParentOf(sessions, later.id, last.id) {
      var s :| s in sessions && s.id == later.id && s.parent == Some(last.id);
      SameId(sessions, s, later);
    }
  }

  /** Every inferred link is to the last session the later one may continue without closing a cycle, and
      only timed sessions have one. */
  lemma LinksAreLast(sessions: seq<VerifiedSession>, r: Stitched, edges: Edges)
    requires Checked(sessions) && Stitching(Nodes(sessions), r, edges)
    ensures forall later :: later in sessions && Timed(later) ==>
              exists before :: EdgesBefore(sessions, r.inferred, later, before)
                               && LinkedToLast(sessions, r.inferred, later, before)
    ensures forall a :: a in r.inferred ==> exists s :: s in sessions && s.id == a && Timed(s)
  {
    var nodes := Nodes(sessions);
    var spans := Spans(nodes);
    var sorted := SortSpans(spans);
    CheckedNodes(sessions);
    SpansHold(nodes);
    SortKeeps(spans);
    SessionSpans(sessions);
    hide Spans, Nodes, Checked, RecordedFrom, SortSpans, Accepted, Acyclic, LinksAre, IdsAreComponents, Chosen,
        EdgesBefore, LinkedToLast, Distinct, InOrder;
    LinksOfTurns(spans, sorted, Recorded(nodes), edges, r.inferred);
    forall later | later in sessions && Timed(later)
      ensures exists before :: EdgesBefore(sessions, r.inferred, later, before)
                               && LinkedToLast(sessions, r.inferred, later, before)
    {
      var k :| 0 <= k < |sorted| && sorted[k] == SpanFor(later);
      var before, prior, choice := TurnAt(spans, sorted, Recorded(nodes), edges, r.inferred, k);
      DistinctPrefix(sorted, k);
      InferredEdges(spans, sorted[..k], Recorded(nodes), before, prior);
      EdgesAtTurn(sessions, r.inferred, later, sorted, k, before, prior);
      ChoiceIsLast(sessions, r.inferred, later, before, choice);
    }
    forall a | a in r.inferred
      ensures exists s :: s in sessions && s.id == a && Timed(s)
    {
      var j :| 0 <= j < |sorted| && sorted[j].id == a;
      assert sorted[j] in spans;
    }
  }

  lemma DistinctPrefix(todo: seq<Span>, k: nat)
    requires Distinct(todo) && k <= |todo|
    ensures Distinct(todo[..k])
  {
  }
}
