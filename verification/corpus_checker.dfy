/** The validator as the loops it is: it accepts exactly what `Corpus.Accepts` describes.

The order of the artifact is checked first here and last in the source; every check must pass, so
the answer is the same.
*/
module CorpusChecker {
  import opened Records
  import opened LineageGraph
  import opened UnionFind
  import opened Episodes
  import opened Corpus
  import opened CorpusLineage

  // ---- Lineage ---------------------------------------------------------------

  /** Finished nodes: no edge leaves them and no cycle runs through them. */
  ghost predicate Finished(edges: Edges, complete: set<nat>) {
    && Closed(edges, complete)
    && forall a: nat, n: nat :: a in complete && n > 0 ==> !ReachIn(edges, a, a, n)
  }

  /** Every node on the way down leads to `node`, by at least one edge. */
  ghost predicate LeadTo(edges: Edges, active: set<nat>, node: nat) {
    forall x :: x in active ==> exists n: nat :: n > 0 && ReachIn(edges, x, node, n)
  }

  lemma LeadOn(edges: Edges, active: set<nat>, node: nat, next: nat)
    requires LeadTo(edges, active, node) && next in Predecessors(edges, node)
    ensures LeadTo(edges, active + {node}, next)
  {
    assert ReachIn(edges, next, next, 0);
    assert ReachIn(edges, node, next, 1);
    forall x | x in active + {node}
      ensures exists n: nat :: n > 0 && ReachIn(edges, x, next, n)
    {
      if x in active {
        var n: nat :| n > 0 && ReachIn(edges, x, node, n);
        ReachInTrans(edges, x, node, next, n, 1);
        assert ReachIn(edges, x, next, n + 1);
      }
    }
  }

  lemma FinishNode(edges: Edges, complete: set<nat>, node: nat)
    requires Finished(edges, complete) && node !in complete && Predecessors(edges, node) <= complete
    ensures Finished(edges, complete + {node})
  {
    forall a: nat, n: nat | a in complete + {node} && n > 0
      ensures !ReachIn(edges, a, a, n)
    {
      if a == node && ReachIn(edges, a, a, n) {
        var c :| c in Predecessors(edges, a) && ReachIn(edges, c, a, n - 1);
        ReachStaysIn(edges, complete, c, a, n - 1);
        assert false;
      }
    }
  }

  method Visit(edges: Edges, node: nat, active: set<nat>, complete: set<nat>, ghost all: set<nat>)
      returns (ok: bool, done: set<nat>)
    requires Finished(edges, complete) && LeadTo(edges, active, node) && active !! complete
    requires Closed(edges, all) && node in all && active <= all
    ensures ok ==> Finished(edges, done) && complete + {node} <= done && done !! active
    ensures !ok ==> !Acyclic(edges)
    decreases |all - active|
  {
    hide Finished, LeadTo, Acyclic, Elements, Ascending, Closed;
    done := complete;
    if node in active {
      CycleFound(edges, active, node);
      return false, done;
    }
    if node in complete {
      return true, done;
    }
    var predecessors := Elements(Predecessors(edges, node));
    SubsetSize(all - (active + {node}), all - active);
    PredecessorsIn(edges, all, node);
    for k := 0 to |predecessors|
      invariant Finished(edges, done) && complete <= done && done !! active + {node}
      invariant forall j :: 0 <= j < k ==> predecessors[j] in done
    {
      assert predecessors[k] in predecessors;
      LeadOn(edges, active, node, predecessors[k]);
      ok, done := Visit(edges, predecessors[k], active + {node}, done, all);
      if !ok {
        return false, done;
      }
    }
    assert forall p :: p in Predecessors(edges, node) ==> p in predecessors;
    FinishNode(edges, done, node);
    done := done + {node};
    ok := true;
  }

  lemma CycleFound(edges: Edges, active: set<nat>, node: nat)
    requires LeadTo(edges, active, node) && node in active
    ensures !Acyclic(edges)
  {
    var n: nat :| n > 0 && ReachIn(edges, node, node, n);
  }

  lemma PredecessorsIn(edges: Edges, all: set<nat>, node: nat)
    requires Closed(edges, all) && node in all
    ensures Predecessors(edges, node) <= all
  {
  }

  lemma FinishedAcyclic(edges: Edges, complete: set<nat>)
    requires Finished(edges, complete) && edges.Keys <= complete
    ensures Acyclic(edges)
  {
    forall a: nat, n: nat | n > 0
      ensures !ReachIn(edges, a, a, n)
    {
      assert a in complete || Predecessors(edges, a) == {};
    }
  }

  lemma NothingFinished(edges: Edges, node: nat)
    ensures Finished(edges, {}) && LeadTo(edges, {}, node)
  {
  }

  /** Edges stay among the sessions, when every predecessor is one. */
  lemma {:induction false} EdgesAmong(sessions: seq<ManifestSession>, keys: set<nat>)
    requires forall s :: s in sessions ==> s.id in keys && (s.predecessor.Some? ==> s.predecessor.value in keys)
    ensures var edges := ManifestEdges(sessions, keys);
            edges.Keys <= keys && forall a :: a in edges ==> edges[a] <= keys
  {
    if sessions != [] {
      EdgesAmong(sessions[..|sessions| - 1], keys);
    }
  }

  method CheckLineage(sessions: seq<ManifestSession>) returns (ok: bool, edges: Edges, unresolved: nat)
    ensures ok <==> LineageHolds(sessions)
    ensures ok ==>
              && edges == ManifestEdges(sessions, Keys(sessions))
              && unresolved == UnresolvedParents(sessions, Keys(sessions))
    ensures ok ==> edges.Keys <= Keys(sessions) && forall a :: a in edges ==> edges[a] <= Keys(sessions)
  {
    var keys := Keys(sessions);
    edges, unresolved := map[], 0;
    hide Acyclic, Finished;
    for k := 0 to |sessions|
      invariant edges == ManifestEdges(sessions[..k], keys) && unresolved == UnresolvedParents(sessions[..k], keys)
      invariant forall j :: 0 <= j < k ==>
                  && sessions[j].parent != Some(sessions[j].id) && sessions[j].predecessor != Some(sessions[j].id)
                  && (sessions[j].predecessor.Some? ==> sessions[j].predecessor.value in keys)
    {
      var s := sessions[k];
      assert s in sessions;
      assert sessions[..k + 1][..k] == sessions[..k];
      if s.parent.Some? {
        if s.parent.value == s.id {
          return false, edges, unresolved;
        }
        if s.parent.value in keys {
          edges := WithEdge(edges, s.id, s.parent.value);
        } else {
          unresolved := unresolved + 1;
        }
      }
      if s.predecessor.Some? {
        if s.predecessor.value == s.id || s.predecessor.value !in keys {
          return false, edges, unresolved;
        }
        edges := WithEdge(edges, s.id, s.predecessor.value);
      }
    }
    assert sessions[..|sessions|] == sessions;
    forall s | s in sessions
      ensures s.id in keys && s.parent != Some(s.id) && s.predecessor != Some(s.id)
      ensures s.predecessor.Some? ==> s.predecessor.value in keys
    {
      var j :| 0 <= j < |sessions| && sessions[j] == s;
    }
    EdgesAmong(sessions, keys);
    var acyclic := EdgesAcyclic(edges, keys);
    ok := acyclic;
  }

  method EdgesAcyclic(edges: Edges, ghost keys: set<nat>) returns (ok: bool)
    requires edges.Keys <= keys && forall a :: a in edges ==> edges[a] <= keys
    ensures ok <==> Acyclic(edges)
  {
    hide Acyclic, Finished;
    var starts := Elements(edges.Keys);
    var complete: set<nat> := {};
    NothingFinished(edges, 0);
    for k := 0 to |starts|
      invariant Finished(edges, complete)
      invariant forall j :: 0 <= j < k ==> starts[j] in complete
    {
      assert starts[k] in starts;
      NothingFinished(edges, starts[k]);
      var visited;
      visited, complete := Visit(edges, starts[k], {}, complete, keys);
      if !visited {
        return false;
      }
    }
    forall a | a in edges
      ensures a in complete
    {
      assert a in starts;
    }
    FinishedAcyclic(edges, complete);
    ok := true;
  }

  // ---- Episodes --------------------------------------------------------------

  /** The edges as a list of links, child by child. */
  function LinksFrom(edges: Edges, children: seq<nat>): seq<(nat, nat)>
    requires forall c :: c in children ==> c in edges
  {
    if children == [] then []
    else
      var c := children[|children| - 1];
      LinksFrom(edges, children[..|children| - 1]) + Fan(c, Elements(edges[c]))
  }

  function Fan(child: nat, predecessors: seq<nat>): seq<(nat, nat)> {
    if predecessors == [] then []
    else Fan(child, predecessors[..|predecessors| - 1]) + [(child, predecessors[|predecessors| - 1])]
  }

  lemma {:induction false} FanHolds(child: nat, predecessors: seq<nat>)
    ensures forall a: nat, b: nat :: (a, b) in Fan(child, predecessors) <==> a == child && b in predecessors
  {
    if predecessors != [] {
      FanHolds(child, predecessors[..|predecessors| - 1]);
      assert predecessors == predecessors[..|predecessors| - 1] + [predecessors[|predecessors| - 1]];
    }
  }

  lemma {:induction false} LinksFromHold(edges: Edges, children: seq<nat>)
    requires forall c :: c in children ==> c in edges
    ensures forall a: nat, b: nat :: (a, b) in LinksFrom(edges, children) <==>
            a in children && b in Predecessors(edges, a)
  {
    if children != [] {
      var rest, c := children[..|children| - 1], children[|children| - 1];
      assert forall x :: x in children <==> x in rest || x == c;
      LinksFromHold(edges, rest);
      FanHolds(c, Elements(edges[c]));
    }
  }

  lemma LinksAreEdges(edges: Edges)
    ensures LinksAre(LinksFrom(edges, Elements(edges.Keys)), edges)
  {
    LinksFromHold(edges, Elements(edges.Keys));
  }

  method UniteEdges(edges: Edges, components: Components, ghost keys: set<nat>)
    requires Represents(components.parent, []) && components.parent.Keys == keys
    requires edges.Keys <= keys && forall a :: a in edges ==> edges[a] <= keys
    modifies components
    ensures components.parent.Keys == keys && Represents(components.parent, LinksFrom(edges, Elements(edges.Keys)))
  {
    hide Represents, Elements, Ascending;
    var children := Elements(edges.Keys);
    for k := 0 to |children|
      invariant components.parent.Keys == keys && Represents(components.parent, LinksFrom(edges, children[..k]))
    {
      var child := children[k];
      assert child in children;
      assert children[..k + 1][..k] == children[..k];
      ghost var links := LinksFrom(edges, children[..k]);
      var predecessors := Elements(edges[child]);
      assert links + Fan(child, predecessors[..0]) == links;
      for j := 0 to |predecessors|
        invariant components.parent.Keys == keys && Represents(components.parent, links + Fan(child, predecessors[..j]))
      {
        assert predecessors[j] in predecessors;
        assert predecessors[..j + 1][..j] == predecessors[..j];
        assert links + Fan(child, predecessors[..j + 1]) == (links + Fan(child, predecessors[..j]))
               + [(child, predecessors[j])];
        components.Union(child, predecessors[j], links + Fan(child, predecessors[..j]));
      }
      assert predecessors[..|predecessors|] == predecessors;
    }
    assert children[..|children|] == children;
  }

  /** A stated episode is right exactly when it is the one the rebuild finds. */
  lemma EpisodeIffRebuilt(keys: set<nat>, edges: Edges, links: seq<(nat, nat)>, ids: map<nat, EpisodeId>,
                          s: ManifestSession)
    requires s.id in keys && IdsAreComponents(keys, links, ids) && LinksAre(links, edges)
    ensures EpisodeHolds(keys, edges, s) <==> s.episode == Lookup(ids, s.id)
  {
    assert SameEdges(edges, edges);
    hide SameEdges, LinksAre, Connected, Together, IdsAreComponents;
    if s.episode == Lookup(ids, s.id) {
      EpisodeStated(keys, edges, edges, links, ids, s);
    }
    if EpisodeHolds(keys, edges, s) {
      var rebuilt := s.(episode := Lookup(ids, s.id));
      EpisodeStated(keys, edges, edges, links, ids, rebuilt);
      if s.episode.Some? {
        AscendingUnique(s.episode.value.members, rebuilt.episode.value.members);
      }
    }
  }

  method CheckEpisodes(sessions: seq<ManifestSession>, edges: Edges) returns (ok: bool)
    requires edges == ManifestEdges(sessions, Keys(sessions))
    requires edges.Keys <= Keys(sessions) && forall a :: a in edges ==> edges[a] <= Keys(sessions)
    ensures ok <==> EpisodesHold(sessions)
  {
    hide Represents, IdsAreComponents, AllLabelled, Grouped, EpisodeHolds, LinksAre, ManifestEdges, RootsOf, Elements,
        Forest;
    var keys := Keys(sessions);
    var components := new Components(keys);
    UniteEdges(edges, components, keys);
    ghost var links := LinksFrom(edges, Elements(edges.Keys));
    LinksAreEdges(edges);
    ghost var parent := components.parent;
    RepresentsForest(parent, links);
    var groups, roots := GroupByRoot(components, keys);
    var expected := LabelGroups(groups, keys, roots);
    LabelsAreComponents(parent, links, expected);
    for k := 0 to |sessions|
      invariant forall j :: 0 <= j < k ==> EpisodeHolds(keys, edges, sessions[j])
    {
      assert sessions[k] in sessions;
      EpisodeIffRebuilt(keys, edges, links, expected, sessions[k]);
      if sessions[k].episode != Lookup(expected, sessions[k].id) {
        return false;
      }
    }
    ok := true;
  }

  // ---- Events, one by one ----------------------------------------------------

  lemma OrderedByNeighbours(events: seq<Event>)
    requires forall k {:trigger events[k]} :: 0 < k < |events| ==> Precedes(events[k - 1], events[k])
    ensures Ordered(events)
  {
    forall i, j | 0 <= i < j < |events|
      ensures Precedes(events[i], events[j])
    {
      OrderedStep(events, i, j);
    }
  }

  lemma {:induction false} OrderedStep(events: seq<Event>, i: nat, j: nat)
    requires forall k {:trigger events[k]} :: 0 < k < |events| ==> Precedes(events[k - 1], events[k])
    requires i < j < |events|
    ensures Precedes(events[i], events[j])
  {
    if i < j - 1 {
      OrderedStep(events, i, j - 1);
    }
    assert Precedes(events[j - 1], events[j]);
  }

  method CheckOrder(events: seq<Event>) returns (ok: bool)
    ensures ok <==> Ordered(events)
  {
    for k := 0 to |events|
      invariant forall j {:trigger events[j]} :: 0 < j < k ==> Precedes(events[j - 1], events[j])
    {
      if k > 0 && !Precedes(events[k - 1], events[k]) {
        return false;
      }
    }
    OrderedByNeighbours(events);
    ok := true;
  }

  /** What is remembered of each record: its parent and time, and the commitment it is pointed at. */
  datatype Remembered = Remembered(parent: ParentLink, observedAt: Option<int>, commitment: Option<Digest>)

  ghost predicate RemembersAll(memory: map<(nat, nat), Remembered>, events: seq<Event>) {
    && (forall e :: e in events ==> (e.session, e.record) in memory && Agrees(memory[(e.session, e.record)], e))
    && (forall key :: key in memory && memory[key].commitment.Some? ==>
          exists e :: e in events && (e.session, e.record) == key && PointerOf(e.detail).Some?
                      && PointerOf(e.detail).value.commitment == memory[key].commitment.value)
    && (forall key :: key in memory ==> exists e :: e in events && (e.session, e.record) == key)
  }

  predicate Agrees(m: Remembered, e: Event) {
    m.parent == e.parent && m.observedAt == e.observedAt
    && (PointerOf(e.detail).Some? ==> m.commitment == Some(PointerOf(e.detail).value.commitment))
  }

  ghost predicate AllSameSource(events: seq<Event>) {
    forall a, b :: a in events && b in events ==> SameSource(a, b)
  }

  lemma RemembersSameSource(memory: map<(nat, nat), Remembered>, events: seq<Event>)
    requires RemembersAll(memory, events)
    ensures AllSameSource(events)
  {
  }

  /** What is remembered once one more event agrees. */
  function Remember(memory: map<(nat, nat), Remembered>, e: Event): map<(nat, nat), Remembered> {
    var key := (e.session, e.record);
    var commitment := if PointerOf(e.detail).Some? then Some(PointerOf(e.detail).value.commitment)
                      else if key in memory then memory[key].commitment else None;
    memory[key := Remembered(e.parent, e.observedAt, commitment)]
  }

  predicate Clashes(memory: map<(nat, nat), Remembered>, e: Event) {
    var key := (e.session, e.record);
    key in memory &&
    (memory[key].parent != e.parent || memory[key].observedAt != e.observedAt
     || (PointerOf(e.detail).Some? && memory[key].commitment.Some?
         && memory[key].commitment.value != PointerOf(e.detail).value.commitment))
  }

  lemma RememberMore(memory: map<(nat, nat), Remembered>, events: seq<Event>, e: Event)
    requires RemembersAll(memory, events) && !Clashes(memory, e)
    ensures RemembersAll(Remember(memory, e), events + [e])
  {
    var more := Remember(memory, e);
    assert forall x :: x in events + [e] <==> x in events || x == e;
    forall x | x in events + [e]
      ensures (x.session, x.record) in more && Agrees(more[(x.session, x.record)], x)
    {
      if x in events {
        assert Agrees(memory[(x.session, x.record)], x);
      }
    }
    forall key | key in more && more[key].commitment.Some?
      ensures exists x :: x in events + [e] && (x.session, x.record) == key && PointerOf(x.detail).Some?
                          && PointerOf(x.detail).value.commitment == more[key].commitment.value
    {
      if key == (e.session, e.record) && PointerOf(e.detail).Some? {
        assert e in events + [e];
      } else {
        var x :| x in events && (x.session, x.record) == key && PointerOf(x.detail).Some?
                 && PointerOf(x.detail).value.commitment == memory[key].commitment.value;
        assert x in events + [e];
      }
    }
    forall key | key in more
      ensures exists x :: x in events + [e] && (x.session, x.record) == key
    {
      if key == (e.session, e.record) {
        assert e in events + [e];
      } else {
        var x :| x in events && (x.session, x.record) == key;
        assert x in events + [e];
      }
    }
  }

  lemma ClashMeansDifferent(memory: map<(nat, nat), Remembered>, events: seq<Event>, e: Event, all: seq<Event>)
    requires RemembersAll(memory, events) && Clashes(memory, e)
    requires e in all && forall x :: x in events ==> x in all
    ensures !AllSameSource(all)
  {
    var key := (e.session, e.record);
    if memory[key].parent != e.parent || memory[key].observedAt != e.observedAt {
      var x :| x in events && (x.session, x.record) == key;
      assert Agrees(memory[key], x) && !SameSource(x, e);
    } else {
      var x :| x in events && (x.session, x.record) == key && PointerOf(x.detail).Some?
               && PointerOf(x.detail).value.commitment == memory[key].commitment.value;
      assert !SameSource(x, e);
    }
  }

  method CheckRecords(sessions: seq<ManifestSession>, events: seq<Event>) returns (ok: bool)
    ensures ok <==> (forall e :: e in events ==> EventShape(e) && Placed(sessions, e)) && AllSameSource(events)
  {
    hide RemembersAll, Remember, Clashes, AllSameSource, EventShape, Placed;
    var memory: map<(nat, nat), Remembered> := map[];
    NothingRemembered();
    for k := 0 to |events|
      invariant RemembersAll(memory, events[..k])
      invariant forall e :: e in events[..k] ==> EventShape(e) && Placed(sessions, e)
    {
      var e := events[k];
      assert e in events;
      assert events[..k + 1] == events[..k] + [e];
      if !EventShape(e) || !Placed(sessions, e) {
        return false;
      }
      if Clashes(memory, e) {
        ClashMeansDifferent(memory, events[..k], e, events);
        return false;
      }
      RememberMore(memory, events[..k], e);
      memory := Remember(memory, e);
    }
    assert events[..|events|] == events;
    RemembersSameSource(memory, events);
    ok := true;
  }

  lemma NothingRemembered()
    ensures RemembersAll(map[], [])
  {
  }

  // ---- Positions and generations ---------------------------------------------

  function SubsIn(subs: map<(nat, nat), seq<nat>>, key: (nat, nat)): seq<nat> {
    if key in subs then subs[key] else []
  }

  function GenerationsAt(generations: map<nat, seq<nat>>, session: nat): seq<nat> {
    if session in generations then generations[session] else []
  }

  method CheckRuns(events: seq<Event>) returns (ok: bool)
    ensures ok <==> Contiguous(events) && GenerationsRise(events)
  {
    var subs: map<(nat, nat), seq<nat>> := map[];
    var generations: map<nat, seq<nat>> := map[];
    for k := 0 to |events|
      invariant forall s: nat, r: nat :: SubsIn(subs, (s, r)) == SubsOf(events[..k], s, r)
      invariant forall s: nat :: GenerationsAt(generations, s) == GenerationsOf(events[..k], s)
    {
      var e := events[k];
      assert events[..k + 1][..k] == events[..k];
      var key := (e.session, e.record);
      subs := subs[key := SubsIn(subs, key) + [e.sub]];
      if e.detail.Lifecycle? && e.detail.generation.Some? {
        generations := generations[e.session := GenerationsAt(generations, e.session) + [e.detail.generation.value]];
      }
    }
    assert events[..|events|] == events;
    ok := AllRuns(subs, generations);
    RunsIff(subs, generations, events);
  }

  lemma RunsIff(subs: map<(nat, nat), seq<nat>>, generations: map<nat, seq<nat>>, events: seq<Event>)
    requires forall s: nat, r: nat :: SubsIn(subs, (s, r)) == SubsOf(events, s, r)
    requires forall s: nat :: GenerationsAt(generations, s) == GenerationsOf(events, s)
    ensures AllRuns(subs, generations) <==> Contiguous(events) && GenerationsRise(events)
  {
    hide SubsOf, GenerationsOf;
    if AllRuns(subs, generations) {
      forall s: nat, r: nat
        ensures FromZero(SubsOf(events, s, r))
      {
        assert SubsIn(subs, (s, r)) == SubsOf(events, s, r);
      }
      forall s: nat
        ensures Ascending(GenerationsOf(events, s))
      {
        assert GenerationsAt(generations, s) == GenerationsOf(events, s);
      }
    }
    if Contiguous(events) && GenerationsRise(events) {
      forall key | key in subs
        ensures FromZero(subs[key])
      {
        assert key == (key.0, key.1);
        assert SubsIn(subs, (key.0, key.1)) == SubsOf(events, key.0, key.1);
      }
      forall s | s in generations
        ensures Ascending(generations[s])
      {
        assert GenerationsAt(generations, s) == GenerationsOf(events, s);
      }
    }
  }

  predicate AllRuns(subs: map<(nat, nat), seq<nat>>, generations: map<nat, seq<nat>>) {
    (forall key :: key in subs ==> FromZero(subs[key])) && (forall s :: s in generations ==> Ascending(generations[s]))
  }

  // ---- Tool relations --------------------------------------------------------

  function LocationOf(e: Event): (nat, nat, nat) {
    (e.session, e.record, e.sub)
  }

  /** The event at each place; with the order checked there is at most one. */
  ghost predicate Located(places: map<(nat, nat, nat), Event>, events: seq<Event>) {
    && (forall e :: e in events ==> LocationOf(e) in places && places[LocationOf(e)] == e)
    && (forall key :: key in places ==> places[key] in events && LocationOf(places[key]) == key)
  }

  lemma LocateMore(places: map<(nat, nat, nat), Event>, events: seq<Event>, k: nat)
    requires Ordered(events) && k < |events| && Located(places, events[..k])
    ensures Located(places[LocationOf(events[k]) := events[k]], events[..k + 1])
  {
    var e := events[k];
    var more := places[LocationOf(e) := e];
    assert events[..k + 1] == events[..k] + [e];
    forall x | x in events[..k + 1]
      ensures LocationOf(x) in more && more[LocationOf(x)] == x
    {
      if x in events[..k] {
        var j :| 0 <= j < k && events[j] == x;
        assert Precedes(events[j], events[k]);
      }
    }
  }

  predicate Targets(places: map<(nat, nat, nat), Event>, e: Event, relation: ToolRelation) {
    && relation.LinkedTool?
    && (e.session, relation.record, relation.sub) in places
    && places[(e.session, relation.record, relation.sub)].detail.ToolCall?
    && Precedes(places[(e.session, relation.record, relation.sub)], e)
  }

  lemma TargetsMeansStanding(places: map<(nat, nat, nat), Event>, events: seq<Event>, e: Event, relation: ToolRelation)
    requires Located(places, events)
    ensures Targets(places, e, relation) <==> exists target :: Standing(events, e, relation, target)
    ensures forall target :: Standing(events, e, relation, target) ==>
              target == places[(e.session, relation.record, relation.sub)]
                  && (e.session, relation.record, relation.sub) in places
  {
    forall target | Standing(events, e, relation, target)
      ensures (e.session, relation.record, relation.sub) in places
              && target == places[(e.session, relation.record, relation.sub)]
    {
      assert LocationOf(target) == (e.session, relation.record, relation.sub);
    }
    if Targets(places, e, relation) {
      var target := places[(e.session, relation.record, relation.sub)];
      assert LocationOf(target) == (e.session, relation.record, relation.sub);
      assert Standing(events, e, relation, target);
    }
  }

  method Locate(events: seq<Event>) returns (places: map<(nat, nat, nat), Event>)
    requires Ordered(events)
    ensures Located(places, events)
  {
    places := map[];
    for k := 0 to |events|
      invariant Located(places, events[..k])
    {
      LocateMore(places, events, k);
      places := places[LocationOf(events[k]) := events[k]];
    }
    assert events[..|events|] == events;
  }

  function StatusesAt(statuses: map<(nat, nat, nat), seq<ResultStatus>>, key: (nat, nat, nat)): seq<ResultStatus> {
    if key in statuses then statuses[key] else []
  }

  method CheckResults(places: map<(nat, nat, nat), Event>, events: seq<Event>)
    returns (ok: bool, statuses: map<(nat, nat, nat), seq<ResultStatus>>)
    requires Located(places, events)
    ensures ok <==> forall e :: e in events ==> ResultBound(events, e)
    ensures ok ==> CollectedUpTo(statuses, events)
  {
    statuses := map[];
    hide ResultBound, Located, Targets;
    for k := 0 to |events|
      invariant forall j :: 0 <= j < k ==> ResultBound(events, events[j])
      invariant CollectedUpTo(statuses, events[..k])
    {
      var e := events[k];
      assert e in events;
      assert events[..k + 1] == events[..k] + [e];
      CollectMore(statuses, events[..k], e);
      ResultIffTargets(places, events, e);
      if e.detail.ToolResult? && e.detail.relation.LinkedTool? {
        if !Targets(places, e, e.detail.relation) {
          return false, statuses;
        }
        var key := (e.session, e.detail.relation.record, e.detail.relation.sub);
        statuses := statuses[key := StatusesAt(statuses, key) + [e.detail.status]];
      }
    }
    assert events[..|events|] == events;
    ok := true;
  }

  ghost predicate CollectedUpTo(statuses: map<(nat, nat, nat), seq<ResultStatus>>, events: seq<Event>) {
    forall s: nat, r: nat, t: nat :: StatusesAt(statuses, (s, r, t)) == StatusesOf(events, s, r, t)
  }

  lemma CollectMore(statuses: map<(nat, nat, nat), seq<ResultStatus>>, events: seq<Event>, e: Event)
    requires CollectedUpTo(statuses, events)
    ensures e.detail.ToolResult? && e.detail.relation.LinkedTool? ==>
              var key := (e.session, e.detail.relation.record, e.detail.relation.sub);
              CollectedUpTo(statuses[key := StatusesAt(statuses, key) + [e.detail.status]], events + [e])
    ensures !(e.detail.ToolResult? && e.detail.relation.LinkedTool?) ==> CollectedUpTo(statuses, events + [e])
  {
    assert (events + [e])[..|events|] == events;
  }

  lemma ResultIffTargets(places: map<(nat, nat, nat), Event>, events: seq<Event>, e: Event)
    requires Located(places, events)
    ensures ResultBound(events, e) <==>
              (e.detail.ToolResult? && e.detail.relation.LinkedTool? ==> Targets(places, e, e.detail.relation))
  {
    if e.detail.ToolResult? && e.detail.relation.LinkedTool? {
      TargetsMeansStanding(places, events, e, e.detail.relation);
    }
  }

  predicate ForgeGood(places: map<(nat, nat, nat), Event>, statuses: map<(nat, nat, nat), seq<ResultStatus>>, e: Event)
    requires e.detail.Forge?
  {
    && Targets(places, e, e.detail.call)
    && places[(e.session, e.detail.call.record, e.detail.call.sub)].detail.input == Some(e.detail.invocation)
    && e.detail.outcome == Outcome(StatusesAt(statuses, (e.session, e.detail.call.record, e.detail.call.sub)))
  }

  lemma ForgeGoodIffBound(places: map<(nat, nat, nat), Event>, statuses: map<(nat, nat, nat), seq<ResultStatus>>,
                          events: seq<Event>, e: Event)
    requires Located(places, events) && e.detail.Forge?
    requires CollectedUpTo(statuses, events)
    ensures ForgeGood(places, statuses, e) <==> ForgeBound(events, e)
  {
    TargetsMeansStanding(places, events, e, e.detail.call);
  }

  predicate ForgeTarget(e: Event, t: (nat, nat, nat)) {
    e.detail.Forge? && e.detail.call.LinkedTool? && (e.session, e.detail.call.record, e.detail.call.sub) == t
  }

  method CheckForges(places: map<(nat, nat, nat), Event>, statuses: map<(nat, nat, nat), seq<ResultStatus>>,
                     events: seq<Event>)
    returns (ok: bool)
    requires Located(places, events)
    requires CollectedUpTo(statuses, events)
    ensures ok <==> (forall e :: e in events ==> ForgeBound(events, e)) && ForgesDistinct(events)
  {
    var targets: set<(nat, nat, nat)> := {};
    hide ForgeBound, ForgeGood, Located, CollectedUpTo;
    for k := 0 to |events|
      invariant forall j :: 0 <= j < k ==> ForgeBound(events, events[j])
      invariant forall j :: 0 <= j < k && events[j].detail.Forge? ==>
                  && events[j].detail.call.LinkedTool?
                  && (events[j].session, events[j].detail.call.record, events[j].detail.call.sub) in targets
      invariant forall t :: t in targets ==> exists j :: 0 <= j < k && ForgeTarget(events[j], t)
      invariant forall i, j :: 0 <= i < j < k && events[i].detail.Forge? && events[j].detail.Forge? ==>
                  events[i].session != events[j].session || events[i].detail.call != events[j].detail.call
    {
      var e := events[k];
      assert e in events;
      if e.detail.Forge? {
        ForgeGoodIffBound(places, statuses, events, e);
        if !ForgeGood(places, statuses, e) {
          return false;
        }
        BoundIsLinked(events, e);
        var target := (e.session, e.detail.call.record, e.detail.call.sub);
        if target in targets {
          return false;
        }
        targets := targets + {target};
      } else {
        NotForge(events, e);
      }
    }
    ok := true;
  }

  lemma BoundIsLinked(events: seq<Event>, e: Event)
    requires ForgeBound(events, e) && e.detail.Forge?
    ensures e.detail.call.LinkedTool?
  {
  }

  lemma NotForge(events: seq<Event>, e: Event)
    requires !e.detail.Forge?
    ensures ForgeBound(events, e)
  {
  }

  /** The whole validator. */
  method ValidateCorpus(rules: Rules, a: Artifact) returns (ok: bool)
    ensures ok <==> Accepts(rules, a)
  {
    hide ManifestCounts, LineageHolds, EpisodesHold, CoverageHolds, Contiguous, GenerationsRise, ForgesDistinct,
        ForgeBound, ResultBound, Ordered, EventShape, IdsRising, EpisodeTable, Placed, SameSource, Located,
        ManifestEdges, UnresolvedParents;
    var sessions, events := a.manifest.sessions, a.events;
    var sorted := CheckSessionOrder(sessions);
    var rising := CheckEpisodeOrder(rules, a.manifest.episodes);
    if !sorted || !rising || !ManifestCounts(a.manifest, events) {
      return false;
    }
    var ordered := CheckOrder(events);
    if !ordered {
      return false;
    }
    var lineage, edges, unresolved := CheckLineage(sessions);
    if !lineage {
      return false;
    }
    var episodes := CheckEpisodes(sessions, edges);
    if !episodes || a.manifest.episodes != EpisodeTable(rules, sessions, events)
       || a.manifest.coverage.lineageUnresolved != unresolved {
      return false;
    }
    var records := CheckRecords(sessions, events);
    var runs := CheckRuns(events);
    if !records || !runs {
      return false;
    }
    var places := Locate(events);
    var results, statuses := CheckResults(places, events);
    if !results {
      return false;
    }
    var forges := CheckForges(places, statuses, events);
    if !forges {
      return false;
    }
    ok := CoverageHolds(a.manifest.coverage, events);
  }

  method CheckEpisodeOrder(rules: Rules, episodes: seq<EpisodeOutput>) returns (ok: bool)
    ensures ok <==> IdsRising(rules, episodes)
  {
    for k := 0 to |episodes|
      invariant IdsRising(rules, episodes[..k])
    {
      if k > 0 && !(rules.place(episodes[k - 1].id) < rules.place(episodes[k].id)) {
        return false;
      }
    }
    assert episodes[..|episodes|] == episodes;
    ok := true;
  }

  method CheckSessionOrder(sessions: seq<ManifestSession>) returns (ok: bool)
    ensures ok <==> SessionsSorted(sessions)
  {
    for k := 0 to |sessions|
      invariant forall i, j :: 0 <= i < j < k ==> sessions[i].id < sessions[j].id
    {
      if k > 0 && !(sessions[k - 1].id < sessions[k].id) {
        return false;
      }
    }
    ok := true;
  }
}
