/** The stitcher's answer, written into a manifest, passes the validator's independent rebuild. */
module CorpusLineage {
  import opened Records
  import opened LineageGraph
  import opened UnionFind
  import opened Episodes
  import opened Corpus

  function Lookup<V>(m: map<nat, V>, k: nat): Option<V> {
    if k in m then Some(m[k]) else None
  }

  /** The manifest states each session's parent, inferred predecessor and episode as stitched. */
  ghost predicate States(sessions: seq<ManifestSession>, nodes: seq<Node>, st: Stitched) {
    && |sessions| == |nodes|
    && forall i :: 0 <= i < |nodes| ==>
         && sessions[i].id == nodes[i].id && sessions[i].parent == nodes[i].parent
         && sessions[i].episode == Lookup(st.ids, nodes[i].id)
         && sessions[i].predecessor == Lookup(st.inferred, nodes[i].id)
  }

  lemma StatesKeys(sessions: seq<ManifestSession>, nodes: seq<Node>, st: Stitched)
    requires States(sessions, nodes, st)
    ensures Keys(sessions) == Ids(nodes)
  {
    forall k
      ensures k in Keys(sessions) <==> k in Ids(nodes)
    {
      if k in Keys(sessions) {
        var s :| s in sessions && s.id == k;
        var i :| 0 <= i < |sessions| && sessions[i] == s;
        assert nodes[i] in nodes && nodes[i].id == k;
      }
      if k in Ids(nodes) {
        var n :| n in nodes && n.id == k;
        var i :| 0 <= i < |nodes| && nodes[i] == n;
        assert sessions[i] in sessions && sessions[i].id == k;
      }
    }
  }

  predicate StatesEdge(s: ManifestSession, keys: set<nat>, a: nat, b: nat) {
    s.id == a && ((s.parent == Some(b) && b in keys) || s.predecessor == Some(b))
  }

  lemma {:induction false} ManifestEdgesAre(sessions: seq<ManifestSession>, keys: set<nat>, a: nat, b: nat)
    ensures b in Predecessors(ManifestEdges(sessions, keys), a) <==>
            exists s :: s in sessions && StatesEdge(s, keys, a, b)
  {
    if sessions != [] {
      var rest, last := sessions[..|sessions| - 1], sessions[|sessions| - 1];
      ManifestEdgesAre(rest, keys, a, b);
      assert forall s :: s in sessions <==> s in rest || s == last;
      assert last in sessions;
      assert b in Predecessors(ManifestEdges(sessions, keys), a) <==>
             b in Predecessors(ManifestEdges(rest, keys), a) || StatesEdge(last, keys, a, b);
    }
  }

  /** Both sides have the same edges. */
  ghost predicate SameEdges(e: Edges, f: Edges) {
    forall a: nat :: Predecessors(e, a) == Predecessors(f, a)
  }

  lemma {:induction false} RecordedMember(nodes: seq<Node>, i: nat, b: nat)
    requires Accepted(nodes) && i < |nodes|
    ensures (nodes[i].id in Recorded(nodes) && Recorded(nodes)[nodes[i].id] == b) <==>
            nodes[i].parent == Some(b) && b in Ids(nodes)
  {
    RecordedHolds(nodes, Ids(nodes));
    RecordedLinksHold(nodes, Ids(nodes), nodes[i].id, b);
    if (nodes[i].id, b) in RecordedLinks(nodes, Ids(nodes)) {
      var n :| n in nodes && n.id == nodes[i].id && n.parent == Some(b) && b in Ids(nodes);
      var j :| 0 <= j < |nodes| && nodes[j] == n;
      assert j == i;
    }
  }

  lemma {:induction false} RecordedLinksHold(nodes: seq<Node>, ids: set<nat>, a: nat, b: nat)
    ensures (a, b) in RecordedLinks(nodes, ids) <==>
            exists n :: n in nodes && n.id == a && n.parent == Some(b) && b in ids
  {
    if nodes != [] {
      var rest, last := nodes[..|nodes| - 1], nodes[|nodes| - 1];
      RecordedLinksHold(rest, ids, a, b);
      assert forall n :: n in nodes <==> n in rest || n == last;
    }
  }

  lemma InferredAmong(nodes: seq<Node>, st: Stitched, edges: Edges)
    requires Accepted(nodes) && Stitching(nodes, st, edges)
    ensures forall a :: a in st.inferred ==> a in Ids(nodes) && st.inferred[a] in Ids(nodes)
  {
    hide Spans, SortSpans, Inferred, EdgesAre, LinksAre, IdsAreComponents, Acyclic, AllLinks, Unresolved;
    SpansHold(nodes);
    SortKeeps(Spans(nodes));
    var sorted := SortSpans(Spans(nodes));
    InferredEdges(Spans(nodes), sorted, Recorded(nodes), edges, st.inferred);
    forall a | a in st.inferred
      ensures a in Ids(nodes) && st.inferred[a] in Ids(nodes)
    {
      var k :| 0 <= k < |sorted| && sorted[k].id == a;
      assert sorted[k] in sorted;
      var s :| s in Spans(nodes) && s.id == st.inferred[a];
    }
  }

  lemma ManifestEdgesSame(sessions: seq<ManifestSession>, nodes: seq<Node>, st: Stitched, edges: Edges)
    requires Accepted(nodes) && Stitching(nodes, st, edges) && States(sessions, nodes, st)
    ensures SameEdges(ManifestEdges(sessions, Keys(sessions)), edges)
  {
    StatesKeys(sessions, nodes, st);
    InferredAmong(nodes, st, edges);
    RecordedHolds(nodes, Ids(nodes));
    var keys := Keys(sessions);
    var stated := ManifestEdges(sessions, keys);
    hide Spans, SortSpans, Inferred, LinksAre, IdsAreComponents, Acyclic, AllLinks, Unresolved, Accepted,
        ManifestEdges, RecordedFrom, Ids, Keys;
    forall a: nat, b: nat
      ensures b in Predecessors(stated, a) <==> b in Predecessors(edges, a)
    {
      EdgeStated(sessions, nodes, st, edges, a, b);
    }
    forall a: nat
      ensures Predecessors(stated, a) == Predecessors(edges, a)
    {
      assert forall b: nat :: b in Predecessors(stated, a) <==> b in Predecessors(edges, a);
    }
  }

  lemma EdgeStated(sessions: seq<ManifestSession>, nodes: seq<Node>, st: Stitched, edges: Edges, a: nat, b: nat)
    requires Accepted(nodes) && EdgesAre(edges, Recorded(nodes), st.inferred) && States(sessions, nodes, st)
    requires Keys(sessions) == Ids(nodes)
    requires forall x :: x in st.inferred ==> x in Ids(nodes) && st.inferred[x] in Ids(nodes)
    requires forall x :: x in Recorded(nodes) ==> x in Ids(nodes)
    ensures b in Predecessors(ManifestEdges(sessions, Keys(sessions)), a) <==> b in Predecessors(edges, a)
  {
    var keys := Keys(sessions);
    ManifestEdgesAre(sessions, keys, a, b);
    hide ManifestEdges, RecordedFrom, Accepted, Predecessors;
    assert b in Predecessors(edges, a) <==>
           (a in Recorded(nodes) && Recorded(nodes)[a] == b) || (a in st.inferred && st.inferred[a] == b);
    if s :| s in sessions && StatesEdge(s, keys, a, b) {
      var i :| 0 <= i < |sessions| && sessions[i] == s;
      RecordedMember(nodes, i, b);
    }
    if a in Ids(nodes) {
      var n :| n in nodes && n.id == a;
      var i :| 0 <= i < |nodes| && nodes[i] == n;
      RecordedMember(nodes, i, b);
      assert sessions[i] in sessions;
      if b in Predecessors(edges, a) {
        assert StatesEdge(sessions[i], keys, a, b);
      }
    }
  }

  lemma {:induction false} SameReach(e: Edges, f: Edges, a: nat, b: nat, n: nat)
    requires SameEdges(e, f)
    ensures ReachIn(e, a, b, n) <==> ReachIn(f, a, b, n)
    decreases n
  {
    if n > 0 {
      assert Predecessors(e, a) == Predecessors(f, a);
      forall c | c in Predecessors(e, a)
        ensures ReachIn(e, c, b, n - 1) <==> ReachIn(f, c, b, n - 1)
      {
        SameReach(e, f, c, b, n - 1);
      }
    }
  }

  lemma SameAcyclic(e: Edges, f: Edges)
    requires SameEdges(e, f) && Acyclic(e)
    ensures Acyclic(f)
  {
    forall a: nat, n: nat | n > 0
      ensures !ReachIn(f, a, a, n)
    {
      SameReach(e, f, a, a, n);
    }
  }

  lemma {:induction false} SameJoined(e: Edges, f: Edges, links: seq<(nat, nat)>, a: nat, b: nat, n: nat)
    requires SameEdges(e, f) && LinksAre(links, f)
    ensures Joined(e, a, b, n) <==> ConnectedIn(links, a, b, n)
    decreases n
  {
    hide SameEdges, LinksAre, Neighbours, Adjacent;
    if n > 0 {
      if Joined(e, a, b, n) {
        var c: nat :| Neighbours(e, a, c) && Joined(e, c, b, n - 1);
        NeighboursAreAdjacent(e, f, links, a, c);
        SameJoined(e, f, links, c, b, n - 1);
        assert Adjacent(links, a, c) && ConnectedIn(links, c, b, n - 1);
      }
      if ConnectedIn(links, a, b, n) {
        var c: nat :| Adjacent(links, a, c) && ConnectedIn(links, c, b, n - 1);
        NeighboursAreAdjacent(e, f, links, a, c);
        SameJoined(e, f, links, c, b, n - 1);
        assert Neighbours(e, a, c) && Joined(e, c, b, n - 1);
      }
    }
  }

  lemma NeighboursAreAdjacent(e: Edges, f: Edges, links: seq<(nat, nat)>, a: nat, c: nat)
    requires SameEdges(e, f) && LinksAre(links, f)
    ensures Neighbours(e, a, c) <==> Adjacent(links, a, c)
  {
    assert Predecessors(e, a) == Predecessors(f, a) && Predecessors(e, c) == Predecessors(f, c);
    assert (a, c) in links <==> c in Predecessors(f, a);
    assert (c, a) in links <==> a in Predecessors(f, c);
  }

  lemma TogetherIffConnected(e: Edges, f: Edges, links: seq<(nat, nat)>, a: nat, b: nat)
    requires SameEdges(e, f) && LinksAre(links, f)
    ensures Together(e, a, b) <==> Connected(links, a, b)
  {
    if Together(e, a, b) {
      var n: nat :| Joined(e, a, b, n);
      SameJoined(e, f, links, a, b, n);
    }
    if Connected(links, a, b) {
      var n: nat :| ConnectedIn(links, a, b, n);
      SameJoined(e, f, links, a, b, n);
    }
  }

  lemma {:induction false} UnresolvedCounted(sessions: seq<ManifestSession>, nodes: seq<Node>, st: Stitched,
                                             keys: set<nat>)
    requires Accepted(nodes) && States(sessions, nodes, st)
    ensures UnresolvedParents(sessions, keys) == |Unresolved(nodes, keys)|
    decreases |nodes|
  {
    if nodes != [] {
      var n := |nodes| - 1;
      AcceptedPrefix(nodes);
      StatesPrefix(sessions, nodes, st);
      OneMoreUnresolved(nodes, keys);
      hide Accepted, States, Unresolved;
      UnresolvedCounted(sessions[..n], nodes[..n], st, keys);
    }
  }

  lemma OneMoreUnresolved(nodes: seq<Node>, keys: set<nat>)
    requires Accepted(nodes) && nodes != []
    ensures var n := |nodes| - 1;
            |Unresolved(nodes, keys)| == |Unresolved(nodes[..n], keys)| +
            (if nodes[n].parent.Some? && nodes[n].parent.value !in keys then 1 else 0)
  {
    var n := |nodes| - 1;
    UnresolvedHolds(nodes[..n], keys);
    assert forall k :: 0 <= k < n ==> nodes[k].id != nodes[n].id;
    assert nodes[n].id !in Unresolved(nodes[..n], keys);
  }

  lemma StatesPrefix(sessions: seq<ManifestSession>, nodes: seq<Node>, st: Stitched)
    requires States(sessions, nodes, st) && nodes != []
    ensures States(sessions[..|nodes| - 1], nodes[..|nodes| - 1], st) && |sessions| == |nodes|
    ensures sessions[|nodes| - 1].parent == nodes[|nodes| - 1].parent
  {
  }

  /** The validator's lineage checks, all of them, hold of what the stitcher produced. */
  lemma StitchedLineageHolds(sessions: seq<ManifestSession>, nodes: seq<Node>, st: Stitched, edges: Edges)
    requires Accepted(nodes) && Stitching(nodes, st, edges) && States(sessions, nodes, st)
    ensures LineageHolds(sessions) && EpisodesHold(sessions)
    ensures UnresolvedParents(sessions, Keys(sessions)) == st.unresolvedCount
  {
    StatesKeys(sessions, nodes, st);
    UnresolvedCounted(sessions, nodes, st, Keys(sessions));
    ManifestEdgesSame(sessions, nodes, st, edges);
    InferredAmong(nodes, st, edges);
    var stated := ManifestEdges(sessions, Keys(sessions));
    hide Spans, SortSpans, Inferred, Recorded, AllLinks, Unresolved, ManifestEdges, Connected, Together, Keys, Ids,
        Ascending, EdgesAre;
    SameEdgesBack(stated, edges);
    SameAcyclic(edges, stated);
    forall s | s in sessions
      ensures s.parent != Some(s.id) && s.predecessor != Some(s.id)
      ensures s.predecessor.Some? ==> s.predecessor.value in Keys(sessions)
      ensures EpisodeHolds(Keys(sessions), stated, s)
    {
      var i :| 0 <= i < |sessions| && sessions[i] == s;
      assert nodes[i] in nodes;
      SessionHolds(sessions, nodes, st, edges, i);
    }
  }

  lemma SameEdgesBack(e: Edges, f: Edges)
    requires SameEdges(e, f)
    ensures SameEdges(f, e)
  {
  }

  lemma SessionHolds(sessions: seq<ManifestSession>, nodes: seq<Node>, st: Stitched, edges: Edges, i: nat)
    requires Accepted(nodes) && Stitching(nodes, st, edges) && States(sessions, nodes, st) && i < |nodes|
    requires Keys(sessions) == Ids(nodes) && SameEdges(ManifestEdges(sessions, Keys(sessions)), edges)
    ensures sessions[i].predecessor != Some(sessions[i].id)
    ensures EpisodeHolds(Keys(sessions), ManifestEdges(sessions, Keys(sessions)), sessions[i])
  {
    assert nodes[i] in nodes;
    NoSelfEdge(edges, st, nodes, nodes[i].id);
    hide Spans, SortSpans, Inferred, Recorded, AllLinks, Unresolved, ManifestEdges, EdgesAre, Acyclic, SameEdges,
        LinksAre, EpisodeHolds, IdsAreComponents;
    EpisodeStated(Keys(sessions), ManifestEdges(sessions, Keys(sessions)), edges, AllLinks(nodes, st.inferred), st.ids,
                  sessions[i]);
  }

  lemma EpisodeStated(keys: set<nat>, stated: Edges, edges: Edges, links: seq<(nat, nat)>, ids: map<nat, EpisodeId>,
                      s: ManifestSession)
    requires s.id in keys && s.episode == Lookup(ids, s.id) && IdsAreComponents(keys, links, ids)
    requires SameEdges(stated, edges) && LinksAre(links, edges)
    ensures EpisodeHolds(keys, stated, s)
  {
    hide Connected, Together, Ascending, SameEdges, LinksAre;
    forall b: nat
      ensures Together(stated, s.id, b) <==> Connected(links, s.id, b)
    {
      TogetherIffConnected(stated, edges, links, s.id, b);
    }
    assert s.id in ids <==> HasCompanion(keys, links, s.id);
    if s.id in ids {
      assert IsComponent(keys, links, s.id, ids[s.id].members);
    }
  }

  lemma NoSelfEdge(edges: Edges, st: Stitched, nodes: seq<Node>, a: nat)
    requires Acyclic(edges) && EdgesAre(edges, Recorded(nodes), st.inferred)
    ensures a in st.inferred ==> st.inferred[a] != a
  {
    if a in st.inferred && st.inferred[a] == a {
      assert a in Predecessors(edges, a);
      assert ReachIn(edges, a, a, 0);
      assert ReachIn(edges, a, a, 1);
      assert false;
    }
  }
}
