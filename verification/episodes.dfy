/** Stitching sessions into task episodes: recorded parents, edges inferred from git and time, and
the components of the two together.

A session is its opaque id.  Ids here are numbers in the order of the encoded strings, and all
sessions of one call share the source.
*/
module Episodes {
  import opened Records
  import opened LineageGraph
  import opened UnionFind

  const ADJACENCY_MICROSECONDS: int := 30 * 60 * 1000000

  /** What the temporal rule reads of a session that has all of it. */
  datatype Span = Span(id: nat, repo: nat, headBefore: nat, headAfter: nat, start: int, end: int)

  datatype Node = Node(id: nat, parent: Option<nat>, span: Option<Span>)

  ghost predicate Accepted(nodes: seq<Node>) {
    && (forall i, j :: 0 <= i < j < |nodes| ==> nodes[i].id != nodes[j].id)
    && (forall n :: n in nodes ==> n.parent != Some(n.id) && (n.span.Some? ==> n.span.value.id == n.id))
  }

  function Ids(nodes: seq<Node>): (r: set<nat>) {
    set n | n in nodes :: n.id
  }

  /** Parents that are themselves among the sessions. */
  function RecordedFrom(nodes: seq<Node>, ids: set<nat>): map<nat, nat> {
    if nodes == [] then map[]
    else
      var before := RecordedFrom(nodes[..|nodes| - 1], ids);
      var n := nodes[|nodes| - 1];
      if n.parent.Some? && n.parent.value in ids then before[n.id := n.parent.value] else before
  }

  function Recorded(nodes: seq<Node>): map<nat, nat> {
    RecordedFrom(nodes, Ids(nodes))
  }

  // ---- Order of spans --------------------------------------------------------

  /** By start, then end, then id. */
  predicate Before(a: Span, b: Span) {
    || a.start < b.start
    || (a.start == b.start && a.end < b.end)
    || (a.start == b.start && a.end == b.end && a.id < b.id)
  }

  function Place(s: Span, sorted: seq<Span>): seq<Span> {
    if sorted == [] || !Before(sorted[0], s) then [s] + sorted
    else [sorted[0]] + Place(s, sorted[1..])
  }

  function SortSpans(spans: seq<Span>): seq<Span> {
    if spans == [] then [] else Place(spans[0], SortSpans(spans[1..]))
  }

  ghost predicate InOrder(spans: seq<Span>) {
    forall i, j :: 0 <= i < j < |spans| ==> !Before(spans[j], spans[i])
  }

  predicate Distinct(spans: seq<Span>) {
    forall i, j :: 0 <= i < j < |spans| ==> spans[i].id != spans[j].id
  }

  lemma {:induction false} PlaceKeeps(s: Span, sorted: seq<Span>)
    ensures forall x :: x in Place(s, sorted) <==> x in sorted || x == s
    ensures InOrder(sorted) ==> InOrder(Place(s, sorted))
    ensures Distinct(sorted) && (forall x :: x in sorted ==> x.id != s.id) ==> Distinct(Place(s, sorted))
  {
    if sorted != [] && Before(sorted[0], s) {
      PlaceKeeps(s, sorted[1..]);
      assert forall x :: x in sorted <==> x in sorted[1..] || x == sorted[0];
      var placed := Place(s, sorted[1..]);
      assert forall j :: 0 <= j < |placed| ==> placed[j] == s || placed[j] in sorted[1..];
    } else if InOrder(sorted) {
      forall j | 0 <= j < |sorted|
        ensures !Before(sorted[j], s)
      {
        if j > 0 {
          assert !Before(sorted[j], sorted[0]);
        }
      }
    }
  }

  /** Sorting keeps the spans, each once, and puts them in order. */
  lemma {:induction false} SortKeeps(spans: seq<Span>)
    ensures forall x :: x in SortSpans(spans) <==> x in spans
    ensures InOrder(SortSpans(spans))
    ensures Distinct(spans) ==> Distinct(SortSpans(spans))
  {
    if spans != [] {
      SortKeeps(spans[1..]);
      PlaceKeeps(spans[0], SortSpans(spans[1..]));
      assert forall x :: x in spans <==> x in spans[1..] || x == spans[0];
      assert forall k :: 0 <= k < |spans[1..]| ==> spans[1..][k] == spans[k + 1];
    }
  }

  // ---- Inferred edges --------------------------------------------------------

  /** `earlier` could be what `later` continues. */
  predicate Candidate(earlier: Span, later: Span) {
    && earlier.id != later.id && Before(earlier, later)
    && earlier.repo == later.repo && earlier.headAfter == later.headBefore
    && 0 <= later.start - earlier.end <= ADJACENCY_MICROSECONDS
  }

  function Candidates(spans: seq<Span>, later: Span): seq<Span> {
    if spans == [] then []
    else (if Candidate(spans[0], later) then [spans[0]] else []) + Candidates(spans[1..], later)
  }

  lemma {:induction false} CandidatesHold(spans: seq<Span>, later: Span)
    ensures forall s :: s in Candidates(spans, later) <==> s in spans && Candidate(s, later)
  {
    if spans != [] {
      CandidatesHold(spans[1..], later);
      assert spans == [spans[0]] + spans[1..];
    }
  }

  /** The latest candidate that does not already lead back to `later`. */
  ghost predicate Chosen(edges: Edges, spans: seq<Span>, later: Span, choice: Option<Span>) {
    match choice
    case Some(s) =>
      && s in spans && Candidate(s, later) && !Reach(edges, s.id, later.id)
      && forall o :: o in spans && Candidate(o, later) && !Reach(edges, o.id, later.id) ==> !Before(s, o)
    case None =>
      forall o :: o in spans && Candidate(o, later) ==> Reach(edges, o.id, later.id)
  }

  /** The edges and links after the temporal rule has run over `todo` in order. */
  ghost predicate Inferred(spans: seq<Span>, todo: seq<Span>, recorded: map<nat, nat>,
                           edges: Edges, links: map<nat, nat>)
    decreases |todo|
  {
    if todo == [] then edges == ParentEdges(recorded) && links == map[]
    else
      var later := todo[|todo| - 1];
      exists before: Edges, old_links: map<nat, nat>, choice: Option<Span> ::
        && Inferred(spans, todo[..|todo| - 1], recorded, before, old_links)
        && Chosen(before, spans, later, choice)
        && edges == Continued(before, later, choice)
        && links == Linked(old_links, recorded, later, choice)
  }

  function Continued(edges: Edges, later: Span, choice: Option<Span>): Edges {
    if choice.Some? then WithEdge(edges, later.id, choice.value.id) else edges
  }

  function Linked(links: map<nat, nat>, recorded: map<nat, nat>, later: Span, choice: Option<Span>): map<nat, nat> {
    if choice.Some? && !(later.id in recorded && recorded[later.id] == choice.value.id)
    then links[later.id := choice.value.id] else links
  }

  /** Recorded and inferred edges together never form a cycle. */
  lemma {:induction false} InferredAcyclic(spans: seq<Span>, todo: seq<Span>, recorded: map<nat, nat>,
                                           edges: Edges, links: map<nat, nat>)
    requires Inferred(spans, todo, recorded, edges, links) && Acyclic(ParentEdges(recorded))
    ensures Acyclic(edges)
    decreases |todo|
  {
    if todo != [] {
      var later := todo[|todo| - 1];
      var before: Edges, old_links: map<nat, nat>, choice: Option<Span> :|
        && Inferred(spans, todo[..|todo| - 1], recorded, before, old_links)
        && Chosen(before, spans, later, choice)
        && edges == Continued(before, later, choice)
        && links == Linked(old_links, recorded, later, choice);
      InferredAcyclic(spans, todo[..|todo| - 1], recorded, before, old_links);
      if choice.Some? {
        EdgeKeepsAcyclic(before, later.id, choice.value.id);
      }
    }
  }

  /** The edges are exactly the recorded parents and the inferred links. */
  ghost predicate EdgesAre(edges: Edges, recorded: map<nat, nat>, links: map<nat, nat>) {
    forall a: nat, b: nat :: b in Predecessors(edges, a) <==>
           (a in recorded && recorded[a] == b) || (a in links && links[a] == b)
  }

  lemma LinkEdges(edges: Edges, recorded: map<nat, nat>, links: map<nat, nat>, from: nat, to: nat)
    requires EdgesAre(edges, recorded, links) && from !in links
    ensures EdgesAre(WithEdge(edges, from, to), recorded,
                     if !(from in recorded && recorded[from] == to) then links[from := to] else links)
  {
    var more := WithEdge(edges, from, to);
    var all := if !(from in recorded && recorded[from] == to) then links[from := to] else links;
    forall a: nat, b: nat
      ensures b in Predecessors(more, a) <==> (a in recorded && recorded[a] == b) || (a in all && all[a] == b)
    {
      assert b in Predecessors(more, a) <==> b in Predecessors(edges, a) || (a == from && b == to);
    }
  }

  lemma {:induction false} InferredEdges(spans: seq<Span>, todo: seq<Span>, recorded: map<nat, nat>,
                                         edges: Edges, links: map<nat, nat>)
    requires Inferred(spans, todo, recorded, edges, links)
    requires Distinct(todo)
    ensures EdgesAre(edges, recorded, links)
    ensures forall a :: a in links ==> exists k :: 0 <= k < |todo| && todo[k].id == a
    ensures forall a :: a in links ==> exists s :: s in spans && s.id == links[a]
    decreases |todo|
  {
    if todo != [] {
      var n := |todo| - 1;
      var later := todo[n];
      var before: Edges, old_links: map<nat, nat>, choice: Option<Span> :|
        && Inferred(spans, todo[..n], recorded, before, old_links)
        && Chosen(before, spans, later, choice)
        && edges == Continued(before, later, choice)
        && links == Linked(old_links, recorded, later, choice);
      InferredEdges(spans, todo[..n], recorded, before, old_links);
      assert forall k :: 0 <= k < n ==> todo[..n][k] == todo[k];
      assert later.id !in old_links;
      if choice.Some? {
        LinkEdges(before, recorded, old_links, later.id, choice.value.id);
      }
      forall a | a in links
        ensures exists k :: 0 <= k < |todo| && todo[k].id == a
      {
        if a == later.id {
          assert todo[n].id == a;
        } else {
          var k :| 0 <= k < n && todo[..n][k].id == a;
          assert todo[k].id == a;
        }
      }
    }
  }

  /** The spans the temporal rule works on: sessions that have every field it reads. */
  function Spans(nodes: seq<Node>): seq<Span> {
    if nodes == [] then []
    else (if nodes[0].span.Some? then [nodes[0].span.value] else []) + Spans(nodes[1..])
  }

  lemma {:induction false} SpansHold(nodes: seq<Node>)
    requires Accepted(nodes)
    ensures Distinct(Spans(nodes))
    ensures forall s :: s in Spans(nodes) ==> s.id in Ids(nodes)
  {
    if nodes != [] {
      AcceptedTail(nodes);
      SpansHold(nodes[1..]);
      assert Ids(nodes) == {nodes[0].id} + Ids(nodes[1..]);
      assert nodes[0] in nodes;
    }
  }

  lemma AcceptedTail(nodes: seq<Node>)
    requires Accepted(nodes) && nodes != []
    ensures Accepted(nodes[1..]) && nodes[0].id !in Ids(nodes[1..])
  {
    assert forall n :: n in nodes[1..] ==> n in nodes;
  }

  /** The temporal rule: for each session in order, the latest candidate that does not lead back. */
  method InferLinks(nodes: seq<Node>, recorded: map<nat, nat>, ghost all: set<nat>)
    returns (edges: Edges, links: map<nat, nat>)
    requires Accepted(nodes) && recorded == Recorded(nodes) && all == Ids(nodes) && Closed(ParentEdges(recorded), all)
    ensures Inferred(Spans(nodes), SortSpans(Spans(nodes)), recorded, edges, links)
    ensures Closed(edges, all)
    ensures forall a :: a in links ==> a in all && links[a] in all
  {
    var spans := Spans(nodes);
    SpansHold(nodes);
    var sorted := SortSpans(spans);
    SortKeeps(spans);
    edges, links := ParentEdges(recorded), map[];
    hide SortSpans, Spans, Accepted, Reach, InOrder;
    for k := 0 to |sorted|
      invariant Inferred(spans, sorted[..k], recorded, edges, links)
      invariant Closed(edges, all)
      invariant forall a :: a in links ==> a in all && links[a] in all
    {
      var later := sorted[k];
      assert later in sorted && later.id in all;
      var choice := Choose(edges, spans, later, all);
      assert sorted[..k + 1][..k] == sorted[..k];
      InferredStep(spans, sorted[..k + 1], recorded, edges, links, choice);
      if choice.Some? {
        ghost var before := edges;
        edges := WithEdge(edges, later.id, choice.value.id);
        WithEdgeClosed(before, all, later.id, choice.value.id);
        if !(later.id in recorded && recorded[later.id] == choice.value.id) {
          links := links[later.id := choice.value.id];
        }
      }
    }
    assert sorted[..|sorted|] == sorted;
  }

  lemma WithEdgeClosed(edges: Edges, all: set<nat>, from: nat, to: nat)
    requires Closed(edges, all) && to in all
    ensures Closed(WithEdge(edges, from, to), all)
  {
    forall a | a in all
      ensures Predecessors(WithEdge(edges, from, to), a) <= all
    {
      assert Predecessors(edges, a) <= all;
    }
  }

  lemma InferredStep(spans: seq<Span>, todo: seq<Span>, recorded: map<nat, nat>, edges: Edges, links: map<nat, nat>,
                     choice: Option<Span>)
    requires todo != [] && Inferred(spans, todo[..|todo| - 1], recorded, edges, links)
    requires Chosen(edges, spans, todo[|todo| - 1], choice)
    ensures Inferred(spans, todo, recorded, Continued(edges, todo[|todo| - 1], choice),
                     Linked(links, recorded, todo[|todo| - 1], choice))
  {
  }

  method Choose(edges: Edges, spans: seq<Span>, later: Span, ghost all: set<nat>) returns (choice: Option<Span>)
    requires Closed(edges, all) && forall s :: s in spans ==> s.id in all
    ensures Chosen(edges, spans, later, choice)
  {
    var ordered := SortSpans(Candidates(spans, later));
    CandidatesHold(spans, later);
    SortKeeps(Candidates(spans, later));
    hide SortSpans, Candidates, Candidate, Reach, Before;
    var k := |ordered|;
    while k > 0
      invariant 0 <= k <= |ordered|
      invariant forall j :: k <= j < |ordered| ==> Reach(edges, ordered[j].id, later.id)
    {
      k := k - 1;
      var earlier := ordered[k];
      assert earlier in ordered;
      var leadsBack := Reaches(edges, earlier.id, later.id, all);
      if !leadsBack {
        forall o | o in spans && Candidate(o, later) && !Reach(edges, o.id, later.id)
          ensures !Before(earlier, o)
        {
          var j :| 0 <= j < |ordered| && ordered[j] == o;
          BeforeIrreflexive(earlier);
        }
        return Some(earlier);
      }
    }
    forall o | o in spans && Candidate(o, later)
      ensures Reach(edges, o.id, later.id)
    {
      assert o in ordered;
    }
    choice := None;
  }

  lemma BeforeIrreflexive(s: Span)
    ensures !Before(s, s)
  {
  }

  // ---- Components ------------------------------------------------------------

  /** The hash of a component's sorted members, as the term that was hashed. */
  datatype EpisodeId = EpisodeId(members: seq<nat>)

  datatype Stitched = Stitched(ids: map<nat, EpisodeId>, unresolved: set<nat>, inferred: map<nat, nat>,
                               unresolvedCount: nat)

  function MembersOf(keys: seq<nat>, roots: map<nat, nat>, root: nat): seq<nat> {
    if keys == [] then []
    else
      var rest := keys[..|keys| - 1];
      var last := keys[|keys| - 1];
      MembersOf(rest, roots, root) + (if last in roots && roots[last] == root then [last] else [])
  }

  lemma {:induction false} MembersHold(keys: seq<nat>, roots: map<nat, nat>, root: nat)
    requires Ascending(keys)
    ensures forall k :: k in MembersOf(keys, roots, root) <==> k in keys && k in roots && roots[k] == root
    ensures Ascending(MembersOf(keys, roots, root))
  {
    if keys != [] {
      var rest := keys[..|keys| - 1];
      MembersHold(rest, roots, root);
      assert keys == rest + [keys[|keys| - 1]];
      var members := MembersOf(rest, roots, root);
      assert forall k :: 0 <= k < |members| ==> members[k] in rest;
    }
  }

  /** The groups found so far: each root's keys, in order, and nothing for other roots. */
  ghost predicate Grouped(keys: seq<nat>, roots: map<nat, nat>, groups: map<nat, seq<nat>>) {
    && (forall r :: r in groups ==> groups[r] == MembersOf(keys, roots, r))
    && (forall r: nat :: r !in groups ==> MembersOf(keys, roots, r) == [])
    && (forall k :: k in keys ==> k in roots && roots[k] in groups)
    && (forall r :: r in groups ==> r in roots && roots[r] == r)
  }

  lemma GroupedStep(keys: seq<nat>, roots: map<nat, nat>, groups: map<nat, seq<nat>>, key: nat)
    requires Grouped(keys, roots, groups) && key in roots
    requires roots[key] in roots && roots[roots[key]] == roots[key]
    ensures var root := roots[key];
            Grouped(keys + [key], roots, groups[root := (if root in groups then groups[root] else []) + [key]])
  {
    var more := keys + [key];
    assert more[..|more| - 1] == keys;
    assert forall k :: k in more <==> k in keys || k == key;
  }

  method GroupByRoot(components: Components, keys: set<nat>)
      returns (groups: map<nat, seq<nat>>, ghost roots: map<nat, nat>)
    requires Forest(components.parent) && components.parent.Keys == keys
    modifies components
    ensures roots == RootsOf(old(components.parent))
    ensures Grouped(Elements(keys), roots, groups)
  {
    hide SameRoots, Forest, Root, Grouped, Elements, Ascending, RootsOf, AtOrBelow, MembersOf;
    ghost var start := components.parent;
    roots := RootsOf(start);
    GroupStart(start);
    var sorted := Elements(keys);
    groups := map[];
    assert sorted[..0] == [];
    for k := 0 to |sorted|
      invariant SameRoots(start, components.parent) && Forest(components.parent) && components.parent.Keys == keys
      invariant Grouped(sorted[..k], roots, groups)
    {
      var key := sorted[k];
      assert key in sorted;
      ghost var between := components.parent;
      var root := components.Find(key);
      FindsRoot(start, between, components.parent, roots, key);
      assert sorted[..k + 1] == sorted[..k] + [key];
      GroupedStep(sorted[..k], roots, groups, key);
      groups := groups[root := (if root in groups then groups[root] else []) + [key]];
    }
    assert sorted[..|sorted|] == sorted;
  }

  lemma GroupStart(parent: map<nat, nat>)
    requires Forest(parent)
    ensures SameRoots(parent, parent) && Grouped([], RootsOf(parent), map[])
    ensures forall k :: k in parent ==>
            RootsOf(parent)[k] in parent && RootsOf(parent)[RootsOf(parent)[k]] == RootsOf(parent)[k]
  {
    RootsOfRoots(parent);
  }

  lemma FindsRoot(start: map<nat, nat>, between: map<nat, nat>, after: map<nat, nat>, roots: map<nat, nat>, key: nat)
    requires SameRoots(start, between) && SameRoots(between, after) && key in start && roots == RootsOf(start)
    ensures SameRoots(start, after) && Forest(after) && after.Keys == start.Keys
    ensures Forest(between) && key in between && Root(between, key) == roots[key]
  {
    SameRootsTransitive(start, between, after);
    RootsAgree(start, between, key);
  }

  ghost function RootsOf(parent: map<nat, nat>): (r: map<nat, nat>)
    requires Forest(parent)
    ensures r.Keys == parent.Keys
  {
    map k | k in parent :: Root(parent, k)
  }

  lemma RootsOfRoots(parent: map<nat, nat>)
    requires Forest(parent)
    ensures var roots := RootsOf(parent);
            roots.Keys == parent.Keys && forall k :: k in roots ==> roots[k] in roots && roots[roots[k]] == roots[k]
  {
    forall k | k in parent
      ensures RootsOf(parent)[k] in parent && RootsOf(parent)[RootsOf(parent)[k]] == RootsOf(parent)[k]
    {
      RootIsRoot(parent, k);
      RootIsRoot(parent, Root(parent, k));
    }
  }

  /** A key is labelled when its group has two members or more, and with that group. */
  ghost predicate Labelled(keys: seq<nat>, roots: map<nat, nat>, ids: map<nat, EpisodeId>, a: nat)
    requires a in roots
  {
    var members := MembersOf(keys, roots, roots[a]);
    && (a in ids <==> |members| >= 2)
    && (a in ids ==> ids[a] == EpisodeId(members))
  }

  /** Keys whose root is among `done` are labelled and no other is in `ids`. */
  ghost predicate LabelledFor(sorted: seq<nat>, roots: map<nat, nat>, ids: map<nat, EpisodeId>, done: seq<nat>) {
    && (forall a :: a in ids ==> a in roots && roots[a] in done)
    && (forall a :: a in roots && roots[a] in done ==> Labelled(sorted, roots, ids, a))
  }

  function WithLabels(ids: map<nat, EpisodeId>, members: seq<nat>): map<nat, EpisodeId> {
    if |members| < 2 then ids else ids + map a | a in members :: EpisodeId(members)
  }

  lemma WithLabelsHas(ids: map<nat, EpisodeId>, members: seq<nat>, a: nat)
    ensures a in WithLabels(ids, members) <==> a in ids || (|members| >= 2 && a in members)
    ensures a in WithLabels(ids, members) ==>
              WithLabels(ids, members)[a] == if |members| >= 2 && a in members then EpisodeId(members) else ids[a]
  {
  }

  lemma LabelStep(sorted: seq<nat>, roots: map<nat, nat>, ids: map<nat, EpisodeId>, done: seq<nat>, root: nat)
    requires (forall k :: k in roots ==> k in sorted) && Ascending(sorted)
    requires LabelledFor(sorted, roots, ids, done) && root !in done
    ensures LabelledFor(sorted, roots, WithLabels(ids, MembersOf(sorted, roots, root)), done + [root])
  {
    MembersHold(sorted, roots, root);
    var members := MembersOf(sorted, roots, root);
    hide MembersOf, Ascending, WithLabels;
    var more := WithLabels(ids, members);
    assert forall r :: r in done + [root] <==> r in done || r == root;
    forall a | a in more
      ensures a in roots && roots[a] in done + [root]
    {
      WithLabelsHas(ids, members, a);
    }
    forall a | a in roots && roots[a] in done + [root]
      ensures Labelled(sorted, roots, more, a)
    {
      WithLabelsHas(ids, members, a);
      assert roots[a] != root ==> Labelled(sorted, roots, ids, a);
    }
  }

  method LabelGroups(groups: map<nat, seq<nat>>, keys: set<nat>, ghost roots: map<nat, nat>)
      returns (ids: map<nat, EpisodeId>)
    requires roots.Keys == keys && Grouped(Elements(keys), roots, groups)
    ensures ids.Keys <= keys
    ensures AllLabelled(keys, roots, ids)
  {
    ghost var sorted := Elements(keys);
    ids := map[];
    var rootList := Elements(groups.Keys);
    hide Elements, MembersOf, Labelled, Ascending;
    for g := 0 to |rootList|
      invariant LabelledFor(sorted, roots, ids, rootList[..g])
    {
      var root := rootList[g];
      assert root in rootList;
      assert rootList[..g + 1] == rootList[..g] + [root];
      AscendingFresh(rootList, g);
      var members := groups[root];
      LabelStep(sorted, roots, ids, rootList[..g], root);
      if |members| < 2 {
        continue;
      }
      ids := ids + map a | a in members :: EpisodeId(members);
    }
    assert rootList[..|rootList|] == rootList;
  }

  lemma AscendingFresh(s: seq<nat>, n: nat)
    requires Ascending(s) && n < |s|
    ensures s[n] !in s[..n]
  {
  }

  lemma RootsAgree(start: map<nat, nat>, parent: map<nat, nat>, key: nat)
    requires SameRoots(start, parent) && key in start
    ensures Forest(start) && Forest(parent) && Root(parent, key) == Root(start, key)
  {
  }

  // ---- The whole map ---------------------------------------------------------

  /** The parent links in session order. */
  function RecordedLinks(nodes: seq<Node>, ids: set<nat>): seq<(nat, nat)> {
    if nodes == [] then []
    else
      var n := nodes[|nodes| - 1];
      RecordedLinks(nodes[..|nodes| - 1], ids) +
      (if n.parent.Some? && n.parent.value in ids then [(n.id, n.parent.value)] else [])
  }

  function Unresolved(nodes: seq<Node>, ids: set<nat>): set<nat> {
    if nodes == [] then {}
    else
      var n := nodes[|nodes| - 1];
      Unresolved(nodes[..|nodes| - 1], ids) + (if n.parent.Some? && n.parent.value !in ids then {n.id} else {})
  }

  function InferredLinks(children: seq<nat>, inferred: map<nat, nat>): seq<(nat, nat)>
    requires forall c :: c in children ==> c in inferred
  {
    if children == [] then []
    else
      var c := children[|children| - 1];
      InferredLinks(children[..|children| - 1], inferred) + [(c, inferred[c])]
  }

  lemma AcceptedPrefix(nodes: seq<Node>)
    requires Accepted(nodes) && nodes != []
    ensures Accepted(nodes[..|nodes| - 1])
    ensures nodes[|nodes| - 1].id !in Ids(nodes[..|nodes| - 1])
    ensures Ids(nodes) == Ids(nodes[..|nodes| - 1]) + {nodes[|nodes| - 1].id}
  {
    var rest, last := nodes[..|nodes| - 1], nodes[|nodes| - 1];
    assert forall n :: n in nodes <==> n in rest || n == last;
    assert forall k :: 0 <= k < |rest| ==> nodes[k].id != last.id;
  }

  /** The recorded parents as a map and as links are the same relation. */
  lemma {:induction false} RecordedHolds(nodes: seq<Node>, ids: set<nat>)
    requires Accepted(nodes)
    ensures forall a: nat, b: nat :: (a, b) in RecordedLinks(nodes, ids) <==>
                           a in RecordedFrom(nodes, ids) && RecordedFrom(nodes, ids)[a] == b
    ensures forall a :: a in RecordedFrom(nodes, ids) ==> a in Ids(nodes) && RecordedFrom(nodes, ids)[a] in ids
    ensures forall a :: a in Unresolved(nodes, ids) ==> a in Ids(nodes)
  {
    if nodes != [] {
      AcceptedPrefix(nodes);
      hide Accepted, Ids;
      RecordedHolds(nodes[..|nodes| - 1], ids);
    }
  }

  /** The unresolved sessions are those whose recorded parent is not among the sessions. */
  lemma {:induction false} UnresolvedHolds(nodes: seq<Node>, ids: set<nat>)
    ensures forall a :: a in Unresolved(nodes, ids) <==>
                        exists n :: n in nodes && n.id == a && n.parent.Some? && n.parent.value !in ids
  {
    if nodes != [] {
      var rest, last := nodes[..|nodes| - 1], nodes[|nodes| - 1];
      UnresolvedHolds(rest, ids);
      assert forall n :: n in nodes <==> n in rest || n == last;
    }
  }

  lemma {:induction false} InferredLinksHold(children: seq<nat>, inferred: map<nat, nat>)
    requires forall c :: c in children ==> c in inferred
    ensures forall a: nat, b: nat :: (a, b) in InferredLinks(children, inferred) <==> a in children && inferred[a] == b
  {
    if children != [] {
      var rest, last := children[..|children| - 1], children[|children| - 1];
      assert forall c :: c in children <==> c in rest || c == last;
      InferredLinksHold(rest, inferred);
    }
  }

  /** The links are the edges of the graph, each in its own direction. */
  ghost predicate LinksAre(links: seq<(nat, nat)>, edges: Edges) {
    forall a: nat, b: nat :: (a, b) in links <==> b in Predecessors(edges, a)
  }

  function AllLinks(nodes: seq<Node>, inferred: map<nat, nat>): seq<(nat, nat)> {
    RecordedLinks(nodes, Ids(nodes)) + InferredLinks(Elements(inferred.Keys), inferred)
  }

  lemma AllLinksUnfolds(nodes: seq<Node>, inferred: map<nat, nat>)
    ensures AllLinks(nodes, inferred) == RecordedLinks(nodes, Ids(nodes))
            + InferredLinks(Elements(inferred.Keys), inferred)
  {
  }

  lemma AllLinksAreEdges(nodes: seq<Node>, inferred: map<nat, nat>, edges: Edges)
    requires Accepted(nodes) && EdgesAre(edges, Recorded(nodes), inferred)
    ensures LinksAre(AllLinks(nodes, inferred), edges)
  {
    hide RecordedFrom, RecordedLinks, InferredLinks, Elements, Accepted, Predecessors;
    RecordedHolds(nodes, Ids(nodes));
    InferredLinksHold(Elements(inferred.Keys), inferred);
    forall a: nat, b: nat
      ensures (a, b) in AllLinks(nodes, inferred) <==> b in Predecessors(edges, a)
    {
      assert (a, b) in AllLinks(nodes, inferred) <==>
             (a, b) in RecordedLinks(nodes, Ids(nodes)) || (a, b) in InferredLinks(Elements(inferred.Keys), inferred);
    }
  }

  /** Union every recorded link whose parent is among the sessions, and note the others. */
  method UniteRecorded(nodes: seq<Node>, components: Components) returns (unresolved: set<nat>, count: nat)
    requires Accepted(nodes) && Represents(components.parent, []) && components.parent.Keys == Ids(nodes)
    modifies components
    ensures components.parent.Keys == Ids(nodes) && Represents(components.parent, RecordedLinks(nodes, Ids(nodes)))
    ensures unresolved == Unresolved(nodes, Ids(nodes)) && count == |unresolved|
  {
    hide Represents, Accepted;
    ghost var ids := Ids(nodes);
    unresolved, count := {}, 0;
    for k := 0 to |nodes|
      invariant components.parent.Keys == ids && Represents(components.parent, RecordedLinks(nodes[..k], ids))
      invariant unresolved == Unresolved(nodes[..k], ids) && count == |unresolved|
    {
      var n := nodes[k];
      assert n in nodes;
      NewId(nodes, k);
      RecordedStep(nodes, k, ids);
      if n.parent.Some? {
        if n.parent.value in components.parent {
          components.Union(n.id, n.parent.value, RecordedLinks(nodes[..k], ids));
        } else {
          unresolved := unresolved + {n.id};
          count := count + 1;
        }
      }
    }
    assert nodes[..|nodes|] == nodes;
  }

  method UniteInferred(inferred: map<nat, nat>, components: Components, ghost ids: set<nat>,
                       ghost recorded: seq<(nat, nat)>)
    requires Represents(components.parent, recorded) && components.parent.Keys == ids
    requires forall a :: a in inferred ==> a in ids && inferred[a] in ids
    modifies components
    ensures components.parent.Keys == ids
    ensures Represents(components.parent, recorded + InferredLinks(Elements(inferred.Keys), inferred))
  {
    hide Represents, Elements, Ascending;
    var children := Elements(inferred.Keys);
    assert recorded + InferredLinks(children[..0], inferred) == recorded;
    for k := 0 to |children|
      invariant components.parent.Keys == ids
      invariant Represents(components.parent, recorded + InferredLinks(children[..k], inferred))
    {
      var child := children[k];
      assert child in children;
      assert children[..k + 1][..k] == children[..k];
      ghost var links := recorded + InferredLinks(children[..k], inferred);
      assert recorded + InferredLinks(children[..k + 1], inferred) == links + [(child, inferred[child])];
      components.Union(child, inferred[child], links);
    }
    assert children[..|children|] == children;
  }

  lemma RecordedStep(nodes: seq<Node>, k: nat, ids: set<nat>)
    requires k < |nodes|
    ensures RecordedLinks(nodes[..k + 1], ids) ==
            if nodes[k].parent.Some? && nodes[k].parent.value in ids
            then RecordedLinks(nodes[..k], ids) + [(nodes[k].id, nodes[k].parent.value)]
            else RecordedLinks(nodes[..k], ids)
    ensures Unresolved(nodes[..k + 1], ids) ==
            Unresolved(nodes[..k], ids) +
            (if nodes[k].parent.Some? && nodes[k].parent.value !in ids then {nodes[k].id} else {})
  {
    assert nodes[..k + 1][..k] == nodes[..k];
  }

  lemma NewId(nodes: seq<Node>, k: nat)
    requires Accepted(nodes) && k < |nodes|
    ensures Accepted(nodes[..k]) && Accepted(nodes[..k + 1])
    ensures nodes[k].id !in Unresolved(nodes[..k], Ids(nodes))
  {
    UnresolvedHolds(nodes[..k], Ids(nodes));
    assert forall n :: n in nodes[..k + 1] ==> n in nodes;
    assert forall n :: n in nodes[..k] ==> n in nodes;
  }

  ghost predicate HasCompanion(all: set<nat>, links: seq<(nat, nat)>, a: nat) {
    exists b :: b in all && b != a && Connected(links, a, b)
  }

  /** A session carries an id exactly when the links connect it to another, and the id is the hash of
      its component. */
  ghost predicate IdsAreComponents(all: set<nat>, links: seq<(nat, nat)>, ids: map<nat, EpisodeId>) {
    && ids.Keys <= all
    && (forall a :: a in all ==> (a in ids <==> HasCompanion(all, links, a)))
    && (forall a :: a in ids ==> IsComponent(all, links, a, ids[a].members))
  }

  /** The members of one component, in order. */
  ghost predicate IsComponent(all: set<nat>, links: seq<(nat, nat)>, a: nat, members: seq<nat>) {
    Ascending(members) && forall b :: b in members <==> b in all && Connected(links, a, b)
  }

  /** So two sessions carry the same id exactly when the links connect them. */
  lemma SameIdIffConnected(all: set<nat>, links: seq<(nat, nat)>, ids: map<nat, EpisodeId>, a: nat, b: nat)
    requires IdsAreComponents(all, links, ids) && a in ids && b in ids
    ensures ids[a] == ids[b] <==> Connected(links, a, b)
  {
    hide Connected, Ascending;
    assert IsComponent(all, links, a, ids[a].members) && IsComponent(all, links, b, ids[b].members);
    ConnectedSelf(links, b);
    if Connected(links, a, b) {
      forall c
        ensures c in ids[a].members <==> c in ids[b].members
      {
        ConnectedShared(links, a, b, c);
      }
      AscendingUnique(ids[a].members, ids[b].members);
    }
  }

  lemma ConnectedSelf(links: seq<(nat, nat)>, a: nat)
    ensures Connected(links, a, a)
  {
    assert ConnectedIn(links, a, a, 0);
  }

  lemma ConnectedShared(links: seq<(nat, nat)>, a: nat, b: nat, c: nat)
    requires Connected(links, a, b)
    ensures Connected(links, a, c) <==> Connected(links, b, c)
  {
    hide Connected, Merged;
    MergedIffConnected(links, a, b);
    MergedSymmetric(links, a, b);
    MergedIffConnected(links, b, a);
    if Connected(links, a, c) {
      ConnectedTransitive(links, b, a, c);
    }
    if Connected(links, b, c) {
      ConnectedTransitive(links, a, b, c);
    }
  }

  lemma {:induction false} AscendingUnique(a: seq<nat>, b: seq<nat>)
    requires Ascending(a) && Ascending(b) && forall x :: x in a <==> x in b
    ensures a == b
    decreases |a|
  {
    assert forall k :: 0 <= k < |a| ==> a[k] in a;
    assert forall k :: 0 <= k < |b| ==> b[k] in b;
    if |a| > 0 && |b| > 0 {
      forall x
        ensures x in a[1..] <==> x in b[1..]
      {
        assert x in a[1..] <==> x in a && x != a[0];
        assert x in b[1..] <==> x in b && x != b[0];
      }
      AscendingUnique(a[1..], b[1..]);
    }
  }

  ghost predicate AllLabelled(keys: set<nat>, roots: map<nat, nat>, ids: map<nat, EpisodeId>) {
    roots.Keys == keys && forall a :: a in keys ==> Labelled(Elements(keys), roots, ids, a)
  }

  lemma LabelsAreComponents(parent: map<nat, nat>, links: seq<(nat, nat)>, ids: map<nat, EpisodeId>)
    requires Forest(parent) && Represents(parent, links) && ids.Keys <= parent.Keys
    requires AllLabelled(parent.Keys, RootsOf(parent), ids)
    ensures IdsAreComponents(parent.Keys, links, ids)
  {
    hide Connected, Represents, RootsOf, Elements, MembersOf, Labelled, Forest, Ascending, Merged, Root,
        RootsAreComponents, HasCompanion, IsComponent;
    RootsConnect(parent, links);
    forall a | a in parent
      ensures a in ids <==> HasCompanion(parent.Keys, links, a)
    {
      LabelMeans(parent, links, ids, a);
    }
    forall a | a in ids
      ensures IsComponent(parent.Keys, links, a, ids[a].members)
    {
      LabelIsComponent(parent, links, ids, a);
    }
  }

  ghost predicate RootsAreComponents(parent: map<nat, nat>, links: seq<(nat, nat)>)
    requires Forest(parent)
  {
    forall a, b :: a in parent && b in parent ==> (RootsOf(parent)[a] == RootsOf(parent)[b] <==> Connected(links, a, b))
  }

  lemma RootsConnect(parent: map<nat, nat>, links: seq<(nat, nat)>)
    requires Represents(parent, links)
    ensures Forest(parent) && RootsAreComponents(parent, links)
  {
    hide Root, Merged, Connected, Forest;
    forall a, b | a in parent && b in parent
      ensures RootsOf(parent)[a] == RootsOf(parent)[b] <==> Connected(links, a, b)
    {
      assert Root(parent, a) == Root(parent, b) <==> Merged(links, a, b);
      MergedIffConnected(links, a, b);
    }
  }

  lemma LabelMeans(parent: map<nat, nat>, links: seq<(nat, nat)>, ids: map<nat, EpisodeId>, a: nat)
    requires Forest(parent) && a in parent && Labelled(Elements(parent.Keys), RootsOf(parent), ids, a)
    requires RootsAreComponents(parent, links)
    ensures a in ids <==> HasCompanion(parent.Keys, links, a)
  {
    hide Connected, RootsOf, Elements, MembersOf, Forest, Ascending;
    var sorted, roots := Elements(parent.Keys), RootsOf(parent);
    MembersHold(sorted, roots, roots[a]);
    var members := MembersOf(sorted, roots, roots[a]);
    TwoMembers(members, a);
    if b :| b in members && b != a {
      assert b in parent && Connected(links, a, b);
    }
    if b :| b in parent && b != a && Connected(links, a, b) {
      assert b in members;
    }
  }

  lemma LabelIsComponent(parent: map<nat, nat>, links: seq<(nat, nat)>, ids: map<nat, EpisodeId>, a: nat)
    requires Forest(parent) && a in parent && a in ids
    requires Labelled(Elements(parent.Keys), RootsOf(parent), ids, a)
    requires RootsAreComponents(parent, links)
    ensures IsComponent(parent.Keys, links, a, ids[a].members)
  {
    hide Connected, RootsOf, Elements, MembersOf, Forest, Ascending;
    MembersHold(Elements(parent.Keys), RootsOf(parent), RootsOf(parent)[a]);
  }

  lemma TwoMembers(members: seq<nat>, a: nat)
    requires Ascending(members) && a in members
    ensures |members| >= 2 <==> exists b :: b in members && b != a
  {
    if |members| >= 2 {
      var b := if members[0] == a then members[1] else members[0];
      assert b in members && b != a;
    }
  }

  /** The stitcher.  It refuses exactly a cycle of recorded parents; otherwise the recorded and the
      inferred edges together are acyclic and the ids are the components of their union. */
  method EpisodeMap(nodes: seq<Node>) returns (r: Option<Stitched>, ghost edges: Edges)
    requires Accepted(nodes)
    ensures r.None? <==> !Acyclic(ParentEdges(Recorded(nodes)))
    ensures r.Some? ==> Stitching(nodes, r.value, edges)
  {
    hide Acyclic, Represents, Labelled, IdsAreComponents, RecordedFrom, SortSpans, Spans, Connected, Elements,
      SameRoots, AllLinks, Unresolved, Grouped, EdgesAre, LinksAre, Inferred;
    edges := map[];
    var recorded := Recorded(nodes);
    var ok := ParentsAcyclic(recorded);
    if !ok {
      return None, edges;
    }
    RecordedClosed(nodes);
    var grown, inferred := InferLinks(nodes, recorded, Ids(nodes));
    edges := grown;
    EdgesSound(nodes, edges, inferred);
    var components := new Components(Ids(nodes));
    var unresolved, count := UniteRecorded(nodes, components);
    UniteInferred(inferred, components, Ids(nodes), RecordedLinks(nodes, Ids(nodes)));
    AllLinksUnfolds(nodes, inferred);
    ghost var parent := components.parent;
    RepresentsForest(parent, AllLinks(nodes, inferred));
    var groups, roots := GroupByRoot(components, Ids(nodes));
    var ids := LabelGroups(groups, Ids(nodes), roots);
    LabelsAreComponents(parent, AllLinks(nodes, inferred), ids);
    r := Some(Stitched(ids, unresolved, inferred, count));
  }

  ghost predicate Stitching(nodes: seq<Node>, r: Stitched, edges: Edges) {
    && Inferred(Spans(nodes), SortSpans(Spans(nodes)), Recorded(nodes), edges, r.inferred)
    && Acyclic(edges) && EdgesAre(edges, Recorded(nodes), r.inferred)
    && LinksAre(AllLinks(nodes, r.inferred), edges)
    && IdsAreComponents(Ids(nodes), AllLinks(nodes, r.inferred), r.ids)
    && r.unresolved == Unresolved(nodes, Ids(nodes)) && r.unresolvedCount == |r.unresolved|
  }

  lemma EdgesSound(nodes: seq<Node>, edges: Edges, inferred: map<nat, nat>)
    requires Accepted(nodes) && Acyclic(ParentEdges(Recorded(nodes)))
    requires Inferred(Spans(nodes), SortSpans(Spans(nodes)), Recorded(nodes), edges, inferred)
    ensures Acyclic(edges) && EdgesAre(edges, Recorded(nodes), inferred) && LinksAre(AllLinks(nodes, inferred), edges)
  {
    hide Acyclic, RecordedFrom, SortSpans, Spans, AllLinks, EdgesAre, LinksAre, Inferred, Accepted;
    var sorted := SortSpans(Spans(nodes));
    SpansHold(nodes);
    SortKeeps(Spans(nodes));
    InferredAcyclic(Spans(nodes), sorted, Recorded(nodes), edges, inferred);
    InferredEdges(Spans(nodes), sorted, Recorded(nodes), edges, inferred);
    AllLinksAreEdges(nodes, inferred, edges);
  }

  lemma RepresentsForest(parent: map<nat, nat>, links: seq<(nat, nat)>)
    requires Represents(parent, links)
    ensures Forest(parent)
  {
  }

  lemma RecordedClosed(nodes: seq<Node>)
    requires Accepted(nodes)
    ensures Closed(ParentEdges(Recorded(nodes)), Ids(nodes))
  {
    RecordedHolds(nodes, Ids(nodes));
  }
}
