/** Session lineage as a graph: from each session to its predecessors. */
module LineageGraph {
  import opened Records

  type Edges = map<nat, set<nat>>

  function Predecessors(edges: Edges, a: nat): set<nat> {
    if a in edges then edges[a] else {}
  }

  function WithEdge(edges: Edges, from: nat, to: nat): Edges {
    edges[from := Predecessors(edges, from) + {to}]
  }

  /** `b` is `n` steps back from `a`. */
  ghost predicate ReachIn(edges: Edges, a: nat, b: nat, n: nat)
    decreases n
  {
    if n == 0 then a == b
    else exists c :: c in Predecessors(edges, a) && ReachIn(edges, c, b, n - 1)
  }

  ghost predicate Reach(edges: Edges, a: nat, b: nat) {
    exists n: nat :: ReachIn(edges, a, b, n)
  }

  ghost predicate Acyclic(edges: Edges) {
    forall a: nat, n: nat :: n > 0 ==> !ReachIn(edges, a, a, n)
  }

  lemma {:induction false} ReachInTrans(edges: Edges, a: nat, b: nat, c: nat, m: nat, n: nat)
    requires ReachIn(edges, a, b, m) && ReachIn(edges, b, c, n)
    ensures ReachIn(edges, a, c, m + n)
    decreases m
  {
    if m > 0 {
      var d :| d in Predecessors(edges, a) && ReachIn(edges, d, b, m - 1);
      ReachInTrans(edges, d, b, c, m - 1, n);
    }
  }

  lemma ReachTrans(edges: Edges, a: nat, b: nat, c: nat)
    requires Reach(edges, a, b) && Reach(edges, b, c)
    ensures Reach(edges, a, c)
  {
    var m: nat :| ReachIn(edges, a, b, m);
    var n: nat :| ReachIn(edges, b, c, n);
    ReachInTrans(edges, a, b, c, m, n);
  }

  lemma ReachSelf(edges: Edges, a: nat)
    ensures Reach(edges, a, a)
  {
    assert ReachIn(edges, a, a, 0);
  }

  lemma ReachStep(edges: Edges, a: nat, b: nat)
    requires b in Predecessors(edges, a)
    ensures Reach(edges, a, b)
  {
    assert ReachIn(edges, b, b, 0);
    assert ReachIn(edges, a, b, 1);
  }

  /** A walk over one more edge either does not need it, or goes up to it and on from it. */
  lemma {:induction false} ReachWithEdge(edges: Edges, from: nat, to: nat, a: nat, b: nat, n: nat)
    requires ReachIn(WithEdge(edges, from, to), a, b, n)
    ensures Reach(edges, a, b) || (Reach(edges, a, from) && Reach(edges, to, b))
    decreases n
  {
    if n == 0 {
      ReachSelf(edges, a);
    } else {
      var more := WithEdge(edges, from, to);
      var c :| c in Predecessors(more, a) && ReachIn(more, c, b, n - 1);
      ReachWithEdge(edges, from, to, c, b, n - 1);
      if c in Predecessors(edges, a) {
        ReachStep(edges, a, c);
        if Reach(edges, c, b) {
          ReachTrans(edges, a, c, b);
        } else {
          ReachTrans(edges, a, c, from);
        }
      } else {
        ReachSelf(edges, a);
      }
    }
  }

  /** Adding an edge to a session that does not already lead back keeps the graph acyclic. */
  lemma EdgeKeepsAcyclic(edges: Edges, from: nat, to: nat)
    requires Acyclic(edges) && !Reach(edges, to, from)
    ensures Acyclic(WithEdge(edges, from, to))
  {
    var more := WithEdge(edges, from, to);
    forall a: nat, n: nat | n > 0
      ensures !ReachIn(more, a, a, n)
    {
      if ReachIn(more, a, a, n) {
        var c :| c in Predecessors(more, a) && ReachIn(more, c, a, n - 1);
        ReachWithEdge(edges, from, to, c, a, n - 1);
        CycleNeedsWayBack(edges, from, to, a, c);
      }
    }
  }

  lemma CycleNeedsWayBack(edges: Edges, from: nat, to: nat, a: nat, c: nat)
    requires Acyclic(edges) && c in Predecessors(WithEdge(edges, from, to), a)
    requires Reach(edges, c, a) || (Reach(edges, c, from) && Reach(edges, to, a))
    ensures Reach(edges, to, from)
  {
    if c in Predecessors(edges, a) {
      if Reach(edges, c, a) {
        var m: nat :| ReachIn(edges, c, a, m);
        assert ReachIn(edges, a, a, m + 1);
      } else {
        ReachStep(edges, a, c);
        ReachTrans(edges, to, a, c);
        ReachTrans(edges, to, c, from);
      }
    }
  }

  /** Sessions outside which no edge leads. */
  ghost predicate Closed(edges: Edges, all: set<nat>) {
    forall a :: a in all ==> Predecessors(edges, a) <= all
  }

  lemma {:induction false} ReachStaysIn(edges: Edges, all: set<nat>, a: nat, b: nat, n: nat)
    requires Closed(edges, all) && a in all && ReachIn(edges, a, b, n)
    ensures b in all
    decreases n
  {
    if n > 0 {
      var c :| c in Predecessors(edges, a) && ReachIn(edges, c, b, n - 1);
      ReachStaysIn(edges, all, c, b, n - 1);
    }
  }

  predicate Ascending(s: seq<nat>) {
    forall i, j :: 0 <= i < j < |s| ==> s[i] < s[j]
  }

  /** The elements of a set in order. */
  function Elements(s: set<nat>): (r: seq<nat>)
    ensures forall x :: x in r <==> x in s
    ensures Ascending(r)
    decreases |s|
  {
    if |s| == 0 then []
    else
      var x := Least(s);
      var rest := Elements(s - {x});
      assert forall k :: 0 <= k < |rest| ==> rest[k] in s - {x};
      [x] + rest
  }

  function Least(s: set<nat>): (m: nat)
    requires |s| > 0
    ensures m in s && forall x :: x in s ==> m <= x
  {
    LeastExists(s);
    var m: nat :| m in s && forall x :: x in s ==> m <= x;
    m
  }

  lemma {:induction false} LeastExists(s: set<nat>)
    requires |s| > 0
    ensures exists m: nat :: m in s && forall x :: x in s ==> m <= x
    decreases |s|
  {
    var y: nat :| y in s;
    var rest := s - {y};
    assert forall x :: x in s ==> x == y || x in rest;
    if |rest| == 0 {
      assert forall x :: x in s ==> y <= x;
    } else {
      LeastExists(rest);
      var m: nat :| m in rest && forall x :: x in rest ==> m <= x;
      var least := if y < m then y else m;
      assert least in s && forall x :: x in s ==> least <= x;
    }
  }

  /** Where the search stands: everything met is reachable, and every edge out of a finished session
      leads to a finished or a pending one. */
  ghost predicate Searching(edges: Edges, start: nat, target: nat, seen: set<nat>, pending: seq<nat>) {
    && (forall x :: x in pending ==> Reach(edges, start, x))
    && (start in seen || start in pending)
    && target !in seen
    && (forall x, y :: x in seen && y in Predecessors(edges, x) ==> y in seen || y in pending)
  }

  lemma SearchFinds(edges: Edges, start: nat, target: nat, current: nat, seen: set<nat>, rest: seq<nat>)
    requires Searching(edges, start, target, seen, rest + [current])
    ensures Reach(edges, start, current)
    ensures current in seen ==> Searching(edges, start, target, seen, rest)
    ensures current != target ==>
              Searching(edges, start, target, seen + {current}, rest + Elements(Predecessors(edges, current)))
  {
    hide Reach;
    var next := Elements(Predecessors(edges, current));
    assert forall x :: x in rest + [current] <==> x in rest || x == current;
    assert current in rest + [current];
    forall y | y in next
      ensures Reach(edges, start, y)
    {
      ReachStep(edges, current, y);
      ReachTrans(edges, start, current, y);
    }
    assert forall x :: x in rest + next <==> x in rest || x in next;
  }

  lemma SearchEnds(edges: Edges, start: nat, target: nat, seen: set<nat>)
    requires Searching(edges, start, target, seen, [])
    ensures !Reach(edges, start, target)
  {
    if Reach(edges, start, target) {
      var n: nat :| ReachIn(edges, start, target, n);
      ReachStaysIn(edges, seen, start, target, n);
    }
  }

  /** The depth-first search that guards every inferred edge. */
  method Reaches(edges: Edges, start: nat, target: nat, ghost all: set<nat>) returns (found: bool)
    requires Closed(edges, all) && start in all
    ensures found <==> Reach(edges, start, target)
  {
    hide Searching, Reach;
    var pending: seq<nat> := [start];
    var seen: set<nat> := {};
    SearchStarts(edges, start, target);
    while pending != []
      invariant seen <= all && forall x :: x in pending ==> x in all
      invariant Searching(edges, start, target, seen, pending)
      decreases |all - seen|, |pending|
    {
      var current := pending[|pending| - 1];
      assert pending == pending[..|pending| - 1] + [current];
      pending := pending[..|pending| - 1];
      SearchFinds(edges, start, target, current, seen, pending);
      if current == target {
        return true;
      }
      if current in seen {
        continue;
      }
      SubsetSize(all - (seen + {current}), all - seen);
      seen := seen + {current};
      pending := pending + Elements(Predecessors(edges, current));
    }
    SearchEnds(edges, start, target, seen);
    found := false;
  }

  lemma SearchStarts(edges: Edges, start: nat, target: nat)
    ensures Searching(edges, start, target, {}, [start])
  {
    ReachSelf(edges, start);
  }

  lemma SubsetSize(a: set<nat>, b: set<nat>)
    requires a < b
    ensures |a| < |b|
  {
    var extra :| extra in b && extra !in a;
    assert a <= b - {extra};
    SubsetAtMost(a, b - {extra});
  }

  lemma SubsetAtMost(a: set<nat>, b: set<nat>)
    requires a <= b
    ensures |a| <= |b|
  {
    assert b == a + (b - a);
  }

  // ---- The recorded-parent check ---------------------------------------------

  function ParentEdges(parents: map<nat, nat>): Edges {
    map child | child in parents :: {parents[child]}
  }

  /** The ancestor `n` steps up, if the chain is that long. */
  function Ancestor(parents: map<nat, nat>, a: nat, n: nat): Option<nat>
    decreases n
  {
    if n == 0 then Some(a)
    else if a !in parents then None
    else Ancestor(parents, parents[a], n - 1)
  }

  ghost predicate Ends(parents: map<nat, nat>, a: nat) {
    exists n: nat :: Ancestor(parents, a, n) == None
  }

  lemma {:induction false} AncestorIsReach(parents: map<nat, nat>, a: nat, b: nat, n: nat)
    ensures ReachIn(ParentEdges(parents), a, b, n) <==> Ancestor(parents, a, n) == Some(b)
    decreases n
  {
    if n > 0 && a in parents {
      AncestorIsReach(parents, parents[a], b, n - 1);
      assert Predecessors(ParentEdges(parents), a) == {parents[a]};
    }
  }

  lemma {:induction false} AncestorAdds(parents: map<nat, nat>, a: nat, m: nat, n: nat)
    ensures Ancestor(parents, a, m + n) ==
            if Ancestor(parents, a, m).Some? then Ancestor(parents, Ancestor(parents, a, m).value, n) else None
    decreases m
  {
    if m > 0 && a in parents {
      AncestorAdds(parents, parents[a], m - 1, n);
    }
  }

  /** Once around a cycle, always around it. */
  lemma {:induction false} CycleNeverEnds(parents: map<nat, nat>, a: nat, period: nat, n: nat)
    requires period > 0 && Ancestor(parents, a, period) == Some(a)
    ensures Ancestor(parents, a, n).Some?
    decreases n
  {
    if n >= period {
      CycleNeverEnds(parents, a, period, n - period);
      AncestorAdds(parents, a, period, n - period);
    } else {
      AncestorAdds(parents, a, n, period - n);
    }
  }

  /** Every chain of recorded parents ends exactly when the graph they form is acyclic. */
  lemma EndingIsAcyclic(parents: map<nat, nat>)
    requires forall a :: a in parents ==> Ends(parents, a)
    ensures Acyclic(ParentEdges(parents))
  {
    forall a: nat, n: nat | n > 0
      ensures !ReachIn(ParentEdges(parents), a, a, n)
    {
      AncestorIsReach(parents, a, a, n);
      if Ancestor(parents, a, n) == Some(a) {
        var end: nat :| Ancestor(parents, a, end) == None;
        CycleNeverEnds(parents, a, n, end);
      }
    }
  }

  /** The sessions passed on the way up from `start`. */
  ghost predicate Passed(parents: map<nat, nat>, start: nat, trail: set<nat>, steps: nat) {
    forall x :: x in trail ==> exists i: nat :: i < steps && Ancestor(parents, start, i) == Some(x)
  }

  lemma PassedStep(parents: map<nat, nat>, start: nat, trail: set<nat>, steps: nat, cursor: nat)
    requires Passed(parents, start, trail, steps) && Ancestor(parents, start, steps) == Some(cursor)
             && cursor in parents
    ensures Passed(parents, start, trail + {cursor}, steps + 1)
    ensures Ancestor(parents, start, steps + 1) == Some(parents[cursor])
  {
    AncestorAdds(parents, start, steps, 1);
    assert Ancestor(parents, cursor, 1) == Ancestor(parents, parents[cursor], 0);
  }

  lemma PassedTwice(parents: map<nat, nat>, start: nat, trail: set<nat>, steps: nat, cursor: nat)
    requires Passed(parents, start, trail, steps) && Ancestor(parents, start, steps) == Some(cursor) && cursor in trail
    ensures !Acyclic(ParentEdges(parents))
  {
    var i: nat :| i < steps && Ancestor(parents, start, i) == Some(cursor);
    hide Ancestor, ReachIn, ParentEdges;
    var period: nat := steps - i;
    AncestorAdds(parents, start, i, period);
    AncestorIsReach(parents, cursor, cursor, period);
    assert ReachIn(ParentEdges(parents), cursor, cursor, period);
  }

  lemma PassedOut(parents: map<nat, nat>, start: nat, steps: nat, cursor: nat)
    requires Ancestor(parents, start, steps) == Some(cursor) && cursor !in parents
    ensures Ends(parents, start)
  {
    AncestorAdds(parents, start, steps, 1);
    assert Ancestor(parents, start, steps + 1) == None;
  }

  /** Follow the recorded parents of every session and refuse a repeat. */
  method ParentsAcyclic(parents: map<nat, nat>) returns (ok: bool)
    ensures ok <==> Acyclic(ParentEdges(parents))
  {
    hide Passed, Ends, Acyclic, Ancestor, Elements, Ascending, ParentEdges;
    var starts := Elements(parents.Keys);
    for k := 0 to |starts|
      invariant forall j :: 0 <= j < k ==> Ends(parents, starts[j])
    {
      var start := starts[k];
      var cursor := start;
      var trail: set<nat> := {};
      ghost var steps: nat := 0;
      NothingPassed(parents, start);
      while cursor in parents
        invariant Ancestor(parents, start, steps) == Some(cursor)
        invariant trail <= parents.Keys && Passed(parents, start, trail, steps)
        decreases |parents.Keys - trail|
      {
        if cursor in trail {
          PassedTwice(parents, start, trail, steps, cursor);
          return false;
        }
        SubsetSize(parents.Keys - (trail + {cursor}), parents.Keys - trail);
        PassedStep(parents, start, trail, steps, cursor);
        trail := trail + {cursor};
        cursor := parents[cursor];
        steps := steps + 1;
      }
      PassedOut(parents, start, steps, cursor);
    }
    assert forall a :: a in parents ==> a in starts;
    EndingIsAcyclic(parents);
    ok := true;
  }

  lemma NothingPassed(parents: map<nat, nat>, start: nat)
    ensures Passed(parents, start, {}, 0) && Ancestor(parents, start, 0) == Some(start)
  {
  }
}
