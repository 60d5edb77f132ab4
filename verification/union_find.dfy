/** The union-find map that merges sessions into components. */
module UnionFind {

  predicate AtOrBelow(parent: map<nat, nat>, k: nat) {
    k in parent && parent[k] in parent && parent[k] <= k
  }

  /** Every key's parent is a key and is at or below it: the measure by which `Find` ends. */
  ghost predicate Forest(parent: map<nat, nat>) {
    forall k {:trigger AtOrBelow(parent, k)} :: k in parent ==> AtOrBelow(parent, k)
  }

  ghost function Root(parent: map<nat, nat>, k: nat): (r: nat)
    requires Forest(parent) && k in parent
    ensures r in parent && r <= k && parent[r] == r
    decreases k
  {
    assert AtOrBelow(parent, k);
    if parent[k] == k then k else Root(parent, parent[k])
  }

  function Halved(parent: map<nat, nat>, key: nat): map<nat, nat>
    requires key in parent && parent[key] in parent
  {
    parent[key := parent[parent[key]]]
  }

  lemma HalvingKeepsForest(parent: map<nat, nat>, key: nat)
    requires Forest(parent) && AtOrBelow(parent, key)
    ensures Forest(Halved(parent, key)) && Halved(parent, key).Keys == parent.Keys
  {
    var halved := Halved(parent, key);
    assert AtOrBelow(parent, parent[key]);
    forall k | k in halved
      ensures AtOrBelow(halved, k)
    {
      assert AtOrBelow(parent, k);
    }
  }

  /** Pointing a key at its grandparent changes no root. */
  lemma {:induction false} HalvingKeepsRoots(parent: map<nat, nat>, key: nat, k: nat)
    requires Forest(parent) && AtOrBelow(parent, key) && k in parent
    ensures Forest(Halved(parent, key))
    ensures Root(Halved(parent, key), k) == Root(parent, k)
    decreases k
  {
    HalvingKeepsForest(parent, key);
    var halved := Halved(parent, key);
    assert AtOrBelow(parent, k) && AtOrBelow(halved, k) && AtOrBelow(parent, parent[k]);
    if halved[k] != k {
      HalvingKeepsRoots(parent, key, halved[k]);
    }
  }

  lemma LinkKeepsForest(parent: map<nat, nat>, first: nat, second: nat)
    requires Forest(parent) && first in parent && second in parent && first < second
    ensures Forest(parent[second := first])
  {
    forall k | k in parent
      ensures AtOrBelow(parent[second := first], k)
    {
      assert AtOrBelow(parent, k);
    }
  }

  /** Pointing one root at a smaller one merges exactly those two trees. */
  lemma {:induction false} LinkMergesRoots(parent: map<nat, nat>, first: nat, second: nat, k: nat)
    requires Forest(parent) && first in parent && second in parent && k in parent
    requires parent[first] == first && parent[second] == second && first < second
    ensures Forest(parent[second := first])
    ensures Root(parent[second := first], k) == if Root(parent, k) == second then first else Root(parent, k)
    decreases k
  {
    LinkKeepsForest(parent, first, second);
    assert AtOrBelow(parent, k) && AtOrBelow(parent[second := first], k);
    if parent[k] != k {
      LinkMergesRoots(parent, first, second, parent[k]);
    }
  }

  // ---- Components of a list of links -----------------------------------------

  /** The links merged one by one. */
  ghost predicate Merged(links: seq<(nat, nat)>, a: nat, b: nat) {
    if links == [] then a == b
    else
      var rest := links[..|links| - 1];
      var (u, v) := links[|links| - 1];
      || Merged(rest, a, b)
      || (Merged(rest, a, u) && Merged(rest, v, b))
      || (Merged(rest, a, v) && Merged(rest, u, b))
  }

  ghost predicate Adjacent(links: seq<(nat, nat)>, a: nat, b: nat) {
    (a, b) in links || (b, a) in links
  }

  /** `b` is `n` links away from `a`, in whichever direction each was recorded. */
  ghost predicate ConnectedIn(links: seq<(nat, nat)>, a: nat, b: nat, n: nat)
    decreases n
  {
    if n == 0 then a == b
    else exists c: nat :: Adjacent(links, a, c) && ConnectedIn(links, c, b, n - 1)
  }

  ghost predicate Connected(links: seq<(nat, nat)>, a: nat, b: nat) {
    exists n: nat :: ConnectedIn(links, a, b, n)
  }

  lemma {:induction false} MergedSymmetric(links: seq<(nat, nat)>, a: nat, b: nat)
    requires Merged(links, a, b)
    ensures Merged(links, b, a)
    decreases |links|
  {
    if links != [] {
      var rest := links[..|links| - 1];
      var (u, v) := links[|links| - 1];
      if Merged(rest, a, b) {
        MergedSymmetric(rest, a, b);
      } else if Merged(rest, a, u) && Merged(rest, v, b) {
        MergedSymmetric(rest, a, u);
        MergedSymmetric(rest, v, b);
      } else {
        MergedSymmetric(rest, a, v);
        MergedSymmetric(rest, u, b);
      }
    }
  }

  lemma {:induction false} MergedTransitive(links: seq<(nat, nat)>, a: nat, b: nat, c: nat)
    requires Merged(links, a, b) && Merged(links, b, c)
    ensures Merged(links, a, c)
    decreases |links|
  {
    if links != [] {
      var rest := links[..|links| - 1];
      var (u, v) := links[|links| - 1];
      if Merged(rest, a, b) {
        if Merged(rest, b, c) {
          MergedTransitive(rest, a, b, c);
        } else if Merged(rest, b, u) && Merged(rest, v, c) {
          MergedTransitive(rest, a, b, u);
        } else {
          MergedTransitive(rest, a, b, v);
        }
      } else if Merged(rest, a, u) && Merged(rest, v, b) {
        if Merged(rest, b, c) {
          MergedTransitive(rest, v, b, c);
        } else if Merged(rest, b, u) && Merged(rest, v, c) {
        } else {
          MergedTransitive(rest, a, u, c);
        }
      } else {
        if Merged(rest, b, c) {
          MergedTransitive(rest, u, b, c);
        } else if Merged(rest, b, u) && Merged(rest, v, c) {
          MergedTransitive(rest, a, v, c);
        }
      }
    }
  }

  lemma {:induction false} MergedSelf(links: seq<(nat, nat)>, a: nat)
    ensures Merged(links, a, a)
    decreases |links|
  {
    if links != [] {
      MergedSelf(links[..|links| - 1], a);
    }
  }

  lemma {:induction false} AdjacentIsMerged(links: seq<(nat, nat)>, a: nat, b: nat)
    requires Adjacent(links, a, b)
    ensures Merged(links, a, b)
    decreases |links|
  {
    var rest := links[..|links| - 1];
    assert links == rest + [links[|links| - 1]];
    MergedSelf(rest, a);
    MergedSelf(rest, b);
    if Adjacent(rest, a, b) {
      AdjacentIsMerged(rest, a, b);
    }
  }

  lemma {:induction false} ConnectedIsMerged(links: seq<(nat, nat)>, a: nat, b: nat, n: nat)
    requires ConnectedIn(links, a, b, n)
    ensures Merged(links, a, b)
    decreases n
  {
    if n == 0 {
      MergedSelf(links, a);
    } else {
      var c: nat :| Adjacent(links, a, c) && ConnectedIn(links, c, b, n - 1);
      AdjacentIsMerged(links, a, c);
      ConnectedIsMerged(links, c, b, n - 1);
      MergedTransitive(links, a, c, b);
    }
  }

  lemma {:induction false} ConnectedInAdds(links: seq<(nat, nat)>, a: nat, b: nat, c: nat, m: nat, n: nat)
    requires ConnectedIn(links, a, b, m) && ConnectedIn(links, b, c, n)
    ensures ConnectedIn(links, a, c, m + n)
    decreases m
  {
    if m > 0 {
      var d: nat :| Adjacent(links, a, d) && ConnectedIn(links, d, b, m - 1);
      ConnectedInAdds(links, d, b, c, m - 1, n);
    }
  }

  lemma ConnectedTransitive(links: seq<(nat, nat)>, a: nat, b: nat, c: nat)
    requires Connected(links, a, b) && Connected(links, b, c)
    ensures Connected(links, a, c)
  {
    var m: nat :| ConnectedIn(links, a, b, m);
    var n: nat :| ConnectedIn(links, b, c, n);
    ConnectedInAdds(links, a, b, c, m, n);
  }

  lemma ConnectedByLink(links: seq<(nat, nat)>, a: nat, b: nat)
    requires Adjacent(links, a, b)
    ensures Connected(links, a, b)
  {
    assert ConnectedIn(links, b, b, 0);
    assert ConnectedIn(links, a, b, 1);
  }

  lemma {:induction false} ConnectedMore(links: seq<(nat, nat)>, more: seq<(nat, nat)>, a: nat, b: nat, n: nat)
    requires ConnectedIn(links, a, b, n) && links <= more
    ensures ConnectedIn(more, a, b, n)
    decreases n
  {
    if n > 0 {
      var c: nat :| Adjacent(links, a, c) && ConnectedIn(links, c, b, n - 1);
      assert forall l :: l in links ==> l in more;
      assert Adjacent(more, a, c);
      ConnectedMore(links, more, c, b, n - 1);
    }
  }

  lemma {:induction false} MergedIsConnected(links: seq<(nat, nat)>, a: nat, b: nat)
    requires Merged(links, a, b)
    ensures Connected(links, a, b)
    decreases |links|
  {
    if links == [] {
      assert ConnectedIn(links, a, b, 0);
    } else {
      var rest := links[..|links| - 1];
      var (u, v) := links[|links| - 1];
      assert (u, v) in links;
      ConnectedByLink(links, u, v);
      ConnectedByLink(links, v, u);
      if Merged(rest, a, b) {
        MergedFromRest(links, a, b);
      } else if Merged(rest, a, u) && Merged(rest, v, b) {
        MergedFromRest(links, a, u);
        MergedFromRest(links, v, b);
        ConnectedTransitive(links, a, u, v);
        ConnectedTransitive(links, a, v, b);
      } else {
        MergedFromRest(links, a, v);
        MergedFromRest(links, u, b);
        ConnectedTransitive(links, a, v, u);
        ConnectedTransitive(links, a, u, b);
      }
    }
  }

  lemma MergedFromRest(links: seq<(nat, nat)>, a: nat, b: nat)
    requires links != [] && Merged(links[..|links| - 1], a, b)
    ensures Connected(links, a, b)
    decreases |links|, 0
  {
    var rest := links[..|links| - 1];
    MergedIsConnected(rest, a, b);
    var n: nat :| ConnectedIn(rest, a, b, n);
    ConnectedMore(rest, links, a, b, n);
  }

  /** Merging one link at a time gives exactly the connected components. */
  lemma MergedIffConnected(links: seq<(nat, nat)>, a: nat, b: nat)
    ensures Merged(links, a, b) <==> Connected(links, a, b)
  {
    if Merged(links, a, b) {
      MergedIsConnected(links, a, b);
    }
    if Connected(links, a, b) {
      var n: nat :| ConnectedIn(links, a, b, n);
      ConnectedIsMerged(links, a, b, n);
    }
  }

  // ---- The data structure ----------------------------------------------------

  /** Two keys share a root exactly when the links so far merge them. */
  ghost predicate Represents(parent: map<nat, nat>, links: seq<(nat, nat)>) {
    && Forest(parent)
    && forall a, b :: a in parent && b in parent ==> (Root(parent, a) == Root(parent, b) <==> Merged(links, a, b))
  }

  /** The same keys with the same roots. */
  ghost predicate SameRoots(parent: map<nat, nat>, other: map<nat, nat>) {
    && Forest(parent) && Forest(other) && other.Keys == parent.Keys
    && forall k :: k in parent ==> Root(other, k) == Root(parent, k)
  }

  lemma SameRootsTransitive(a: map<nat, nat>, b: map<nat, nat>, c: map<nat, nat>)
    requires SameRoots(a, b) && SameRoots(b, c)
    ensures SameRoots(a, c)
  {
    hide Root, Forest;
  }

  lemma SameRootsRepresent(parent: map<nat, nat>, other: map<nat, nat>, links: seq<(nat, nat)>)
    requires Represents(parent, links) && SameRoots(parent, other)
    ensures Represents(other, links)
  {
    hide Root, Forest, Merged;
    forall a, b | a in other && b in other
      ensures Root(other, a) == Root(other, b) <==> Merged(links, a, b)
    {
      assert Root(other, a) == Root(parent, a) && Root(other, b) == Root(parent, b);
    }
  }

  lemma HalvingIsSameRoots(parent: map<nat, nat>, key: nat)
    requires Forest(parent) && AtOrBelow(parent, key)
    ensures SameRoots(parent, Halved(parent, key))
  {
    HalvingKeepsForest(parent, key);
    var halved := Halved(parent, key);
    forall k | k in parent
      ensures Root(halved, k) == Root(parent, k)
    {
      HalvingKeepsRoots(parent, key, k);
    }
  }

  /** The two trees under `first` and `second` are now one, under the smaller root. */
  ghost predicate Linked(parent: map<nat, nat>, merged: map<nat, nat>, first: nat, second: nat) {
    && Forest(parent) && Forest(merged) && merged.Keys == parent.Keys
    && forall k :: k in parent ==> Root(merged, k) == if Root(parent, k) == second then first else Root(parent, k)
  }

  lemma LinkingLinks(parent: map<nat, nat>, first: nat, second: nat)
    requires Forest(parent) && first in parent && second in parent
    requires parent[first] == first && parent[second] == second && first < second
    ensures Linked(parent, parent[second := first], first, second)
  {
    LinkKeepsForest(parent, first, second);
    var merged := parent[second := first];
    forall k | k in parent
      ensures Root(merged, k) == if Root(parent, k) == second then first else Root(parent, k)
    {
      LinkMergesRoots(parent, first, second, k);
    }
  }

  /** Linking two keys' roots does for the map what one more link does for the components. */
  lemma LinkRepresents(parent: map<nat, nat>, merged: map<nat, nat>, links: seq<(nat, nat)>,
                       left: nat, right: nat, first: nat, second: nat)
    requires Represents(parent, links) && left in parent && right in parent && Linked(parent, merged, first, second)
    requires (Root(parent, left) == first && Root(parent, right) == second)
             || (Root(parent, left) == second && Root(parent, right) == first)
    ensures Represents(merged, links + [(left, right)])
  {
    hide Root, Forest, Merged, Represents, Linked;
    RepresentsParts(parent, links);
    LinkedParts(parent, merged, first, second);
    forall a, b | a in merged && b in merged
      ensures Root(merged, a) == Root(merged, b) <==> Merged(links + [(left, right)], a, b)
    {
      MergedUnfolds(links, left, right, a, b);
      SameRootIff(parent, links, a, b);
      SameRootIff(parent, links, a, left);
      SameRootIff(parent, links, a, right);
      SameRootIff(parent, links, left, b);
      SameRootIff(parent, links, right, b);
      LinkedRoot(parent, merged, first, second, a);
      LinkedRoot(parent, merged, first, second, b);
    }
    RepresentsWhen(merged, links + [(left, right)]);
  }

  lemma MergedUnfolds(links: seq<(nat, nat)>, u: nat, v: nat, a: nat, b: nat)
    ensures Merged(links + [(u, v)], a, b) <==>
              || Merged(links, a, b)
              || (Merged(links, a, u) && Merged(links, v, b))
              || (Merged(links, a, v) && Merged(links, u, b))
  {
    assert (links + [(u, v)])[..|links|] == links;
  }

  lemma RepresentsParts(parent: map<nat, nat>, links: seq<(nat, nat)>)
    requires Represents(parent, links)
    ensures Forest(parent)
  {
  }

  lemma LinkedParts(parent: map<nat, nat>, merged: map<nat, nat>, first: nat, second: nat)
    requires Linked(parent, merged, first, second)
    ensures Forest(parent) && Forest(merged) && merged.Keys == parent.Keys
  {
  }

  lemma SameRootIff(parent: map<nat, nat>, links: seq<(nat, nat)>, a: nat, b: nat)
    requires Represents(parent, links) && a in parent && b in parent
    ensures Forest(parent) && (Root(parent, a) == Root(parent, b) <==> Merged(links, a, b))
  {
    hide Root, Merged, Forest;
  }

  lemma LinkedRoot(parent: map<nat, nat>, merged: map<nat, nat>, first: nat, second: nat, k: nat)
    requires Linked(parent, merged, first, second) && k in parent
    ensures Forest(parent) && Forest(merged) && k in merged
    ensures Root(merged, k) == if Root(parent, k) == second then first else Root(parent, k)
  {
    hide Root, Forest;
  }

  lemma RepresentsWhen(parent: map<nat, nat>, links: seq<(nat, nat)>)
    requires Forest(parent)
    requires forall a, b :: a in parent && b in parent ==> (Root(parent, a) == Root(parent, b) <==> Merged(links, a, b))
    ensures Represents(parent, links)
  {
    hide Root, Merged, Forest;
  }

  lemma AlreadyRepresents(parent: map<nat, nat>, links: seq<(nat, nat)>, left: nat, right: nat)
    requires Represents(parent, links) && left in parent && right in parent && Root(parent, left) == Root(parent, right)
    ensures Represents(parent, links + [(left, right)])
  {
    LinkRepresents(parent, parent, links, left, right, Root(parent, left), Root(parent, left));
  }

  class Components {
    var parent: map<nat, nat>

    /** Every key on its own. */
    constructor (keys: set<nat>)
      ensures parent.Keys == keys && Represents(parent, [])
    {
      parent := map k | k in keys :: k;
      new;
      assert forall k :: k in parent ==> AtOrBelow(parent, k);
    }

    /** The root of a key, halving the path on the way. */
    method Find(start: nat) returns (root: nat)
      requires Forest(parent) && start in parent
      modifies this
      ensures SameRoots(old(parent), parent)
      ensures root == Root(old(parent), start) == Root(parent, start) && root in parent && parent[root] == root
    {
      var key := start;
      assert SameRoots(old(parent), parent);
      RootIsRoot(parent, start);
      while parent[key] != key
        invariant SameRoots(old(parent), parent) && key in parent
        invariant Root(parent, key) == Root(old(parent), start)
        decreases key
      {
        hide SameRoots, Root;
        FindStep(old(parent), parent, key);
        parent := Halved(parent, key);
        key := parent[key];
      }
      root := key;
    }

    method Union(left: nat, right: nat, ghost links: seq<(nat, nat)>)
      requires Represents(parent, links) && left in parent && right in parent
      modifies this
      ensures parent.Keys == old(parent).Keys && Represents(parent, links + [(left, right)])
    {
      hide Merged, Root;
      assert Forest(parent);
      var leftRoot := Find(left);
      SameRootsRepresent(old(parent), parent, links);
      ghost var between := parent;
      var rightRoot := Find(right);
      SameRootsRepresent(between, parent, links);
      assert Root(parent, left) == leftRoot && Root(parent, right) == rightRoot;
      assert parent[leftRoot] == leftRoot by { RootIsRoot(parent, left); }
      hide Represents, SameRoots;
      if leftRoot != rightRoot {
        var first, second := leftRoot, rightRoot;
        if rightRoot < leftRoot {
          first, second := rightRoot, leftRoot;
        }
        LinkingLinks(parent, first, second);
        LinkRepresents(parent, parent[second := first], links, left, right, first, second);
        parent := parent[second := first];
      } else {
        AlreadyRepresents(parent, links, left, right);
      }
    }
  }

  lemma RootIsRoot(parent: map<nat, nat>, k: nat)
    requires Forest(parent) && k in parent
    ensures Root(parent, k) in parent && parent[Root(parent, k)] == Root(parent, k)
    ensures parent[k] == k ==> Root(parent, k) == k
  {
  }

  lemma FindStep(before: map<nat, nat>, parent: map<nat, nat>, key: nat)
    requires SameRoots(before, parent) && key in parent && parent[key] != key
    ensures AtOrBelow(parent, key) && AtOrBelow(parent, parent[key]) && parent[parent[key]] < key
    ensures var halved := Halved(parent, key);
            && SameRoots(before, halved) && Forest(halved) && halved[key] in halved
            && Root(halved, halved[key]) == Root(parent, key)
  {
    assert AtOrBelow(parent, key) && AtOrBelow(parent, parent[key]);
    HalvingIsSameRoots(parent, key);
    assert AtOrBelow(Halved(parent, key), key);
    SameRootsTransitive(before, parent, Halved(parent, key));
  }
}
