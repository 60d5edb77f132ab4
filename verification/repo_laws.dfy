/** What the repository normalizer writes of each snapshot, said on the evidence itself. */
module RepoLaws {
  import opened Records
  import opened Repo

  // ---- What one event states -------------------------------------------------

  /** The same parents, in rising order. */
  ghost predicate SameParents(written: seq<nat>, given: seq<nat>) {
    && (forall j, k :: 0 <= j < k < |written| ==> written[j] < written[k])
    && (forall p :: p in written <==> p in given)
  }

  /** All counts as given, and a target for each blob, in order, that names the commit. */
  ghost predicate StructureStated(written: Option<Observed>, given: Option<Structure>, commit: nat) {
    && (written.None? <==> given.None?)
    && (given.Some? ==>
          && written.value.changes == given.value.changes && written.value.classes == given.value.classes
          && |written.value.targets| == |given.value.blobs|
          && forall k :: 0 <= k < |given.value.blobs| ==>
               written.value.targets[k].blob == given.value.blobs[k] && written.value.targets[k].subject == commit)
  }

  ghost predicate CommitStated(b: Body, c: CommitEvidence) {
    && b.CommitBody? && b.id == c.id && b.provenance == c.provenance
    && SameParents(b.parents, c.parents) && StructureStated(b.structure, c.structure, c.id)
  }

  ghost predicate TipStated(b: Body, r: RefEvidence) {
    b.TipBody? && b.target == r.commit && b.provenance == r.provenance
  }

  ghost predicate ReflogStated(b: Body, r: RefEvidence) {
    b.ReflogBody? && b.target == r.commit && b.provenance == r.provenance
  }

  ghost predicate WorktreeStated(b: Body, w: WorktreeEvidence) {
    b.WorktreeBody? && b.worktree == w.id && b.target == w.commit && b.provenance == w.provenance
  }

  /** The event states some piece of the snapshot's evidence. */
  ghost predicate Stated(b: Body, s: Snapshot) {
    || (exists c :: c in s.commits && CommitStated(b, c))
    || (exists r :: r in s.tips && TipStated(b, r))
    || (exists r :: r in s.reflog && ReflogStated(b, r))
    || (exists w :: w in s.worktrees && WorktreeStated(b, w))
  }

  /** Each piece of the snapshot's evidence is stated by some event of its repository. */
  ghost predicate AllStated(events: seq<RepoEvent>, s: Snapshot) {
    && (forall c :: c in s.commits ==> exists e :: e in events && e.repo == s.repo && CommitStated(e.body, c))
    && (forall r :: r in s.tips ==> exists e :: e in events && e.repo == s.repo && TipStated(e.body, r))
    && (forall r :: r in s.reflog ==> exists e :: e in events && e.repo == s.repo && ReflogStated(e.body, r))
    && (forall w :: w in s.worktrees ==> exists e :: e in events && e.repo == s.repo && WorktreeStated(e.body, w))
  }

  lemma CommitIsStated(c: CommitEvidence)
    requires DistinctBy(c.parents, Self)
    ensures CommitStated(CommitBody(c.id, c.provenance, SortBy(c.parents, Self), Pointed(c.id, c.structure)), c)
  {
    SortHolds(c.parents, Self);
    var sorted := SortBy(c.parents, Self);
    forall j, k | 0 <= j < k < |sorted|
      ensures sorted[j] < sorted[k]
    {
      assert Self(sorted[j]) < Self(sorted[k]);
    }
    hide SortBy;
  }

  lemma StandsIsStated(s: Snapshot, b: Body)
    requires SnapshotFine(s) && Stands(s, b)
    ensures Stated(b, s)
  {
    match b
    case CommitBody(id, provenance, parents, structure) =>
      var c :| c in s.commits && c.id == id && c.provenance == provenance && parents == SortBy(c.parents, Self)
        && structure == Pointed(c.id, c.structure);
      hide Pointed, SortBy;
      CommitIsStated(c);
    case TipBody(target, provenance) =>
      assert TipStated(b, RefEvidence(target, provenance));
    case ReflogBody(target, provenance) =>
      assert ReflogStated(b, RefEvidence(target, provenance));
    case WorktreeBody(worktree, target, provenance) =>
      assert WorktreeStated(b, WorktreeEvidence(worktree, target, provenance));
  }

  /** A body of the snapshot stands in its events. */
  lemma EventFor(s: Snapshot, b: Body) returns (e: RepoEvent)
    requires SnapshotFine(s) && Stands(s, b)
    ensures e in Numbered(s.repo, Bodies(s)) && e.repo == s.repo && e.body == b
  {
    BodiesStand(s, b);
    hide Bodies, Stands;
    var bodies := Bodies(s);
    var k :| 0 <= k < |bodies| && bodies[k] == b;
    e := Numbered(s.repo, bodies)[k];
  }

  lemma SnapshotAllStated(s: Snapshot)
    requires SnapshotFine(s)
    ensures AllStated(Numbered(s.repo, Bodies(s)), s)
  {
    hide Bodies, Numbered, CommitStated, SortBy, Pointed;
    forall c | c in s.commits
      ensures exists e :: e in Numbered(s.repo, Bodies(s)) && e.repo == s.repo && CommitStated(e.body, c)
    {
      CommitIsStated(c);
      var e := EventFor(s, CommitBody(c.id, c.provenance, SortBy(c.parents, Self), Pointed(c.id, c.structure)));
    }
    forall r | r in s.tips
      ensures exists e :: e in Numbered(s.repo, Bodies(s)) && e.repo == s.repo && TipStated(e.body, r)
    {
      var e := EventFor(s, TipBody(r.commit, r.provenance));
    }
    forall r | r in s.reflog
      ensures exists e :: e in Numbered(s.repo, Bodies(s)) && e.repo == s.repo && ReflogStated(e.body, r)
    {
      var e := EventFor(s, ReflogBody(r.commit, r.provenance));
    }
    forall w | w in s.worktrees
      ensures exists e :: e in Numbered(s.repo, Bodies(s)) && e.repo == s.repo && WorktreeStated(e.body, w)
    {
      var e := EventFor(s, WorktreeBody(w.id, w.commit, w.provenance));
    }
  }

  lemma MoreStated(events: seq<RepoEvent>, more: seq<RepoEvent>, s: Snapshot)
    requires AllStated(events, s) && forall e :: e in events ==> e in more
    ensures AllStated(more, s)
  {
    hide CommitStated, TipStated, ReflogStated, WorktreeStated;
  }

  /** The artifact states the evidence of all snapshots, and nothing else. */
  lemma {:induction false} ArtifactStates(snapshots: seq<Snapshot>)
    requires forall s :: s in snapshots ==> SnapshotFine(s)
    ensures forall s :: s in snapshots ==> AllStated(EventsAll(snapshots), s)
    ensures forall e :: e in EventsAll(snapshots) ==>
              exists s :: s in snapshots && s.repo == e.repo && Stated(e.body, s)
  {
    hide Bodies, SnapshotFine, AllStated, Stated, Stands;
    if snapshots != [] {
      var n := |snapshots| - 1;
      var init, last := snapshots[..n], snapshots[n];
      var before, more := EventsAll(init), Numbered(last.repo, Bodies(last));
      assert snapshots == init + [last];
      ArtifactStates(init);
      SnapshotAllStated(last);
      forall s | s in snapshots
        ensures AllStated(EventsAll(snapshots), s)
      {
        if s in init {
          MoreStated(before, before + more, s);
        } else {
          MoreStated(more, before + more, s);
        }
      }
      forall e | e in EventsAll(snapshots)
        ensures exists s :: s in snapshots && s.repo == e.repo && Stated(e.body, s)
      {
        if e in before {
          var s :| s in init && s.repo == e.repo && Stated(e.body, s);
          assert s in snapshots;
        } else {
          var k :| 0 <= k < |more| && more[k] == e;
          assert e.body in Bodies(last);
          BodiesStand(last, e.body);
          StandsIsStated(last, e.body);
        }
      }
    }
  }

  // ---- In which order --------------------------------------------------------

  /** Commits, then branch tips, reflog entries and worktrees. */
  function Rank(b: Body): nat {
    match b
    case CommitBody(_, _, _, _) => 0
    case TipBody(_, _) => 1
    case ReflogBody(_, _) => 2
    case WorktreeBody(_, _, _) => 3
  }

  function NameOf(b: Body): nat {
    match b
    case CommitBody(id, _, _, _) => id
    case TipBody(target, _) => target
    case ReflogBody(target, _) => target
    case WorktreeBody(worktree, _, _) => worktree
  }

  predicate BodyBefore(a: Body, b: Body) {
    Rank(a) < Rank(b) || (Rank(a) == Rank(b) && NameOf(a) < NameOf(b))
  }

  ghost predicate BodiesRise(bodies: seq<Body>) {
    forall j, k :: 0 <= j < k < |bodies| ==> BodyBefore(bodies[j], bodies[k])
  }

  lemma RiseThen(a: seq<Body>, b: seq<Body>)
    requires BodiesRise(a) && BodiesRise(b) && forall x, y :: x in a && y in b ==> Rank(x) < Rank(y)
    ensures BodiesRise(a + b)
  {
    forall j, k | 0 <= j < k < |a + b|
      ensures BodyBefore((a + b)[j], (a + b)[k])
    {
      if j < |a| <= k {
        assert a[j] in a && b[k - |a|] in b;
      }
    }
  }

  ghost predicate AllRank(bodies: seq<Body>, rank: nat) {
    forall b :: b in bodies ==> Rank(b) == rank
  }

  lemma PartsRise(s: Snapshot)
    requires SnapshotFine(s)
    ensures var commits := CommitBodies(SortBy(s.commits, CommitKey)); BodiesRise(commits) && AllRank(commits, 0)
    ensures var tips := TipBodies(SortBy(s.tips, RefKey)); BodiesRise(tips) && AllRank(tips, 1)
    ensures var reflog := ReflogBodies(SortBy(s.reflog, RefKey)); BodiesRise(reflog) && AllRank(reflog, 2)
    ensures var worktrees := WorktreeBodies(SortBy(s.worktrees, WorktreeKey));
            BodiesRise(worktrees) && AllRank(worktrees, 3)
  {
    SortHolds(s.commits, CommitKey);
    SortHolds(s.tips, RefKey);
    SortHolds(s.reflog, RefKey);
    SortHolds(s.worktrees, WorktreeKey);
    hide SortBy, StructureFine, Pointed;
  }

  lemma BodiesInOrder(s: Snapshot)
    requires SnapshotFine(s)
    ensures BodiesRise(Bodies(s))
  {
    PartsRise(s);
    hide SnapshotFine, SortBy, CommitBodies, TipBodies, ReflogBodies, WorktreeBodies, BodiesRise;
    var commits, tips := CommitBodies(SortBy(s.commits, CommitKey)), TipBodies(SortBy(s.tips, RefKey));
    var reflog := ReflogBodies(SortBy(s.reflog, RefKey));
    RiseThen(commits, tips);
    RiseThen(commits + tips, reflog);
    RiseThen(commits + tips + reflog, WorktreeBodies(SortBy(s.worktrees, WorktreeKey)));
  }

  lemma {:induction false} EventPlace(snapshots: seq<Snapshot>, e: RepoEvent)
    requires e in EventsAll(snapshots)
    ensures exists s :: s in snapshots && s.repo == e.repo && e.record < |Bodies(s)| && Bodies(s)[e.record] == e.body
  {
    hide Bodies;
    var n := |snapshots| - 1;
    if e in EventsAll(snapshots[..n]) {
      EventPlace(snapshots[..n], e);
      var s :| s in snapshots[..n] && s.repo == e.repo && e.record < |Bodies(s)| && Bodies(s)[e.record] == e.body;
      assert s in snapshots;
    } else {
      assert snapshots[n] in snapshots;
    }
  }

  /** The events of each repository are numbered in order of kind and, within a kind, of name. */
  lemma ArtifactInOrder(snapshots: seq<Snapshot>)
    requires Prepared(snapshots)
    ensures forall e, f ::
              (e in EventsAll(snapshots) && f in EventsAll(snapshots) && e.repo == f.repo && e.record < f.record) ==>
                BodyBefore(e.body, f.body)
  {
    hide Bodies, SnapshotFine, EventsAll, BodyBefore;
    forall e, f | e in EventsAll(snapshots) && f in EventsAll(snapshots) && e.repo == f.repo && e.record < f.record
      ensures BodyBefore(e.body, f.body)
    {
      EventPlace(snapshots, e);
      EventPlace(snapshots, f);
      var s :| s in snapshots && s.repo == e.repo && e.record < |Bodies(s)| && Bodies(s)[e.record] == e.body;
      var u :| u in snapshots && u.repo == f.repo && f.record < |Bodies(u)| && Bodies(u)[f.record] == f.body;
      var i, j :| 0 <= i < |snapshots| && snapshots[i] == s && 0 <= j < |snapshots| && snapshots[j] == u;
      assert i == j;
      BodiesInOrder(s);
    }
  }

  // ---- How many of each ------------------------------------------------------

  function Added(commits: seq<CommitEvidence>, weight: CommitEvidence -> nat): nat {
    if commits == [] then 0 else Added(commits[..|commits| - 1], weight) + weight(commits[|commits| - 1])
  }

  lemma {:induction false} AddedFirst(c: CommitEvidence, rest: seq<CommitEvidence>, weight: CommitEvidence -> nat)
    ensures Added([c] + rest, weight) == weight(c) + Added(rest, weight)
  {
    if rest == [] {
      assert [c] + rest == [c] && [c][..0] == [];
    } else {
      assert ([c] + rest)[..|rest|] == [c] + rest[..|rest| - 1];
      AddedFirst(c, rest[..|rest| - 1], weight);
    }
  }

  lemma {:induction false} AddedPlaced(c: CommitEvidence, sorted: seq<CommitEvidence>, weight: CommitEvidence -> nat)
    ensures Added(PlaceBy(c, sorted, CommitKey), weight) == Added(sorted, weight) + weight(c)
  {
    if sorted == [] || CommitKey(c) < CommitKey(sorted[0]) {
      AddedFirst(c, sorted, weight);
    } else {
      AddedPlaced(c, sorted[1..], weight);
      AddedFirst(sorted[0], sorted[1..], weight);
      AddedFirst(sorted[0], PlaceBy(c, sorted[1..], CommitKey), weight);
      assert sorted == [sorted[0]] + sorted[1..];
    }
  }

  /** Sorting moves commits and loses none. */
  lemma {:induction false} AddedSorted(commits: seq<CommitEvidence>, weight: CommitEvidence -> nat)
    ensures Added(SortBy(commits, CommitKey), weight) == Added(commits, weight)
  {
    if commits != [] {
      var n := |commits| - 1;
      AddedSorted(commits[..n], weight);
      AddedPlaced(commits[n], SortBy(commits[..n], CommitKey), weight);
    }
  }

  function AsImported(): CommitEvidence -> nat {
    (c: CommitEvidence) => if c.provenance == Imported then 1 else 0
  }

  function AsLive(): CommitEvidence -> nat {
    (c: CommitEvidence) => if c.provenance == Imported then 0 else 1
  }

  function BlobsOfCommit(): CommitEvidence -> nat {
    (c: CommitEvidence) => if c.structure.Some? then |c.structure.value.blobs| else 0
  }

  function Unobserved(): CommitEvidence -> nat {
    (c: CommitEvidence) => if c.structure.None? then 1 else 0
  }

  lemma {:induction false} CountsAreAdded(commits: seq<CommitEvidence>)
    ensures ImportedIn(commits) == Added(commits, AsImported())
    ensures |commits| - ImportedIn(commits) == Added(commits, AsLive())
    ensures BlobsIn(commits) == Added(commits, BlobsOfCommit())
    ensures UnknownIn(commits) == Added(commits, Unobserved())
  {
    if commits != [] {
      CountsAreAdded(commits[..|commits| - 1]);
    }
  }

  /** One snapshot counts its commits, by provenance, their blobs and those without a structure, and its
      references and worktrees, each once. */
  predicate CountsOne(before: RepoCoverage, s: Snapshot, after: RepoCoverage) {
    && after.repositories == before.repositories && after.commits == before.commits + |s.commits|
    && after.imported == before.imported + Added(s.commits, AsImported())
    && after.live == before.live + Added(s.commits, AsLive())
    && after.tips == before.tips + |s.tips| && after.reflog == before.reflog + |s.reflog|
    && after.worktrees == before.worktrees + |s.worktrees|
    && after.blobs == before.blobs + Added(s.commits, BlobsOfCommit())
    && after.unknown == before.unknown + Added(s.commits, Unobserved())
  }

  lemma CoverageCounts(c: RepoCoverage, s: Snapshot)
    requires SnapshotFine(s)
    ensures CountsOne(c, s, Covered(c, s))
  {
    SortHolds(s.commits, CommitKey);
    SortHolds(s.tips, RefKey);
    SortHolds(s.reflog, RefKey);
    SortHolds(s.worktrees, WorktreeKey);
    CountsAreAdded(SortBy(s.commits, CommitKey));
    AddedSorted(s.commits, AsImported());
    AddedSorted(s.commits, AsLive());
    AddedSorted(s.commits, BlobsOfCommit());
    AddedSorted(s.commits, Unobserved());
    hide SnapshotFine, SortBy, Added, ImportedIn, BlobsIn, UnknownIn;
  }

  /** The coverage of an artifact adds up over its snapshots, from nothing. */
  lemma CoverageAddsUp(snapshots: seq<Snapshot>, total: nat)
    requires forall s :: s in snapshots ==> SnapshotFine(s)
    ensures CoveredAll([], total) == RepoCoverage(total, 0, 0, 0, 0, 0, 0, 0, 0)
    ensures forall k :: 0 <= k < |snapshots| ==>
              CountsOne(CoveredAll(snapshots[..k], total), snapshots[k], CoveredAll(snapshots[..k + 1], total))
  {
    forall k | 0 <= k < |snapshots|
      ensures CountsOne(CoveredAll(snapshots[..k], total), snapshots[k], CoveredAll(snapshots[..k + 1], total))
    {
      assert snapshots[k] in snapshots && snapshots[..k + 1][..k] == snapshots[..k];
      CoverageCounts(CoveredAll(snapshots[..k], total), snapshots[k]);
      hide SnapshotFine, Covered, CountsOne;
    }
  }

  // ---- What is asked of an observed structure --------------------------------

  function AddedUp(counts: seq<nat>): nat {
    if counts == [] then 0 else counts[0] + AddedUp(counts[1..])
  }

  lemma {:induction false} AddedSnoc(counts: seq<nat>, last: nat)
    ensures AddedUp(counts + [last]) == AddedUp(counts) + last
  {
    if counts == [] {
      assert counts + [last] == [last] && [last][1..] == [];
    } else {
      assert (counts + [last])[1..] == counts[1..] + [last];
      AddedSnoc(counts[1..], last);
    }
  }

  lemma {:induction false} SumIsAddedUp(counts: seq<nat>)
    ensures Sum(counts) == AddedUp(counts)
  {
    if counts != [] {
      var n := |counts| - 1;
      SumIsAddedUp(counts[..n]);
      AddedSnoc(counts[..n], counts[n]);
      assert counts == counts[..n] + [counts[n]];
    }
  }

  /** The places of the blobs of one class. */
  function PlacesIn(blobs: seq<Blob>, class_: nat): set<nat> {
    set k: nat | k < |blobs| && blobs[k].class_ == class_
  }

  lemma {:induction false} InClassCounts(blobs: seq<Blob>, class_: nat)
    ensures InClass(blobs, class_) == |PlacesIn(blobs, class_)|
  {
    if blobs == [] {
      assert PlacesIn(blobs, class_) == {};
    } else {
      var n := |blobs| - 1;
      InClassCounts(blobs[..n], class_);
      var before := PlacesIn(blobs[..n], class_);
      if blobs[n].class_ == class_ {
        assert PlacesIn(blobs, class_) == before + {n};
      } else {
        assert PlacesIn(blobs, class_) == before;
      }
    }
  }

  /** Five change counts and eight class counts with one total, blobs in strictly rising order of class and
      object, and no class with more blobs than its count. */
  lemma StructureFineIff(s: Structure)
    ensures StructureFine(s) <==>
            && |s.changes| == 5 && |s.classes| == 8 && AddedUp(s.changes) == AddedUp(s.classes)
            && (forall k :: 0 <= k < |s.blobs| ==> s.blobs[k].class_ < 8)
            && (forall j, k :: 0 <= j < k < |s.blobs| ==>
                  || s.blobs[j].class_ < s.blobs[k].class_
                  || (s.blobs[j].class_ == s.blobs[k].class_ && s.blobs[j].object_ < s.blobs[k].object_))
            && (forall c: nat :: c < |s.classes| ==> |PlacesIn(s.blobs, c)| <= s.classes[c])
  {
    SumIsAddedUp(s.changes);
    SumIsAddedUp(s.classes);
    forall c: nat
      ensures InClass(s.blobs, c) == |PlacesIn(s.blobs, c)|
    {
      InClassCounts(s.blobs, c);
    }
    hide Sum, AddedUp, InClass, PlacesIn;
  }
}
