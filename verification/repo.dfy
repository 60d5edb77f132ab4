/** The repository evidence producer and its own validator, the third pair.

Object and repository ids are numbers in the order of their hexadecimal strings, and file classes
numbers in the order of their names.
*/
module Repo {
  import opened Records

  const CHANGE_KINDS: nat := 5
  const FILE_CLASSES: nat := 8

  datatype Blob = Blob(class_: nat, object_: nat)

  /** Counts by change kind and by file class, and the classified blobs. */
  datatype Structure = Structure(changes: seq<nat>, classes: seq<nat>, blobs: seq<Blob>)

  datatype CommitEvidence = CommitEvidence(id: nat, provenance: Provenance, parents: seq<nat>,
                                           structure: Option<Structure>)

  datatype RefEvidence = RefEvidence(commit: nat, provenance: Provenance)

  datatype WorktreeEvidence = WorktreeEvidence(id: nat, commit: nat, provenance: Provenance)

  datatype Snapshot = Snapshot(repo: nat, commits: seq<CommitEvidence>, tips: seq<RefEvidence>,
                               reflog: seq<RefEvidence>, worktrees: seq<WorktreeEvidence>)

  /** A pointer to a classified blob, with the commit it was written for. */
  datatype Target = Target(blob: Blob, subject: nat)

  datatype Observed = Observed(changes: seq<nat>, classes: seq<nat>, targets: seq<Target>)

  datatype Body =
    | CommitBody(id: nat, provenance: Provenance, parents: seq<nat>, structure: Option<Observed>)
    | TipBody(target: nat, provenance: Provenance)
    | ReflogBody(target: nat, provenance: Provenance)
    | WorktreeBody(worktree: nat, target: nat, provenance: Provenance)

  datatype RepoEvent = RepoEvent(repo: nat, record: nat, body: Body)

  datatype Repository = Repository(repo: nat, commits: nat, events: nat)

  datatype RepoCoverage = RepoCoverage(repositories: nat, commits: nat, imported: nat, live: nat, tips: nat,
                                       reflog: nat,
                                       worktrees: nat, blobs: nat, unknown: nat)

  datatype RepoArtifact = RepoArtifact(repositories: seq<Repository>, coverage: RepoCoverage, events: seq<RepoEvent>)

  // ---- Sorting by a key ------------------------------------------------------

  function PlaceBy<T>(x: T, sorted: seq<T>, key: T -> nat): seq<T> {
    if sorted == [] || key(x) < key(sorted[0]) then [x] + sorted else [sorted[0]] + PlaceBy(x, sorted[1..], key)
  }

  function SortBy<T>(xs: seq<T>, key: T -> nat): seq<T> {
    if xs == [] then [] else PlaceBy(xs[|xs| - 1], SortBy(xs[..|xs| - 1], key), key)
  }

  predicate DistinctBy<T>(xs: seq<T>, key: T -> nat) {
    forall i, j :: 0 <= i < j < |xs| ==> key(xs[i]) != key(xs[j])
  }

  predicate RisingBy<T>(xs: seq<T>, key: T -> nat) {
    forall i, j :: 0 <= i < j < |xs| ==> key(xs[i]) < key(xs[j])
  }

  lemma {:induction false} PlaceHolds<T(!new)>(x: T, sorted: seq<T>, key: T -> nat)
    requires RisingBy(sorted, key) && forall y :: y in sorted ==> key(y) != key(x)
    ensures RisingBy(PlaceBy(x, sorted, key), key)
    ensures forall y :: y in PlaceBy(x, sorted, key) <==> y in sorted || y == x
    ensures |PlaceBy(x, sorted, key)| == |sorted| + 1
  {
    if sorted != [] && key(x) >= key(sorted[0]) {
      assert sorted == [sorted[0]] + sorted[1..];
      PlaceHolds(x, sorted[1..], key);
      var rest := PlaceBy(x, sorted[1..], key);
      assert forall k :: 0 <= k < |rest| ==> rest[k] in rest;
    }
  }

  lemma {:induction false} SortHolds<T(!new)>(xs: seq<T>, key: T -> nat)
    requires DistinctBy(xs, key)
    ensures RisingBy(SortBy(xs, key), key)
    ensures forall y :: y in SortBy(xs, key) <==> y in xs
    ensures |SortBy(xs, key)| == |xs|
  {
    if xs != [] {
      var n := |xs| - 1;
      SortHolds(xs[..n], key);
      assert xs == xs[..n] + [xs[n]];
      PlaceHolds(xs[n], SortBy(xs[..n], key), key);
    }
  }

  function CommitKey(c: CommitEvidence): nat { c.id }

  function RefKey(r: RefEvidence): nat { r.commit }

  function WorktreeKey(w: WorktreeEvidence): nat { w.id }

  function SnapshotKey(s: Snapshot): nat { s.repo }

  function Self(n: nat): nat { n }

  // ---- What a snapshot must satisfy ------------------------------------------

  function Sum(counts: seq<nat>): nat {
    if counts == [] then 0 else Sum(counts[..|counts| - 1]) + counts[|counts| - 1]
  }

  predicate Before(a: Blob, b: Blob) {
    a.class_ < b.class_ || (a.class_ == b.class_ && a.object_ < b.object_)
  }

  function InClass(blobs: seq<Blob>, class_: nat): nat {
    if blobs == [] then 0
    else InClass(blobs[..|blobs| - 1], class_) + (if blobs[|blobs| - 1].class_ == class_ then 1 else 0)
  }

  /** What both sides ask of the counts and blobs of an observed structure. */
  predicate StructureFine(s: Structure) {
    && |s.changes| == CHANGE_KINDS && |s.classes| == FILE_CLASSES && Sum(s.changes) == Sum(s.classes)
    && (forall b :: b in s.blobs ==> b.class_ < FILE_CLASSES)
    && (forall i, j :: 0 <= i < j < |s.blobs| ==> Before(s.blobs[i], s.blobs[j]))
    && (forall c :: 0 <= c < |s.classes| ==> InClass(s.blobs, c) <= s.classes[c])
  }

  predicate HasCommit(commits: seq<CommitEvidence>, id: nat) {
    exists k :: 0 <= k < |commits| && commits[k].id == id
  }

  /** `_checked_snapshot`. */
  ghost predicate SnapshotFine(s: Snapshot) {
    && DistinctBy(s.commits, CommitKey)
    && (forall c :: c in s.commits ==>
          && (c.structure.Some? ==> StructureFine(c.structure.value))
          && DistinctBy(c.parents, Self)
          && forall p :: p in c.parents ==> HasCommit(s.commits, p))
    && DistinctBy(s.tips, RefKey) && (forall r :: r in s.tips ==> HasCommit(s.commits, r.commit))
    && DistinctBy(s.reflog, RefKey) && (forall r :: r in s.reflog ==> HasCommit(s.commits, r.commit))
    && DistinctBy(s.worktrees, WorktreeKey) && (forall w :: w in s.worktrees ==> HasCommit(s.commits, w.commit))
  }

  /** What it does not ask: that a reference carries the provenance of its commit. */
  ghost predicate ProvenanceAgrees(s: Snapshot) {
    forall c :: c in s.commits ==>
      && (forall r :: r in s.tips && r.commit == c.id ==> r.provenance == c.provenance)
      && (forall r :: r in s.reflog && r.commit == c.id ==> r.provenance == c.provenance)
      && (forall w :: w in s.worktrees && w.commit == c.id ==> w.provenance == c.provenance)
  }

  // ---- The producer ----------------------------------------------------------

  /** The producer points each blob at the commit that carries it. */
  function Targets(commit: nat, blobs: seq<Blob>): (r: seq<Target>)
    ensures |r| == |blobs| && forall k :: 0 <= k < |r| ==> r[k] == Target(blobs[k], commit)
  {
    seq(|blobs|, k requires 0 <= k < |blobs| => Target(blobs[k], commit))
  }

  function Pointed(commit: nat, structure: Option<Structure>): (r: Option<Observed>)
    ensures r.Some? <==> structure.Some?
    ensures r.Some? ==> |r.value.targets| == |structure.value.blobs|
  {
    match structure
    case None => None
    case Some(s) => Some(Observed(s.changes, s.classes, Targets(commit, s.blobs)))
  }

  function CommitBodies(commits: seq<CommitEvidence>): (r: seq<Body>)
    ensures |r| == |commits| && forall k :: 0 <= k < |r| ==>
              r[k] == CommitBody(commits[k].id, commits[k].provenance, SortBy(commits[k].parents, Self),
                                 Pointed(commits[k].id, commits[k].structure))
  {
    seq(|commits|, k requires 0 <= k < |commits| =>
      CommitBody(commits[k].id, commits[k].provenance, SortBy(commits[k].parents, Self),
                 Pointed(commits[k].id, commits[k].structure)))
  }

  function TipBodies(refs: seq<RefEvidence>): (r: seq<Body>)
    ensures |r| == |refs| && forall k :: 0 <= k < |r| ==> r[k] == TipBody(refs[k].commit, refs[k].provenance)
  {
    seq(|refs|, k requires 0 <= k < |refs| => TipBody(refs[k].commit, refs[k].provenance))
  }

  function ReflogBodies(refs: seq<RefEvidence>): (r: seq<Body>)
    ensures |r| == |refs| && forall k :: 0 <= k < |r| ==> r[k] == ReflogBody(refs[k].commit, refs[k].provenance)
  {
    seq(|refs|, k requires 0 <= k < |refs| => ReflogBody(refs[k].commit, refs[k].provenance))
  }

  function WorktreeBodies(worktrees: seq<WorktreeEvidence>): (r: seq<Body>)
    ensures |r| == |worktrees| && forall k :: 0 <= k < |r| ==>
              r[k] == WorktreeBody(worktrees[k].id, worktrees[k].commit, worktrees[k].provenance)
  {
    seq(|worktrees|, k requires 0 <= k < |worktrees| =>
        WorktreeBody(worktrees[k].id, worktrees[k].commit, worktrees[k].provenance))
  }

  /** One repository's evidence in artifact order. */
  function Bodies(s: Snapshot): seq<Body> {
    CommitBodies(SortBy(s.commits, CommitKey)) + TipBodies(SortBy(s.tips, RefKey))
    + ReflogBodies(SortBy(s.reflog, RefKey)) + WorktreeBodies(SortBy(s.worktrees, WorktreeKey))
  }

  function Numbered(repo: nat, bodies: seq<Body>): (r: seq<RepoEvent>)
    ensures |r| == |bodies| && forall k :: 0 <= k < |r| ==> r[k] == RepoEvent(repo, k, bodies[k])
  {
    seq(|bodies|, k requires 0 <= k < |bodies| => RepoEvent(repo, k, bodies[k]))
  }

  function ImportedIn(commits: seq<CommitEvidence>): (n: nat)
    ensures n <= |commits|
  {
    if commits == [] then 0
    else ImportedIn(commits[..|commits| - 1]) + (if commits[|commits| - 1].provenance == Imported then 1 else 0)
  }

  function BlobsIn(commits: seq<CommitEvidence>): nat {
    if commits == [] then 0
    else
      var last := commits[|commits| - 1].structure;
      BlobsIn(commits[..|commits| - 1]) + (if last.Some? then |last.value.blobs| else 0)
  }

  function UnknownIn(commits: seq<CommitEvidence>): nat {
    if commits == [] then 0
    else UnknownIn(commits[..|commits| - 1]) + (if commits[|commits| - 1].structure.None? then 1 else 0)
  }

  function Covered(c: RepoCoverage, s: Snapshot): RepoCoverage {
    var commits := SortBy(s.commits, CommitKey);
    c.(commits := c.commits + |commits|, imported := c.imported + ImportedIn(commits),
       live := c.live + |commits| - ImportedIn(commits), tips := c.tips + |SortBy(s.tips, RefKey)|,
       reflog := c.reflog + |SortBy(s.reflog, RefKey)|, worktrees := c.worktrees + |SortBy(s.worktrees, WorktreeKey)|,
       blobs := c.blobs + BlobsIn(commits), unknown := c.unknown + UnknownIn(commits))
  }

  const NOTHING_COVERED: RepoCoverage := RepoCoverage(0, 0, 0, 0, 0, 0, 0, 0, 0)

  function CoveredAll(snapshots: seq<Snapshot>, total: nat): RepoCoverage {
    if snapshots == [] then NOTHING_COVERED.(repositories := total)
    else Covered(CoveredAll(snapshots[..|snapshots| - 1], total), snapshots[|snapshots| - 1])
  }

  function EventsAll(snapshots: seq<Snapshot>): seq<RepoEvent> {
    if snapshots == [] then []
    else
      var s := snapshots[|snapshots| - 1];
      EventsAll(snapshots[..|snapshots| - 1]) + Numbered(s.repo, Bodies(s))
  }

  function Inventory(snapshots: seq<Snapshot>): (r: seq<Repository>)
    ensures |r| == |snapshots| && forall k :: 0 <= k < |r| ==>
              r[k] == Repository(snapshots[k].repo, |snapshots[k].commits|, |Bodies(snapshots[k])|)
  {
    seq(|snapshots|, k requires 0 <= k < |snapshots| =>
      Repository(snapshots[k].repo, |snapshots[k].commits|, |Bodies(snapshots[k])|))
  }

  /** The artifact of sorted, checked snapshots. */
  function RepoNormalized(snapshots: seq<Snapshot>): RepoArtifact {
    RepoArtifact(Inventory(snapshots), CoveredAll(snapshots, |snapshots|), EventsAll(snapshots))
  }

  /** Checked snapshots in order of their distinct repositories. */
  ghost predicate Prepared(snapshots: seq<Snapshot>) {
    snapshots != [] && RisingBy(snapshots, SnapshotKey) && forall s :: s in snapshots ==> SnapshotFine(s)
  }

  // ---- The validator ---------------------------------------------------------

  function BlobsOf(targets: seq<Target>): (r: seq<Blob>)
    ensures |r| == |targets| && forall k :: 0 <= k < |r| ==> r[k] == targets[k].blob
  {
    seq(|targets|, k requires 0 <= k < |targets| => targets[k].blob)
  }

  /** The written structure: every target names its own commit, and the rest is as asked of the input. */
  predicate ObservedFine(commit: nat, o: Observed) {
    && (forall t :: t in o.targets ==> t.subject == commit)
    && StructureFine(Structure(o.changes, o.classes, BlobsOf(o.targets)))
  }

  lemma PointedFine(commit: nat, structure: Option<Structure>)
    requires structure.Some?
    ensures ObservedFine(commit, Pointed(commit, structure).value) <==> StructureFine(structure.value)
  {
    var s := structure.value;
    assert BlobsOf(Targets(commit, s.blobs)) == s.blobs;
  }

  function CountBody(c: RepoCoverage, b: Body): RepoCoverage {
    match b
    case CommitBody(_, provenance, _, structure) =>
      c.(commits := c.commits + 1,
         imported := c.imported + (if provenance == Imported then 1 else 0),
         live := c.live + (if provenance == Imported then 0 else 1),
         blobs := c.blobs + (if structure.Some? then |structure.value.targets| else 0),
         unknown := c.unknown + (if structure.None? then 1 else 0))
    case TipBody(_, _) => c.(tips := c.tips + 1)
    case ReflogBody(_, _) => c.(reflog := c.reflog + 1)
    case WorktreeBody(_, _, _) => c.(worktrees := c.worktrees + 1)
  }

  function Recount(c: RepoCoverage, events: seq<RepoEvent>): RepoCoverage {
    if events == [] then c else CountBody(Recount(c, events[..|events| - 1]), events[|events| - 1].body)
  }

  /** One repository's events, in artifact order. */
  function Of(events: seq<RepoEvent>, repo: nat): seq<RepoEvent> {
    if events == [] then []
    else Of(events[..|events| - 1], repo) + (if events[|events| - 1].repo == repo then [events[|events| - 1]] else [])
  }

  function CommitsAmong(events: seq<RepoEvent>): nat {
    if events == [] then 0
    else CommitsAmong(events[..|events| - 1]) + (if events[|events| - 1].body.CommitBody? then 1 else 0)
  }

  predicate IsCommit(e: RepoEvent, id: nat) {
    e.body.CommitBody? && e.body.id == id
  }

  /** No two events of a kind name the same thing. */
  predicate Different(a: Body, b: Body) {
    match a
    case CommitBody(id, _, _, _) => b.CommitBody? ==> b.id != id
    case TipBody(target, _) => b.TipBody? ==> b.target != target
    case ReflogBody(target, _) => b.ReflogBody? ==> b.target != target
    case WorktreeBody(worktree, _, _) => b.WorktreeBody? ==> b.worktree != worktree
  }

  /** Parents are admitted commits; a reference is a commit's and carries its provenance. */
  ghost predicate BodyHolds(events: seq<RepoEvent>, b: Body) {
    match b
    case CommitBody(id, _, parents, structure) =>
      && RisingBy(parents, Self) && (forall p :: p in parents ==> exists e :: e in events && IsCommit(e, p))
      && (structure.Some? ==> ObservedFine(id, structure.value))
    case TipBody(target, provenance) => Backed(events, target, provenance)
    case ReflogBody(target, provenance) => Backed(events, target, provenance)
    case WorktreeBody(_, target, provenance) => Backed(events, target, provenance)
  }

  ghost predicate Backed(events: seq<RepoEvent>, target: nat, provenance: Provenance) {
    exists e :: e in events && IsCommit(e, target) && e.body.provenance == provenance
  }

  ghost predicate RepositoryHolds(r: Repository, events: seq<RepoEvent>) {
    && |events| == r.events && (forall k :: 0 <= k < |events| ==> events[k].record == k)
    && CommitsAmong(events) == r.commits
    && (forall i, j :: 0 <= i < j < |events| ==> Different(events[i].body, events[j].body))
    && (forall e :: e in events ==> BodyHolds(events, e.body))
  }

  function EventTotal(repositories: seq<Repository>): nat {
    if repositories == [] then 0
    else EventTotal(repositories[..|repositories| - 1]) + repositories[|repositories| - 1].events
  }

  function RepositoryKey(r: Repository): nat { r.repo }

  ghost predicate EventsInOrder(events: seq<RepoEvent>) {
    forall i, j :: 0 <= i < j < |events| ==> InTurn(events[i], events[j])
  }

  ghost predicate Listed(repositories: seq<Repository>, repo: nat) {
    exists r :: r in repositories && r.repo == repo
  }

  /** `_validate_artifact_semantics` and the order check. */
  ghost predicate RepoAccepts(a: RepoArtifact) {
    && a.repositories != [] && RisingBy(a.repositories, RepositoryKey)
    && EventTotal(a.repositories) == |a.events|
    && (forall e :: e in a.events ==> Listed(a.repositories, e.repo))
    && (forall r :: r in a.repositories ==> RepositoryHolds(r, Of(a.events, r.repo)))
    && a.coverage == Recount(NOTHING_COVERED.(repositories := |a.repositories|), a.events)
    && EventsInOrder(a.events)
  }

  // ---- One repository --------------------------------------------------------

  lemma {:induction false} RecountConcat(c: RepoCoverage, a: seq<RepoEvent>, b: seq<RepoEvent>)
    ensures Recount(c, a + b) == Recount(Recount(c, a), b)
    decreases |b|
  {
    if b == [] {
      assert a + b == a;
    } else {
      assert (a + b)[..|a + b| - 1] == a + b[..|b| - 1];
      RecountConcat(c, a, b[..|b| - 1]);
    }
  }

  function RecountBodies(c: RepoCoverage, bodies: seq<Body>): RepoCoverage {
    if bodies == [] then c else CountBody(RecountBodies(c, bodies[..|bodies| - 1]), bodies[|bodies| - 1])
  }

  lemma {:induction false} RecountNumbered(c: RepoCoverage, repo: nat, bodies: seq<Body>)
    ensures Recount(c, Numbered(repo, bodies)) == RecountBodies(c, bodies)
  {
    if bodies != [] {
      var n := |bodies| - 1;
      RecountNumbered(c, repo, bodies[..n]);
      assert Numbered(repo, bodies)[..n] == Numbered(repo, bodies[..n]);
    }
  }

  lemma {:induction false} RecountBodiesConcat(c: RepoCoverage, a: seq<Body>, b: seq<Body>)
    ensures RecountBodies(c, a + b) == RecountBodies(RecountBodies(c, a), b)
    decreases |b|
  {
    if b == [] {
      assert a + b == a;
    } else {
      assert (a + b)[..|a + b| - 1] == a + b[..|b| - 1];
      RecountBodiesConcat(c, a, b[..|b| - 1]);
    }
  }

  /** Counting the commits' events gives what the producer counted for them. */
  lemma {:induction false} RecountCommits(c: RepoCoverage, commits: seq<CommitEvidence>)
    ensures RecountBodies(c, CommitBodies(commits)) ==
            c.(commits := c.commits + |commits|, imported := c.imported + ImportedIn(commits),
               live := c.live + |commits| - ImportedIn(commits), blobs := c.blobs + BlobsIn(commits),
               unknown := c.unknown + UnknownIn(commits))
  {
    if commits != [] {
      var n := |commits| - 1;
      RecountCommits(c, commits[..n]);
      assert CommitBodies(commits)[..n] == CommitBodies(commits[..n]);
    }
  }

  lemma {:induction false} RecountTips(c: RepoCoverage, refs: seq<RefEvidence>)
    ensures RecountBodies(c, TipBodies(refs)) == c.(tips := c.tips + |refs|)
  {
    if refs != [] {
      RecountTips(c, refs[..|refs| - 1]);
      assert TipBodies(refs)[..|refs| - 1] == TipBodies(refs[..|refs| - 1]);
    }
  }

  lemma {:induction false} RecountReflog(c: RepoCoverage, refs: seq<RefEvidence>)
    ensures RecountBodies(c, ReflogBodies(refs)) == c.(reflog := c.reflog + |refs|)
  {
    if refs != [] {
      RecountReflog(c, refs[..|refs| - 1]);
      assert ReflogBodies(refs)[..|refs| - 1] == ReflogBodies(refs[..|refs| - 1]);
    }
  }

  lemma {:induction false} RecountWorktrees(c: RepoCoverage, worktrees: seq<WorktreeEvidence>)
    ensures RecountBodies(c, WorktreeBodies(worktrees)) == c.(worktrees := c.worktrees + |worktrees|)
  {
    if worktrees != [] {
      RecountWorktrees(c, worktrees[..|worktrees| - 1]);
      assert WorktreeBodies(worktrees)[..|worktrees| - 1] == WorktreeBodies(worktrees[..|worktrees| - 1]);
    }
  }

  /** The evidence behind a body. */
  ghost predicate Stands(s: Snapshot, b: Body) {
    match b
    case CommitBody(id, provenance, parents, structure) =>
      exists c :: c in s.commits && c.id == id && c.provenance == provenance && parents == SortBy(c.parents, Self)
          && structure == Pointed(c.id, c.structure)
    case TipBody(target, provenance) => RefEvidence(target, provenance) in s.tips
    case ReflogBody(target, provenance) => RefEvidence(target, provenance) in s.reflog
    case WorktreeBody(worktree, target, provenance) => WorktreeEvidence(worktree, target, provenance) in s.worktrees
  }

  lemma CommitBodiesStand(s: Snapshot, b: Body)
    requires DistinctBy(s.commits, CommitKey)
    ensures b in CommitBodies(SortBy(s.commits, CommitKey)) <==> b.CommitBody? && Stands(s, b)
  {
    SortHolds(s.commits, CommitKey);
    hide SortBy;
    var sorted := SortBy(s.commits, CommitKey);
    var bodies := CommitBodies(sorted);
    if b in bodies {
      var k :| 0 <= k < |bodies| && bodies[k] == b;
      assert sorted[k] in s.commits;
    }
    if b.CommitBody? && Stands(s, b) {
      var c :| c in s.commits && c.id == b.id && c.provenance == b.provenance && b.parents == SortBy(c.parents, Self)
          && b.structure == Pointed(c.id, c.structure);
      assert c in sorted;
      var k :| 0 <= k < |sorted| && sorted[k] == c;
      assert bodies[k] == b;
    }
  }

  lemma TipBodiesStand(s: Snapshot, b: Body)
    requires DistinctBy(s.tips, RefKey)
    ensures b in TipBodies(SortBy(s.tips, RefKey)) <==> b.TipBody? && Stands(s, b)
  {
    SortHolds(s.tips, RefKey);
    hide SortBy;
    var sorted := SortBy(s.tips, RefKey);
    var bodies := TipBodies(sorted);
    if b in bodies {
      var k :| 0 <= k < |bodies| && bodies[k] == b;
      assert sorted[k] in s.tips;
    }
    if b.TipBody? && Stands(s, b) {
      assert RefEvidence(b.target, b.provenance) in sorted;
      var k :| 0 <= k < |sorted| && sorted[k] == RefEvidence(b.target, b.provenance);
      assert bodies[k] == b;
    }
  }

  lemma ReflogBodiesStand(s: Snapshot, b: Body)
    requires DistinctBy(s.reflog, RefKey)
    ensures b in ReflogBodies(SortBy(s.reflog, RefKey)) <==> b.ReflogBody? && Stands(s, b)
  {
    SortHolds(s.reflog, RefKey);
    hide SortBy;
    var sorted := SortBy(s.reflog, RefKey);
    var bodies := ReflogBodies(sorted);
    if b in bodies {
      var k :| 0 <= k < |bodies| && bodies[k] == b;
      assert sorted[k] in s.reflog;
    }
    if b.ReflogBody? && Stands(s, b) {
      assert RefEvidence(b.target, b.provenance) in sorted;
      var k :| 0 <= k < |sorted| && sorted[k] == RefEvidence(b.target, b.provenance);
      assert bodies[k] == b;
    }
  }

  lemma WorktreeBodiesStand(s: Snapshot, b: Body)
    requires DistinctBy(s.worktrees, WorktreeKey)
    ensures b in WorktreeBodies(SortBy(s.worktrees, WorktreeKey)) <==> b.WorktreeBody? && Stands(s, b)
  {
    SortHolds(s.worktrees, WorktreeKey);
    hide SortBy;
    var sorted := SortBy(s.worktrees, WorktreeKey);
    var bodies := WorktreeBodies(sorted);
    if b in bodies {
      var k :| 0 <= k < |bodies| && bodies[k] == b;
      assert sorted[k] in s.worktrees;
    }
    if b.WorktreeBody? && Stands(s, b) {
      var w := WorktreeEvidence(b.worktree, b.target, b.provenance);
      assert w in sorted;
      var k :| 0 <= k < |sorted| && sorted[k] == w;
      assert bodies[k] == b;
    }
  }

  /** The bodies are the evidence, and no more. */
  lemma BodiesStand(s: Snapshot, b: Body)
    requires SnapshotFine(s)
    ensures b in Bodies(s) <==> Stands(s, b)
  {
    hide SortBy, Stands;
    CommitBodiesStand(s, b);
    TipBodiesStand(s, b);
    ReflogBodiesStand(s, b);
    WorktreeBodiesStand(s, b);
  }

  ghost predicate AllDifferent(bodies: seq<Body>) {
    forall i, j :: 0 <= i < j < |bodies| ==> Different(bodies[i], bodies[j])
  }

  lemma DifferentConcat(a: seq<Body>, b: seq<Body>)
    requires AllDifferent(a) && AllDifferent(b) && forall x, y :: x in a && y in b ==> Different(x, y)
    ensures AllDifferent(a + b)
  {
    forall i, j | 0 <= i < j < |a + b|
      ensures Different((a + b)[i], (a + b)[j])
    {
      if i < |a| && j >= |a| {
        assert (a + b)[i] in a && (a + b)[j] in b;
      }
    }
  }

  lemma BodiesDifferent(s: Snapshot)
    requires SnapshotFine(s)
    ensures AllDifferent(Bodies(s))
  {
    SortHolds(s.commits, CommitKey);
    SortHolds(s.tips, RefKey);
    SortHolds(s.reflog, RefKey);
    SortHolds(s.worktrees, WorktreeKey);
    hide SortBy;
    var commits, tips := CommitBodies(SortBy(s.commits, CommitKey)), TipBodies(SortBy(s.tips, RefKey));
    var reflog, worktrees := ReflogBodies(SortBy(s.reflog, RefKey)), WorktreeBodies(SortBy(s.worktrees, WorktreeKey));
    KindsRise(SortBy(s.commits, CommitKey), SortBy(s.tips, RefKey), SortBy(s.reflog, RefKey),
              SortBy(s.worktrees, WorktreeKey));
    assert forall b :: b in commits ==> b.CommitBody?;
    assert forall b :: b in tips ==> b.TipBody?;
    assert forall b :: b in reflog ==> b.ReflogBody?;
    assert forall b :: b in worktrees ==> b.WorktreeBody?;
    hide AllDifferent;
    DifferentConcat(commits, tips);
    DifferentConcat(commits + tips, reflog);
    DifferentConcat(commits + tips + reflog, worktrees);
  }

  lemma KindsRise(commits: seq<CommitEvidence>, tips: seq<RefEvidence>, reflog: seq<RefEvidence>,
                  worktrees: seq<WorktreeEvidence>)
    requires RisingBy(commits, CommitKey) && RisingBy(tips, RefKey) && RisingBy(reflog, RefKey)
             && RisingBy(worktrees, WorktreeKey)
    ensures AllDifferent(CommitBodies(commits)) && AllDifferent(TipBodies(tips))
    ensures AllDifferent(ReflogBodies(reflog)) && AllDifferent(WorktreeBodies(worktrees))
  {
    hide SortBy;
    forall i, j | 0 <= i < j < |commits|
      ensures Different(CommitBodies(commits)[i], CommitBodies(commits)[j])
    {
      assert CommitKey(commits[i]) < CommitKey(commits[j]);
    }
    forall i, j | 0 <= i < j < |tips|
      ensures Different(TipBodies(tips)[i], TipBodies(tips)[j])
    {
      assert RefKey(tips[i]) < RefKey(tips[j]);
    }
    forall i, j | 0 <= i < j < |reflog|
      ensures Different(ReflogBodies(reflog)[i], ReflogBodies(reflog)[j])
    {
      assert RefKey(reflog[i]) < RefKey(reflog[j]);
    }
    forall i, j | 0 <= i < j < |worktrees|
      ensures Different(WorktreeBodies(worktrees)[i], WorktreeBodies(worktrees)[j])
    {
      assert WorktreeKey(worktrees[i]) < WorktreeKey(worktrees[j]);
    }
  }

  /** The commit events behind a reference. */
  lemma CommitEvents(s: Snapshot, id: nat, provenance: Provenance)
    requires SnapshotFine(s)
    ensures var events := Numbered(s.repo, Bodies(s));
            && ((exists e :: e in events && IsCommit(e, id)) <==> HasCommit(s.commits, id))
            && (Backed(events, id, provenance) <==>
                exists c :: c in s.commits && c.id == id && c.provenance == provenance)
  {
    hide SortBy, Bodies, SnapshotFine;
    var bodies := Bodies(s);
    var events := Numbered(s.repo, bodies);
    if e :| e in events && IsCommit(e, id) {
      CommitBehind(s, e);
    }
    if Backed(events, id, provenance) {
      var e :| e in events && IsCommit(e, id) && e.body.provenance == provenance;
      CommitBehind(s, e);
    }
    if HasCommit(s.commits, id) {
      var k :| 0 <= k < |s.commits| && s.commits[k].id == id;
      var e := EventBehind(s, s.commits[k]);
    }
    if c :| c in s.commits && c.id == id && c.provenance == provenance {
      var e := EventBehind(s, c);
    }
  }

  lemma CommitBehind(s: Snapshot, e: RepoEvent)
    requires SnapshotFine(s) && e in Numbered(s.repo, Bodies(s)) && e.body.CommitBody?
    ensures exists c :: c in s.commits && c.id == e.body.id && c.provenance == e.body.provenance
    ensures HasCommit(s.commits, e.body.id)
  {
    var bodies := Bodies(s);
    var k :| 0 <= k < |bodies| && Numbered(s.repo, bodies)[k] == e;
    assert e.body in bodies;
    BodiesStand(s, e.body);
    var c :| c in s.commits && c.id == e.body.id && c.provenance == e.body.provenance;
    var j :| 0 <= j < |s.commits| && s.commits[j] == c;
  }

  lemma EventBehind(s: Snapshot, c: CommitEvidence) returns (e: RepoEvent)
    requires SnapshotFine(s) && c in s.commits
    ensures e in Numbered(s.repo, Bodies(s)) && IsCommit(e, c.id) && e.body.provenance == c.provenance
  {
    var b := CommitBody(c.id, c.provenance, SortBy(c.parents, Self), Pointed(c.id, c.structure));
    BodiesStand(s, b);
    var bodies := Bodies(s);
    var k :| 0 <= k < |bodies| && bodies[k] == b;
    e := Numbered(s.repo, bodies)[k];
  }

  /** Every body of a checked snapshot holds, but for the provenance of references. */
  lemma BodyHoldsIff(s: Snapshot, b: Body)
    requires SnapshotFine(s) && Stands(s, b)
    ensures BodyHolds(Numbered(s.repo, Bodies(s)), b) <==>
              (b.CommitBody? || exists c :: c in s.commits && c.id == b.target && c.provenance == b.provenance)
  {
    if b.CommitBody? {
      var c :| c in s.commits && c.id == b.id && c.provenance == b.provenance && b.parents == SortBy(c.parents, Self)
          && b.structure == Pointed(c.id, c.structure);
      SortHolds(c.parents, Self);
      if c.structure.Some? {
        PointedFine(c.id, c.structure);
      }
      forall p | p in b.parents
        ensures exists e :: e in Numbered(s.repo, Bodies(s)) && IsCommit(e, p)
      {
        CommitEvents(s, p, Live);
      }
    } else {
      CommitEvents(s, b.target, b.provenance);
    }
  }

  /** The exact condition: the validator's demand on references is met if and only if each reference
      carries the provenance of its commit. */
  lemma BodiesHoldIff(s: Snapshot)
    requires SnapshotFine(s)
    ensures (forall e :: e in Numbered(s.repo, Bodies(s)) ==> BodyHolds(Numbered(s.repo, Bodies(s)), e.body)) <==>
            ProvenanceAgrees(s)
  {
    hide SortBy, Bodies, BodyHolds;
    var bodies := Bodies(s);
    var events := Numbered(s.repo, bodies);
    if ProvenanceAgrees(s) {
      forall e | e in events
        ensures BodyHolds(events, e.body)
      {
        var k :| 0 <= k < |events| && events[k] == e;
        assert e.body in bodies;
        BodiesStand(s, e.body);
        BodyHoldsIff(s, e.body);
        if !e.body.CommitBody? {
          CommitOf(s, e.body);
        }
      }
    }
    if forall e :: e in events ==> BodyHolds(events, e.body) {
      forall b | Stands(s, b) && !b.CommitBody?
        ensures exists c :: c in s.commits && c.id == b.target && c.provenance == b.provenance
      {
        BodiesStand(s, b);
        var k :| 0 <= k < |bodies| && bodies[k] == b;
        assert events[k] in events;
        BodyHoldsIff(s, b);
      }
      AllAgree(s);
    }
  }

  /** The one commit a reference names. */
  lemma CommitOf(s: Snapshot, b: Body)
    requires SnapshotFine(s) && Stands(s, b) && !b.CommitBody? && ProvenanceAgrees(s)
    ensures exists c :: c in s.commits && c.id == b.target && c.provenance == b.provenance
  {
    assert HasCommit(s.commits, b.target);
    var k :| 0 <= k < |s.commits| && s.commits[k].id == b.target;
    assert s.commits[k] in s.commits;
  }

  lemma AllAgree(s: Snapshot)
    requires SnapshotFine(s)
    requires forall b :: Stands(s, b) && !b.CommitBody? ==>
             exists c :: c in s.commits && c.id == b.target && c.provenance == b.provenance
    ensures ProvenanceAgrees(s)
  {
    forall c | c in s.commits
      ensures forall r :: r in s.tips && r.commit == c.id ==> r.provenance == c.provenance
      ensures forall r :: r in s.reflog && r.commit == c.id ==> r.provenance == c.provenance
      ensures forall w :: w in s.worktrees && w.commit == c.id ==> w.provenance == c.provenance
    {
      forall r | r in s.tips && r.commit == c.id
        ensures r.provenance == c.provenance
      {
        assert Stands(s, TipBody(r.commit, r.provenance));
        OneCommit(s, c, r.provenance);
      }
      forall r | r in s.reflog && r.commit == c.id
        ensures r.provenance == c.provenance
      {
        assert Stands(s, ReflogBody(r.commit, r.provenance));
        OneCommit(s, c, r.provenance);
      }
      forall w | w in s.worktrees && w.commit == c.id
        ensures w.provenance == c.provenance
      {
        assert Stands(s, WorktreeBody(w.id, w.commit, w.provenance));
        OneCommit(s, c, w.provenance);
      }
    }
  }

  lemma OneCommit(s: Snapshot, c: CommitEvidence, provenance: Provenance)
    requires DistinctBy(s.commits, CommitKey) && c in s.commits
    requires exists d :: d in s.commits && d.id == c.id && d.provenance == provenance
    ensures c.provenance == provenance
  {
    var d :| d in s.commits && d.id == c.id && d.provenance == provenance;
    var i :| 0 <= i < |s.commits| && s.commits[i] == c;
    var j :| 0 <= j < |s.commits| && s.commits[j] == d;
    assert i == j || CommitKey(s.commits[i]) != CommitKey(s.commits[j]);
  }

  // ---- The whole artifact ----------------------------------------------------

  lemma {:induction false} CommitsCounted(c: RepoCoverage, events: seq<RepoEvent>)
    ensures Recount(c, events).commits == c.commits + CommitsAmong(events)
    ensures Recount(c, events).repositories == c.repositories
  {
    if events != [] {
      CommitsCounted(c, events[..|events| - 1]);
    }
  }

  lemma RecountSnapshot(c: RepoCoverage, s: Snapshot)
    ensures Recount(c, Numbered(s.repo, Bodies(s))) == Covered(c, s)
  {
    hide SortBy, Recount, RecountBodies;
    RecountNumbered(c, s.repo, Bodies(s));
    var commits, tips := SortBy(s.commits, CommitKey), SortBy(s.tips, RefKey);
    var reflog, worktrees := SortBy(s.reflog, RefKey), SortBy(s.worktrees, WorktreeKey);
    var a, b, d, e := CommitBodies(commits), TipBodies(tips), ReflogBodies(reflog), WorktreeBodies(worktrees);
    RecountBodiesConcat(c, a + b + d, e);
    RecountBodiesConcat(c, a + b, d);
    RecountBodiesConcat(c, a, b);
    RecountCommits(c, commits);
    var c1 := RecountBodies(c, a);
    RecountTips(c1, tips);
    var c2 := RecountBodies(c1, b);
    RecountReflog(c2, reflog);
    RecountWorktrees(RecountBodies(c2, d), worktrees);
  }

  lemma {:induction false} CoverageRecounted(snapshots: seq<Snapshot>, total: nat)
    ensures CoveredAll(snapshots, total) == Recount(NOTHING_COVERED.(repositories := total), EventsAll(snapshots))
  {
    hide Covered, Bodies;
    if snapshots != [] {
      var n := |snapshots| - 1;
      CoverageRecounted(snapshots[..n], total);
      RecountConcat(NOTHING_COVERED.(repositories := total), EventsAll(snapshots[..n]),
                    Numbered(snapshots[n].repo, Bodies(snapshots[n])));
      RecountSnapshot(CoveredAll(snapshots[..n], total), snapshots[n]);
    }
  }

  lemma {:induction false} OfConcat(a: seq<RepoEvent>, b: seq<RepoEvent>, repo: nat)
    ensures Of(a + b, repo) == Of(a, repo) + Of(b, repo)
    decreases |b|
  {
    if b == [] {
      assert a + b == a;
    } else {
      assert (a + b)[..|a + b| - 1] == a + b[..|b| - 1];
      OfConcat(a, b[..|b| - 1], repo);
    }
  }

  lemma {:induction false} OfOne(events: seq<RepoEvent>, repo: nat)
    ensures (forall e :: e in events ==> e.repo == repo) ==> Of(events, repo) == events
    ensures (forall e :: e in events ==> e.repo != repo) ==> Of(events, repo) == []
  {
    if events != [] {
      OfOne(events[..|events| - 1], repo);
      assert events == events[..|events| - 1] + [events[|events| - 1]];
    }
  }

  predicate From(snapshots: seq<Snapshot>, repo: nat) {
    exists j :: 0 <= j < |snapshots| && snapshots[j].repo == repo
  }

  lemma {:induction false} EventsListed(snapshots: seq<Snapshot>)
    ensures forall e :: e in EventsAll(snapshots) ==> From(snapshots, e.repo)
  {
    hide Bodies;
    if snapshots != [] {
      var n := |snapshots| - 1;
      EventsListed(snapshots[..n]);
      forall e | e in EventsAll(snapshots)
        ensures From(snapshots, e.repo)
      {
        if e in EventsAll(snapshots[..n]) {
          var j :| 0 <= j < n && snapshots[..n][j].repo == e.repo;
          assert snapshots[j].repo == e.repo;
        } else {
          assert e in Numbered(snapshots[n].repo, Bodies(snapshots[n]));
          assert snapshots[n].repo == e.repo;
        }
      }
    }
  }

  lemma {:induction false} EventsOfSnapshots(snapshots: seq<Snapshot>, k: nat)
    requires RisingBy(snapshots, SnapshotKey) && k < |snapshots|
    ensures Of(EventsAll(snapshots), snapshots[k].repo) == Numbered(snapshots[k].repo, Bodies(snapshots[k]))
  {
    hide Bodies, Of;
    var n := |snapshots| - 1;
    var rest, last := snapshots[..n], snapshots[n];
    var added := Numbered(last.repo, Bodies(last));
    var repo := snapshots[k].repo;
    OfConcat(EventsAll(rest), added, repo);
    OfOne(added, repo);
    if k < n {
      EventsOfSnapshots(rest, k);
      assert SnapshotKey(snapshots[k]) < SnapshotKey(snapshots[n]);
      assert Of(EventsAll(rest), repo) + [] == Of(EventsAll(rest), repo);
    } else {
      assert forall j :: 0 <= j < n ==> SnapshotKey(snapshots[j]) < SnapshotKey(snapshots[n]);
      NoneYet(rest, last);
      assert [] + added == added;
    }
  }

  lemma NoneYet(rest: seq<Snapshot>, last: Snapshot)
    requires forall k :: 0 <= k < |rest| ==> rest[k].repo < last.repo
    ensures Of(EventsAll(rest), last.repo) == [] && forall e :: e in EventsAll(rest) ==> e.repo < last.repo
  {
    EventsListed(rest);
    hide EventsAll;
    OfOne(EventsAll(rest), last.repo);
  }

  lemma OrderThen(before: seq<RepoEvent>, repo: nat, bodies: seq<Body>)
    requires EventsInOrder(before) && forall e :: e in before ==> e.repo < repo
    ensures EventsInOrder(before + Numbered(repo, bodies))
  {
    assert forall i :: 0 <= i < |before| ==> before[i] in before;
  }

  lemma {:induction false} EventsOrdered(snapshots: seq<Snapshot>)
    requires RisingBy(snapshots, SnapshotKey)
    ensures EventsInOrder(EventsAll(snapshots))
    ensures EventTotal(Inventory(snapshots)) == |EventsAll(snapshots)|
  {
    hide Bodies, EventsInOrder;
    if snapshots != [] {
      var n := |snapshots| - 1;
      EventsOrdered(snapshots[..n]);
      assert Inventory(snapshots)[..n] == Inventory(snapshots[..n]);
      assert forall j :: 0 <= j < n ==> SnapshotKey(snapshots[j]) < SnapshotKey(snapshots[n]);
      NoneYet(snapshots[..n], snapshots[n]);
      OrderThen(EventsAll(snapshots[..n]), snapshots[n].repo, Bodies(snapshots[n]));
    } else {
      NothingInOrder();
    }
  }

  lemma NothingInOrder()
    ensures EventsInOrder([])
  {
  }

  lemma SnapshotCommits(s: Snapshot)
    requires SnapshotFine(s)
    ensures CommitsAmong(Numbered(s.repo, Bodies(s))) == |s.commits|
  {
    CommitsCounted(NOTHING_COVERED, Numbered(s.repo, Bodies(s)));
    RecountSnapshot(NOTHING_COVERED, s);
    SortHolds(s.commits, CommitKey);
  }

  lemma RepositoryHoldsIff(s: Snapshot)
    requires SnapshotFine(s)
    ensures RepositoryHolds(Repository(s.repo, |s.commits|, |Bodies(s)|), Numbered(s.repo, Bodies(s))) <==>
            ProvenanceAgrees(s)
  {
    hide Bodies, BodyHolds, CommitsAmong, SnapshotFine, ProvenanceAgrees, Different;
    BodiesDifferent(s);
    BodiesHoldIff(s);
    SnapshotCommits(s);
    var events := Numbered(s.repo, Bodies(s));
    assert forall i, j :: 0 <= i < j < |events| ==> Different(events[i].body, events[j].body);
  }

  /** Producer and validator agree exactly when every reference carries its commit's provenance. */
  lemma RepoAcceptedIff(snapshots: seq<Snapshot>)
    requires Prepared(snapshots)
    ensures RepoAccepts(RepoNormalized(snapshots)) <==> forall s :: s in snapshots ==> ProvenanceAgrees(s)
  {
    hide Bodies, RepositoryHolds, ProvenanceAgrees, SnapshotFine, Recount, CoveredAll, EventsAll, EventTotal,
        EventsInOrder, Of;
    var a := RepoNormalized(snapshots);
    CoverageRecounted(snapshots, |snapshots|);
    EventsOrdered(snapshots);
    EventsListed(snapshots);
    forall e | e in a.events
      ensures Listed(a.repositories, e.repo)
    {
      var j :| 0 <= j < |snapshots| && snapshots[j].repo == e.repo;
      assert a.repositories[j] in a.repositories;
    }
    forall k | 0 <= k < |snapshots|
      ensures RepositoryHolds(a.repositories[k], Of(a.events, a.repositories[k].repo)) <==>
              ProvenanceAgrees(snapshots[k])
    {
      assert snapshots[k] in snapshots;
      EventsOfSnapshots(snapshots, k);
      RepositoryHoldsIff(snapshots[k]);
    }
    if forall s :: s in snapshots ==> ProvenanceAgrees(s) {
      forall r | r in a.repositories
        ensures RepositoryHolds(r, Of(a.events, r.repo))
      {
        var k :| 0 <= k < |a.repositories| && a.repositories[k] == r;
        assert snapshots[k] in snapshots;
      }
      RepositoriesRise(snapshots);
    }
    if RepoAccepts(a) {
      forall s | s in snapshots
        ensures ProvenanceAgrees(s)
      {
        var k :| 0 <= k < |snapshots| && snapshots[k] == s;
        assert a.repositories[k] in a.repositories;
      }
    }
  }

  lemma RepositoriesRise(snapshots: seq<Snapshot>)
    requires RisingBy(snapshots, SnapshotKey)
    ensures RisingBy(Inventory(snapshots), RepositoryKey)
  {
    forall i, j | 0 <= i < j < |snapshots|
      ensures RepositoryKey(Inventory(snapshots)[i]) < RepositoryKey(Inventory(snapshots)[j])
    {
      assert SnapshotKey(snapshots[i]) < SnapshotKey(snapshots[j]);
    }
  }

  /** A reference with another provenance than its commit's: checked, written, and refused. */
  lemma DisagreementRefused()
    ensures var s := Snapshot(1, [CommitEvidence(7, Imported, [], None)], [RefEvidence(7, Live)], [], []);
            Prepared([s]) && !RepoAccepts(RepoNormalized([s]))
  {
    var c := CommitEvidence(7, Imported, [], None);
    var s := Snapshot(1, [c], [RefEvidence(7, Live)], [], []);
    assert s.commits[0] == c && HasCommit(s.commits, 7);
    assert SnapshotFine(s);
    assert c in s.commits && RefEvidence(7, Live) in s.tips;
    assert !ProvenanceAgrees(s);
    assert s in [s];
    RepoAcceptedIff([s]);
  }

  // ---- The loops -------------------------------------------------------------

  /** The keys of a list, and whether no two are the same. */
  method CollectKeys<T>(xs: seq<T>, key: T -> nat) returns (distinct: bool, keys: set<nat>)
    ensures distinct <==> DistinctBy(xs, key)
    ensures forall n :: n in keys <==> exists k :: 0 <= k < |xs| && key(xs[k]) == n
  {
    distinct, keys := true, {};
    for k := 0 to |xs|
      invariant distinct <==> DistinctBy(xs[..k], key)
      invariant forall n :: n in keys <==> exists j :: 0 <= j < k && key(xs[j]) == n
    {
      if key(xs[k]) in keys {
        var j :| 0 <= j < k && key(xs[j]) == key(xs[k]);
        assert xs[..k + 1][j] == xs[j] && xs[..k + 1][k] == xs[k];
        distinct := false;
      } else {
        assert forall i :: 0 <= i < k ==> xs[..k + 1][i] == xs[..k][i];
      }
      keys := keys + {key(xs[k])};
    }
    assert xs[..|xs|] == xs;
  }

  ghost predicate ReferencesFine(commits: seq<CommitEvidence>, refs: seq<RefEvidence>) {
    DistinctBy(refs, RefKey) && forall r :: r in refs ==> HasCommit(commits, r.commit)
  }

  method CheckReferences(ghost commits: seq<CommitEvidence>, admitted: set<nat>, refs: seq<RefEvidence>)
      returns (ok: bool)
    requires forall n :: n in admitted <==> HasCommit(commits, n)
    ensures ok <==> ReferencesFine(commits, refs)
  {
    for k := 0 to |refs|
      invariant forall j :: 0 <= j < k ==> HasCommit(commits, refs[j].commit)
    {
      if refs[k].commit !in admitted {
        assert refs[k] in refs;
        return false;
      }
    }
    var keys;
    ok, keys := CollectKeys(refs, RefKey);
  }

  ghost predicate CommitFine(commits: seq<CommitEvidence>, c: CommitEvidence) {
    && (c.structure.Some? ==> StructureFine(c.structure.value)) && DistinctBy(c.parents, Self)
    && forall p :: p in c.parents ==> HasCommit(commits, p)
  }

  /** The commits of a snapshot, each on its own and then against each other. */
  method CheckCommits(commits: seq<CommitEvidence>) returns (ok: bool, admitted: set<nat>)
    ensures ok <==> DistinctBy(commits, CommitKey) && forall c :: c in commits ==> CommitFine(commits, c)
    ensures ok ==> forall n :: n in admitted <==> HasCommit(commits, n)
  {
    hide StructureFine;
    admitted := {};
    for k := 0 to |commits|
      invariant forall j :: 0 <= j < k ==>
                  && (commits[j].structure.Some? ==> StructureFine(commits[j].structure.value))
                  && DistinctBy(commits[j].parents, Self)
    {
      var c := commits[k];
      assert c in commits;
      var distinct, _ := CollectKeys(c.parents, Self);
      if !distinct || (c.structure.Some? && !StructureFine(c.structure.value)) {
        return false, {};
      }
    }
    ok, admitted := CollectKeys(commits, CommitKey);
    if !ok {
      return false, {};
    }
    for k := 0 to |commits|
      invariant forall j :: 0 <= j < k ==> CommitFine(commits, commits[j])
    {
      for i := 0 to |commits[k].parents|
        invariant forall j :: 0 <= j < i ==> HasCommit(commits, commits[k].parents[j])
      {
        if commits[k].parents[i] !in admitted {
          assert commits[k] in commits && commits[k].parents[i] in commits[k].parents;
          return false, {};
        }
      }
    }
  }

  /** `_checked_snapshot`, false where it raises. */
  method CheckSnapshot(s: Snapshot) returns (ok: bool)
    ensures ok <==> SnapshotFine(s)
  {
    hide DistinctBy, StructureFine, HasCommit;
    var admitted, worktrees;
    ok, admitted := CheckCommits(s.commits);
    if !ok {
      return;
    }
    assert forall c :: c in s.commits ==> CommitFine(s.commits, c);
    ok := CheckReferences(s.commits, admitted, s.tips);
    if !ok {
      return;
    }
    ok := CheckReferences(s.commits, admitted, s.reflog);
    if !ok {
      return;
    }
    for k := 0 to |s.worktrees|
      invariant forall j :: 0 <= j < k ==> HasCommit(s.commits, s.worktrees[j].commit)
    {
      if s.worktrees[k].commit !in admitted {
        assert s.worktrees[k] in s.worktrees;
        return false;
      }
    }
    ok, worktrees := CollectKeys(s.worktrees, WorktreeKey);
  }

  /** `normalize_repo_evidence`, None where it raises. */
  method NormalizeRepoEvidence(raw: seq<Snapshot>) returns (r: Option<RepoArtifact>)
    ensures r.Some? <==> raw != [] && DistinctBy(raw, SnapshotKey) && forall s :: s in raw ==> SnapshotFine(s)
    ensures r.Some? ==> r.value == RepoNormalized(SortBy(raw, SnapshotKey))
    ensures r.Some? ==> (RepoAccepts(r.value) <==> forall s :: s in raw ==> ProvenanceAgrees(s))
  {
    hide SnapshotFine, ProvenanceAgrees, RepoAccepts, RepoNormalized;
    if raw == [] {
      return None;
    }
    for k := 0 to |raw|
      invariant forall j :: 0 <= j < k ==> SnapshotFine(raw[j])
    {
      var fine := CheckSnapshot(raw[k]);
      if !fine {
        assert raw[k] in raw;
        return None;
      }
    }
    var distinct, repos := CollectKeys(raw, SnapshotKey);
    if !distinct {
      return None;
    }
    SortHolds(raw, SnapshotKey);
    var artifact := BuildRepoArtifact(SortBy(raw, SnapshotKey));
    r := Some(artifact);
  }

  /** The loops over checked, sorted snapshots: events and counters grow together. */
  method BuildRepoArtifact(snapshots: seq<Snapshot>) returns (a: RepoArtifact)
    requires Prepared(snapshots)
    ensures a == RepoNormalized(snapshots)
    ensures RepoAccepts(a) <==> forall s :: s in snapshots ==> ProvenanceAgrees(s)
  {
    hide Prepared, RepoAccepts, ProvenanceAgrees, Bodies, Covered;
    var events: seq<RepoEvent> := [];
    var repositories: seq<Repository> := [];
    var coverage := NOTHING_COVERED.(repositories := |snapshots|);
    for k := 0 to |snapshots|
      invariant repositories == Inventory(snapshots[..k])
      invariant events == EventsAll(snapshots[..k])
      invariant coverage == CoveredAll(snapshots[..k], |snapshots|)
    {
      assert snapshots[..k + 1][..k] == snapshots[..k];
      InventoryNext(snapshots, k);
      var repoEvents, counted := SnapshotEvents(snapshots[k], coverage);
      repositories := repositories + [Repository(snapshots[k].repo, |snapshots[k].commits|, |repoEvents|)];
      coverage := counted;
      events := events + repoEvents;
    }
    assert snapshots[..|snapshots|] == snapshots;
    a := RepoArtifact(repositories, coverage, events);
    RepoAcceptedIff(snapshots);
  }

  lemma InventoryNext(snapshots: seq<Snapshot>, k: nat)
    requires k < |snapshots|
    ensures var s := snapshots[k];
            Inventory(snapshots[..k + 1]) == Inventory(snapshots[..k]) + [Repository(s.repo, |s.commits|, |Bodies(s)|)]
  {
    hide Bodies;
  }

  /** One more body in its place. */
  lemma NextBody(c: RepoCoverage, repo: nat, all: seq<Body>, n: nat)
    requires n < |all|
    ensures Numbered(repo, all[..n + 1]) == Numbered(repo, all[..n]) + [RepoEvent(repo, n, all[n])]
    ensures RecountBodies(c, all[..n + 1]) == CountBody(RecountBodies(c, all[..n]), all[n])
  {
    assert all[..n + 1][..n] == all[..n];
  }

  /** The events and counters after the first `n` bodies. */
  ghost predicate Reached(before: RepoCoverage, repo: nat, all: seq<Body>, n: nat, events: seq<RepoEvent>,
                          coverage: RepoCoverage) {
    n <= |all| && events == Numbered(repo, all[..n]) && coverage == RecountBodies(before, all[..n])
  }

  lemma ReachedNext(before: RepoCoverage, repo: nat, all: seq<Body>, n: nat, events: seq<RepoEvent>,
                    coverage: RepoCoverage)
    requires Reached(before, repo, all, n, events, coverage) && n < |all|
    ensures Reached(before, repo, all, n + 1, events + [RepoEvent(repo, |events|, all[n])], CountBody(coverage, all[n]))
  {
    NextBody(before, repo, all, n);
  }

  method CommitEvidenceEvents(repo: nat, commits: seq<CommitEvidence>, ghost before: RepoCoverage,
                              ghost all: seq<Body>, start: RepoCoverage)
    returns (events: seq<RepoEvent>, coverage: RepoCoverage)
    requires Reached(before, repo, all, 0, [], start) && |commits| <= |all|
    requires all[..|commits|] == CommitBodies(commits)
    ensures Reached(before, repo, all, |commits|, events, coverage) && |events| == |commits|
  {
    hide Reached, SortBy;
    events, coverage := [], start;
    for k := 0 to |commits|
      invariant Reached(before, repo, all, k, events, coverage) && |events| == k
    {
      var c := commits[k];
      assert all[..|commits|][k] == all[k];
      ReachedNext(before, repo, all, k, events, coverage);
      if c.structure.Some? {
        coverage := coverage.(blobs := coverage.blobs + |c.structure.value.blobs|);
      } else {
        coverage := coverage.(unknown := coverage.unknown + 1);
      }
      coverage := coverage.(commits := coverage.commits + 1);
      if c.provenance == Imported {
        coverage := coverage.(imported := coverage.imported + 1);
      } else {
        coverage := coverage.(live := coverage.live + 1);
      }
      events := events + [RepoEvent(repo, |events|, CommitBody(c.id, c.provenance, SortBy(c.parents, Self),
                                                               Pointed(c.id, c.structure)))];
    }
  }

  /** Branch tips and reflog targets run through one loop, as in the source. */
  method ReferenceEvents(repo: nat, refs: seq<RefEvidence>, tips: bool, ghost before: RepoCoverage,
                         ghost all: seq<Body>, ghost from: nat,
                         sofar: seq<RepoEvent>, start: RepoCoverage)
    returns (events: seq<RepoEvent>, coverage: RepoCoverage)
    requires Reached(before, repo, all, from, sofar, start) && |sofar| == from && from + |refs| <= |all|
    requires all[from..from + |refs|] == if tips then TipBodies(refs) else ReflogBodies(refs)
    ensures Reached(before, repo, all, from + |refs|, events, coverage) && |events| == from + |refs|
  {
    hide Reached;
    events, coverage := sofar, start;
    for k := 0 to |refs|
      invariant Reached(before, repo, all, from + k, events, coverage) && |events| == from + k
    {
      ReachedNext(before, repo, all, from + k, events, coverage);
      assert all[from..from + |refs|][k] == all[from + k];
      assert all[from + k] == if tips then TipBody(refs[k].commit, refs[k].provenance)
                              else ReflogBody(refs[k].commit, refs[k].provenance);
      if tips {
        events := events + [RepoEvent(repo, |events|, TipBody(refs[k].commit, refs[k].provenance))];
        coverage := coverage.(tips := coverage.tips + 1);
      } else {
        events := events + [RepoEvent(repo, |events|, ReflogBody(refs[k].commit, refs[k].provenance))];
        coverage := coverage.(reflog := coverage.reflog + 1);
      }
    }
  }

  method WorktreeEvents(repo: nat, worktrees: seq<WorktreeEvidence>, ghost before: RepoCoverage, ghost all: seq<Body>,
                        ghost from: nat,
                        sofar: seq<RepoEvent>, start: RepoCoverage)
    returns (events: seq<RepoEvent>, coverage: RepoCoverage)
    requires Reached(before, repo, all, from, sofar, start) && |sofar| == from && from + |worktrees| == |all|
    requires all[from..] == WorktreeBodies(worktrees)
    ensures Reached(before, repo, all, |all|, events, coverage)
  {
    hide Reached;
    events, coverage := sofar, start;
    for k := 0 to |worktrees|
      invariant Reached(before, repo, all, from + k, events, coverage) && |events| == from + k
    {
      ReachedNext(before, repo, all, from + k, events, coverage);
      assert all[from..][k] == all[from + k];
      assert all[from + k] == WorktreeBody(worktrees[k].id, worktrees[k].commit, worktrees[k].provenance);
      events := events + [RepoEvent(repo, |events|,
                                    WorktreeBody(worktrees[k].id, worktrees[k].commit, worktrees[k].provenance))];
      coverage := coverage.(worktrees := coverage.worktrees + 1);
    }
  }

  /** One snapshot's events, kind after kind, and the counters after them. */
  method SnapshotEvents(s: Snapshot, before: RepoCoverage) returns (events: seq<RepoEvent>, coverage: RepoCoverage)
    ensures events == Numbered(s.repo, Bodies(s)) && coverage == Covered(before, s)
  {
    hide Covered, Recount, RecountBodies, Reached, SortBy, CommitBodies, TipBodies, ReflogBodies, WorktreeBodies,
        Numbered;
    var commits, tips := SortBy(s.commits, CommitKey), SortBy(s.tips, RefKey);
    var reflog, worktrees := SortBy(s.reflog, RefKey), SortBy(s.worktrees, WorktreeKey);
    ghost var all := Bodies(s);
    BodiesAt(commits, tips, reflog, worktrees);
    ReachedStart(before, s.repo, all);
    events, coverage := CommitEvidenceEvents(s.repo, commits, before, all, before);
    events, coverage := ReferenceEvents(s.repo, tips, true, before, all, |commits|, events, coverage);
    events, coverage := ReferenceEvents(s.repo, reflog, false, before, all, |commits| + |tips|, events, coverage);
    events, coverage := WorktreeEvents(s.repo, worktrees, before, all, |commits| + |tips| + |reflog|, events, coverage);
    ReachedEnd(before, s, events, coverage);
  }

  lemma BodiesAt(commits: seq<CommitEvidence>, tips: seq<RefEvidence>, reflog: seq<RefEvidence>,
                 worktrees: seq<WorktreeEvidence>)
    ensures var all := CommitBodies(commits) + TipBodies(tips) + ReflogBodies(reflog) + WorktreeBodies(worktrees);
            var n1, n2 := |commits|, |commits| + |tips|;
            && |all| == n2 + |reflog| + |worktrees|
            && all[..n1] == CommitBodies(commits) && all[n1..n1 + |tips|] == TipBodies(tips)
            && all[n2..n2 + |reflog|] == ReflogBodies(reflog) && all[n2 + |reflog|..] == WorktreeBodies(worktrees)
  {
  }

  lemma ReachedEnd(before: RepoCoverage, s: Snapshot, events: seq<RepoEvent>, coverage: RepoCoverage)
    requires Reached(before, s.repo, Bodies(s), |Bodies(s)|, events, coverage)
    ensures events == Numbered(s.repo, Bodies(s)) && coverage == Covered(before, s)
  {
    hide Covered, Recount, RecountBodies, Bodies;
    RecountSnapshot(before, s);
    RecountNumbered(before, s.repo, Bodies(s));
    assert Bodies(s)[..|Bodies(s)|] == Bodies(s);
  }

  lemma ReachedStart(before: RepoCoverage, repo: nat, all: seq<Body>)
    ensures Reached(before, repo, all, 0, [], before)
  {
    assert all[..0] == [];
  }

  /** The commits admitted so far, with their provenance. */
  ghost predicate AdmittedAre(admitted: map<nat, Provenance>, events: seq<RepoEvent>) {
    && (forall id :: id in admitted <==> exists e :: e in events && IsCommit(e, id))
    && (forall e :: e in events && e.body.CommitBody? ==>
        e.body.id in admitted && admitted[e.body.id] == e.body.provenance)
  }

  predicate KnownTarget(admitted: map<nat, Provenance>, target: nat, provenance: Provenance) {
    target in admitted && admitted[target] == provenance
  }

  lemma BackedIffKnown(admitted: map<nat, Provenance>, events: seq<RepoEvent>, target: nat, provenance: Provenance)
    requires AdmittedAre(admitted, events)
    ensures Backed(events, target, provenance) <==> KnownTarget(admitted, target, provenance)
  {
    if KnownTarget(admitted, target, provenance) {
      var e :| e in events && IsCommit(e, target);
      assert e.body.provenance == provenance;
    }
  }

  predicate BodyPasses(admitted: map<nat, Provenance>, b: Body) {
    match b
    case CommitBody(id, _, parents, structure) =>
      RisingBy(parents, Self) && (forall p :: p in parents ==> p in admitted)
          && (structure.Some? ==> ObservedFine(id, structure.value))
    case TipBody(target, provenance) => KnownTarget(admitted, target, provenance)
    case ReflogBody(target, provenance) => KnownTarget(admitted, target, provenance)
    case WorktreeBody(_, target, provenance) => KnownTarget(admitted, target, provenance)
  }

  lemma PassesIffHolds(admitted: map<nat, Provenance>, events: seq<RepoEvent>, b: Body)
    requires AdmittedAre(admitted, events)
    ensures BodyPasses(admitted, b) <==> BodyHolds(events, b)
  {
    hide ObservedFine;
    if !b.CommitBody? {
      BackedIffKnown(admitted, events, b.target, b.provenance);
    }
  }

  /** What has been named so far, by kind. */
  datatype Named = Named(admitted: map<nat, Provenance>, tips: set<nat>, reflog: set<nat>, worktrees: set<nat>)

  predicate Names(n: Named, b: Body) {
    match b
    case CommitBody(id, _, _, _) => id in n.admitted
    case TipBody(target, _) => target in n.tips
    case ReflogBody(target, _) => target in n.reflog
    case WorktreeBody(worktree, _, _) => worktree in n.worktrees
  }

  function Name(n: Named, b: Body): Named {
    match b
    case CommitBody(id, provenance, _, _) => n.(admitted := n.admitted[id := provenance])
    case TipBody(target, _) => n.(tips := n.tips + {target})
    case ReflogBody(target, _) => n.(reflog := n.reflog + {target})
    case WorktreeBody(worktree, _, _) => n.(worktrees := n.worktrees + {worktree})
  }

  ghost predicate NamesAll(n: Named, events: seq<RepoEvent>) {
    && (forall b :: Names(n, b) <==> exists e :: e in events && !Different(e.body, b))
    && AdmittedAre(n.admitted, events)
  }

  lemma NameMore(n: Named, events: seq<RepoEvent>, e: RepoEvent)
    requires NamesAll(n, events) && !Names(n, e.body)
    ensures NamesAll(Name(n, e.body), events + [e])
  {
    var more := Name(n, e.body);
    assert forall x :: x in events + [e] <==> x in events || x == e;
    assert forall x :: x in events ==> Different(x.body, e.body);
    forall b
      ensures Names(more, b) <==> exists x :: x in events + [e] && !Different(x.body, b)
    {
      assert Names(more, b) <==> Names(n, b) || !Different(e.body, b);
      if Names(n, b) {
        var x :| x in events && !Different(x.body, b);
        assert x in events + [e];
      }
      if !Different(e.body, b) {
        assert e in events + [e];
      }
    }
    forall id
      ensures id in more.admitted <==> exists x :: x in events + [e] && IsCommit(x, id)
    {
      if id in n.admitted {
        var x :| x in events && IsCommit(x, id);
        assert x in events + [e];
      }
      if IsCommit(e, id) {
        assert e in events + [e];
      }
    }
    forall x | x in events + [e] && x.body.CommitBody?
      ensures x.body.id in more.admitted && more.admitted[x.body.id] == x.body.provenance
    {
      assert x in events ==> Different(x.body, e.body);
    }
  }

  lemma NothingNamed()
    ensures NamesAll(Named(map[], {}, {}, {}), [])
  {
  }

  method CheckRepository(r: Repository, events: seq<RepoEvent>) returns (ok: bool)
    ensures ok <==> RepositoryHolds(r, events)
  {
    hide NamesAll, Names, Name, Different, BodyHolds, BodyPasses, AdmittedAre;
    if |events| != r.events {
      return false;
    }
    var named := Named(map[], {}, {}, {});
    NothingNamed();
    var commits := 0;
    for k := 0 to |events|
      invariant forall j :: 0 <= j < k ==> events[j].record == j
      invariant commits == CommitsAmong(events[..k])
      invariant NamesAll(named, events[..k])
      invariant forall i, j :: 0 <= i < j < k ==> Different(events[i].body, events[j].body)
    {
      var e := events[k];
      assert events[..k + 1] == events[..k] + [e] && events[..k + 1][..k] == events[..k];
      if e.record != k {
        return false;
      }
      NamedMeansRepeated(named, events[..k], e.body);
      if Names(named, e.body) {
        return false;
      }
      NameMore(named, events[..k], e);
      named := Name(named, e.body);
      if e.body.CommitBody? {
        commits := commits + 1;
      }
    }
    assert events[..|events|] == events;
    if commits != r.commits {
      return false;
    }
    NamesAdmitted(named, events);
    for k := 0 to |events|
      invariant forall j :: 0 <= j < k ==> BodyHolds(events, events[j].body)
    {
      assert events[k] in events;
      PassesIffHolds(named.admitted, events, events[k].body);
      if !BodyPasses(named.admitted, events[k].body) {
        return false;
      }
    }
    ok := true;
  }

  lemma NamesAdmitted(n: Named, events: seq<RepoEvent>)
    requires NamesAll(n, events)
    ensures AdmittedAre(n.admitted, events)
  {
  }

  lemma NamedMeansRepeated(n: Named, events: seq<RepoEvent>, b: Body)
    requires NamesAll(n, events)
    ensures Names(n, b) <==> exists j :: 0 <= j < |events| && !Different(events[j].body, b)
  {
    if Names(n, b) {
      var e :| e in events && !Different(e.body, b);
      var j :| 0 <= j < |events| && events[j] == e;
    }
    if j :| 0 <= j < |events| && !Different(events[j].body, b) {
      assert events[j] in events;
    }
  }

  function EventsAt(groups: map<nat, seq<RepoEvent>>, repo: nat): seq<RepoEvent> {
    if repo in groups then groups[repo] else []
  }

  /** The events by repository, recounted, if each is listed and in turn. */
  method GroupEvents(repositories: seq<Repository>, events: seq<RepoEvent>)
    returns (ok: bool, observed: RepoCoverage, groups: map<nat, seq<RepoEvent>>)
    ensures ok <==> (forall e :: e in events ==> Listed(repositories, e.repo)) && EventsInOrder(events)
    ensures ok ==> observed == Recount(NOTHING_COVERED.(repositories := |repositories|), events)
    ensures ok ==> GroupedSoFar(groups, events)
  {
    hide CountBody, Of, Recount, EventsAt, Listed;
    var ids := set r | r in repositories :: r.repo;
    observed := NOTHING_COVERED.(repositories := |repositories|);
    groups := map[];
    ghost var none := observed;
    assert events[..0] == [];
    GroupedNone(none);
    for k := 0 to |events|
      invariant forall j :: 0 <= j < k ==> Listed(repositories, events[j].repo)
      invariant observed == Recount(none, events[..k])
      invariant GroupedSoFar(groups, events[..k])
      invariant forall i, j :: 0 <= i < j < k ==> InTurn(events[i], events[j])
    {
      var e := events[k];
      assert e in events;
      ListedIff(repositories, ids, e.repo);
      if e.repo !in ids {
        return false, observed, groups;
      }
      if k > 0 && !InTurn(events[k - 1], e) {
        return false, observed, groups;
      }
      GroupMore(groups, events, k, none);
      groups := groups[e.repo := EventsAt(groups, e.repo) + [e]];
      observed := CountBody(observed, e.body);
    }
    assert events[..|events|] == events;
    ok := true;
  }

  ghost predicate GroupedSoFar(groups: map<nat, seq<RepoEvent>>, events: seq<RepoEvent>) {
    forall repo: nat :: EventsAt(groups, repo) == Of(events, repo)
  }

  lemma GroupedNone(c: RepoCoverage)
    ensures GroupedSoFar(map[], []) && Recount(c, []) == c
  {
  }

  lemma GroupMore(groups: map<nat, seq<RepoEvent>>, events: seq<RepoEvent>, k: nat, c: RepoCoverage)
    requires k < |events| && GroupedSoFar(groups, events[..k])
    ensures GroupedSoFar(groups[events[k].repo := EventsAt(groups, events[k].repo) + [events[k]]], events[..k + 1])
    ensures Recount(c, events[..k + 1]) == CountBody(Recount(c, events[..k]), events[k].body)
  {
    assert events[..k + 1][..k] == events[..k];
    var e := events[k];
    var more := groups[e.repo := EventsAt(groups, e.repo) + [e]];
    forall repo: nat
      ensures EventsAt(more, repo) == Of(events[..k + 1], repo)
    {
      assert EventsAt(groups, repo) == Of(events[..k], repo);
      assert Of(events[..k], repo) + [] == Of(events[..k], repo);
    }
  }

  lemma ListedIff(repositories: seq<Repository>, ids: set<nat>, repo: nat)
    requires ids == set r | r in repositories :: r.repo
    ensures repo in ids <==> Listed(repositories, repo)
  {
  }

  /** `_validate_artifact_semantics`: group the events by repository, recount, and check each group. */
  method ValidateRepoArtifact(a: RepoArtifact) returns (ok: bool)
    ensures ok <==> RepoAccepts(a)
  {
    hide RepositoryHolds, CountBody, Recount, Of, EventsInOrder, Listed, EventTotal;
    if a.repositories == [] || !RisingBy(a.repositories, RepositoryKey) || EventTotal(a.repositories) != |a.events| {
      return false;
    }
    var grouped, observed, groups := GroupEvents(a.repositories, a.events);
    if !grouped || a.coverage != observed {
      return false;
    }
    for k := 0 to |a.repositories|
      invariant forall j :: 0 <= j < k ==> RepositoryHolds(a.repositories[j], Of(a.events, a.repositories[j].repo))
    {
      var r := a.repositories[k];
      assert r in a.repositories;
      var held := CheckRepository(r, EventsAt(groups, r.repo));
      if !held {
        return false;
      }
    }
    ok := true;
  }

  predicate InTurn(a: RepoEvent, b: RepoEvent) {
    a.repo < b.repo || (a.repo == b.repo && a.record < b.record)
  }
}
