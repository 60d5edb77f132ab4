/** The normalized corpus and everything its validator checks about it.

One corpus has one source, so a session is named by its id alone.
*/
module Corpus {
  import opened Records
  import opened LineageGraph
  import opened Episodes

  datatype ParentLink = RootRecord | MissingParent | AmbiguousParent | DanglingParent | LinkedParent(record: nat)

  datatype ToolRelation = MissingTool | AmbiguousTool | DanglingTool | LinkedTool(record: nat, sub: nat)

  /** `block` is absent for a message whose content is one string. */
  datatype Pointer =
    | TextPointer(block: Option<nat>, start: nat, end: nat, commitment: Digest)
    | InputPointer(index: nat, commitment: Digest)

  datatype Shape = Shape(line: string, size: string)

  datatype Author = Human | Agent

  datatype ResultStatus = Success | Failed | UnknownResult

  datatype Marker = ContextBoundary | SessionStarted | SessionEnded | ModelChanged

  datatype Detail =
    | Turn(author: Author, shape: Shape, text: Option<Pointer>)
    | Pasted(shape: Shape)
    | ToolCall(family: string, input: Option<Pointer>)
    | ToolResult(shape: Shape, relation: ToolRelation, status: ResultStatus)
    | Lifecycle(marker: Marker, generation: Option<nat>)
    | Model(model: Option<string>, provider: Option<string>, effort: Option<string>)
    | Tokens(usage: map<string, nat>)
    | Reference(kind: string, target: Pointer)
    | Test(command: Pointer)
    | Forge(action: string, outcome: ResultStatus, invocation: Pointer, call: ToolRelation, repo: Option<nat>)

  datatype Event = Event(session: nat, record: nat, sub: nat, episode: Option<EpisodeId>,
                         observedAt: Option<int>, parent: ParentLink, detail: Detail)

  datatype Closure = BoundCommit | NoHeadChange | UnknownClosure

  datatype Lane = Primary | Subagent

  datatype ManifestSession = ManifestSession(
    id: nat, admitted: nat, startedAt: Option<int>, closure: Closure, parent: Option<nat>,
    episode: Option<EpisodeId>, predecessor: Option<nat>, lane: Option<Lane>, launcher: bool)

  datatype Coverage = Coverage(
    sessionsAdmitted: nat, recordsSeen: nat, recordsAmbiguous: nat, recordsParsed: nat,
    recordsMalformed: nat, recordsUnsupported: nat, turnsAmbiguous: nat, blocksSeen: nat,
    blocksUnsupported: nat, contentReferences: nat, contentUnknown: nat, metadataInvalid: nat,
    lineageUnresolved: nat)

  const NO_COVERAGE: Coverage := Coverage(0, 0, 0, 0, 0, 0, 0, 0, 0, 0, 0, 0, 0)

  /** What the rule tables say of one stitched episode. */
  datatype Classes = Classes(arrival: string, outcome: string, openedAt: Option<int>)

  datatype EpisodeOutput = EpisodeOutput(id: EpisodeId, classes: Classes)

  datatype Manifest = Manifest(sessions: seq<ManifestSession>, episodes: seq<EpisodeOutput>, coverage: Coverage,
                               eventCount: nat)

  datatype Artifact = Artifact(manifest: Manifest, events: seq<Event>)

  /** `place` is the number an id's hexadecimal string spells, so that it orders ids as their strings
      are ordered; `classify` stands for the rule tables. */
  datatype Rules = Rules(place: EpisodeId -> nat, classify: (EpisodeId, seq<ManifestSession>, seq<Event>) -> Classes)

  // ---- The episode table -----------------------------------------------------

  /** An id into sorted ids, unless it is there. */
  function PlaceId(rules: Rules, id: EpisodeId, ids: seq<EpisodeId>): seq<EpisodeId> {
    if ids == [] || rules.place(id) < rules.place(ids[0]) then [id] + ids
    else if rules.place(id) == rules.place(ids[0]) then ids
    else [ids[0]] + PlaceId(rules, id, ids[1..])
  }

  /** The set of the sessions' episode ids, sorted. */
  function EpisodeIds(rules: Rules, sessions: seq<ManifestSession>): seq<EpisodeId> {
    if sessions == [] then []
    else
      var before, last := EpisodeIds(rules, sessions[..|sessions| - 1]), sessions[|sessions| - 1].episode;
      if last.None? then before else PlaceId(rules, last.value, before)
  }

  /** `_episode_outputs`: one row for each id, in their order. */
  function EpisodeTable(rules: Rules, sessions: seq<ManifestSession>, events: seq<Event>): (r: seq<EpisodeOutput>)
    ensures |r| == |EpisodeIds(rules, sessions)|
    ensures forall k :: 0 <= k < |r| ==> r[k].id == EpisodeIds(rules, sessions)[k]
  {
    var ids := EpisodeIds(rules, sessions);
    seq(|ids|, k requires 0 <= k < |ids| => EpisodeOutput(ids[k], rules.classify(ids[k], sessions, events)))
  }

  /** Sorted and unique. */
  ghost predicate IdsRising(rules: Rules, episodes: seq<EpisodeOutput>) {
    forall i, j :: 0 <= i < j < |episodes| ==> rules.place(episodes[i].id) < rules.place(episodes[j].id)
  }

  // ---- Reading events --------------------------------------------------------

  function PointerOf(d: Detail): Option<Pointer> {
    match d
    case Turn(_, _, p) => p
    case ToolCall(_, p) => p
    case Reference(_, p) => Some(p)
    case Test(p) => Some(p)
    case Forge(_, _, p, _, _) => Some(p)
    case _ => None
  }

  predicate IsPrimary(d: Detail) {
    d.Turn? || d.Pasted? || d.ToolCall? || d.ToolResult?
  }

  /** Content the event does not point to. */
  predicate IsUnknown(d: Detail) {
    d.Pasted? || d.ToolResult? || (d.Turn? && d.text.None?)
  }

  function CountPointers(events: seq<Event>): nat {
    if events == [] then 0
    else CountPointers(events[..|events| - 1]) + (if PointerOf(events[|events| - 1].detail).Some? then 1 else 0)
  }

  function CountPrimary(events: seq<Event>): nat {
    if events == [] then 0
    else CountPrimary(events[..|events| - 1]) + (if IsPrimary(events[|events| - 1].detail) then 1 else 0)
  }

  function CountUnknown(events: seq<Event>): nat {
    if events == [] then 0
    else CountUnknown(events[..|events| - 1]) + (if IsUnknown(events[|events| - 1].detail) then 1 else 0)
  }

  /** Session, record, position within the record: the order of the artifact. */
  predicate Precedes(a: Event, b: Event) {
    || a.session < b.session
    || (a.session == b.session && a.record < b.record)
    || (a.session == b.session && a.record == b.record && a.sub < b.sub)
  }

  ghost predicate Ordered(events: seq<Event>) {
    forall i, j :: 0 <= i < j < |events| ==> Precedes(events[i], events[j])
  }

  predicate SameRecord(a: Event, b: Event) {
    a.session == b.session && a.record == b.record
  }

  /** The positions of one record's events, in artifact order. */
  function SubsOf(events: seq<Event>, session: nat, record: nat): seq<nat> {
    if events == [] then []
    else
      var last := events[|events| - 1];
      SubsOf(events[..|events| - 1], session, record) +
      (if last.session == session && last.record == record then [last.sub] else [])
  }

  function GenerationsOf(events: seq<Event>, session: nat): seq<nat> {
    if events == [] then []
    else
      var last := events[|events| - 1];
      GenerationsOf(events[..|events| - 1], session) +
      (if last.session == session && last.detail.Lifecycle? && last.detail.generation.Some?
       then [last.detail.generation.value] else [])
  }

  /** The statuses of results linked to one place, in artifact order. */
  function StatusesOf(events: seq<Event>, session: nat, record: nat, sub: nat): seq<ResultStatus> {
    if events == [] then []
    else
      var last := events[|events| - 1];
      StatusesOf(events[..|events| - 1], session, record, sub) +
      (if last.session == session && last.detail.ToolResult? && last.detail.relation == LinkedTool(record, sub)
       then [last.detail.status] else [])
  }

  function Outcome(statuses: seq<ResultStatus>): ResultStatus {
    if |statuses| == 1 then statuses[0] else UnknownResult
  }

  predicate Standing(events: seq<Event>, e: Event, relation: ToolRelation, target: Event) {
    && relation.LinkedTool? && target in events && target.session == e.session
    && target.record == relation.record && target.sub == relation.sub
    && target.detail.ToolCall? && Precedes(target, e)
  }

  // ---- The checks ------------------------------------------------------------

  /** `_validate_event`, as far as the types leave anything to check. */
  predicate EventShape(e: Event) {
    && (e.detail.Turn? && e.detail.text.Some? ==>
          e.detail.author == Agent && e.detail.text.value.TextPointer?
              && e.detail.text.value.start < e.detail.text.value.end)
    && (e.detail.ToolCall? && e.detail.input.Some? ==> e.detail.input.value.InputPointer?)
    && (e.detail.Test? ==> e.detail.command.InputPointer?)
    && (e.detail.Forge? ==> e.detail.invocation.InputPointer?)
    && (e.detail.Lifecycle? && e.detail.generation.Some? ==> e.detail.marker == ContextBoundary)
    && (e.detail.Model? ==> e.detail.model.Some? || e.detail.provider.Some? || e.detail.effort.Some?)
    && (e.detail.Tokens? ==> e.detail.usage != map[])
  }

  ghost predicate SessionsSorted(sessions: seq<ManifestSession>) {
    forall i, j :: 0 <= i < j < |sessions| ==> sessions[i].id < sessions[j].id
  }

  function Keys(sessions: seq<ManifestSession>): set<nat> {
    set s | s in sessions :: s.id
  }

  function AdmittedTotal(sessions: seq<ManifestSession>): nat {
    if sessions == [] then 0 else AdmittedTotal(sessions[..|sessions| - 1]) + sessions[|sessions| - 1].admitted
  }

  /** The counters `_validate_manifest` ties to the lists. */
  predicate ManifestCounts(m: Manifest, events: seq<Event>) {
    && m.eventCount == |events|
    && m.coverage.sessionsAdmitted == |m.sessions|
    && m.coverage.recordsSeen == AdmittedTotal(m.sessions)
    && m.coverage.recordsParsed + m.coverage.recordsMalformed + m.coverage.recordsUnsupported == m.coverage.recordsSeen
    && m.coverage.recordsAmbiguous <= m.coverage.recordsSeen
  }

  /** The predecessor edges the manifest states: parents among the sessions, and episode edges. */
  function ManifestEdges(sessions: seq<ManifestSession>, keys: set<nat>): Edges {
    if sessions == [] then map[]
    else
      var s := sessions[|sessions| - 1];
      var before := ManifestEdges(sessions[..|sessions| - 1], keys);
      var withParent := if s.parent.Some? && s.parent.value in keys then WithEdge(before, s.id, s.parent.value)
                        else before;
      if s.predecessor.Some? then WithEdge(withParent, s.id, s.predecessor.value) else withParent
  }

  function UnresolvedParents(sessions: seq<ManifestSession>, keys: set<nat>): nat {
    if sessions == [] then 0
    else
      var s := sessions[|sessions| - 1];
      UnresolvedParents(sessions[..|sessions| - 1], keys) + (if s.parent.Some? && s.parent.value !in keys then 1 else 0)
  }

  /** Lineage: no session is its own parent or predecessor, every predecessor is a session, and no
      edge leads back. */
  ghost predicate LineageHolds(sessions: seq<ManifestSession>) {
    && (forall s :: s in sessions ==> s.parent != Some(s.id) && s.predecessor != Some(s.id))
    && (forall s :: s in sessions && s.predecessor.Some? ==> s.predecessor.value in Keys(sessions))
    && Acyclic(ManifestEdges(sessions, Keys(sessions)))
  }

  /** Sessions joined by edges, whichever way each points. */
  ghost predicate Joined(edges: Edges, a: nat, b: nat, n: nat)
    decreases n
  {
    if n == 0 then a == b
    else exists c: nat :: Neighbours(edges, a, c) && Joined(edges, c, b, n - 1)
  }

  predicate Neighbours(edges: Edges, a: nat, c: nat) {
    c in Predecessors(edges, a) || a in Predecessors(edges, c)
  }

  ghost predicate Together(edges: Edges, a: nat, b: nat) {
    exists n: nat :: Joined(edges, a, b, n)
  }

  /** Episode ids are the components of two sessions or more, and nothing else. */
  ghost predicate EpisodesHold(sessions: seq<ManifestSession>) {
    var keys := Keys(sessions);
    var edges := ManifestEdges(sessions, keys);
    forall s :: s in sessions ==> EpisodeHolds(keys, edges, s)
  }

  ghost predicate EpisodeHolds(keys: set<nat>, edges: Edges, s: ManifestSession) {
    && (s.episode.Some? <==> exists b :: b in keys && b != s.id && Together(edges, s.id, b))
    && (s.episode.Some? ==>
          && Ascending(s.episode.value.members)
          && forall b :: b in s.episode.value.members <==> b in keys && Together(edges, s.id, b))
  }

  /** The event belongs to a listed session, inside its records, with its episode, after its parent. */
  predicate Placed(sessions: seq<ManifestSession>, e: Event) {
    && (e.parent.LinkedParent? ==> e.parent.record < e.record)
    && exists s :: s in sessions && s.id == e.session && e.record < s.admitted && e.episode == s.episode
  }

  predicate SameSource(a: Event, b: Event) {
    SameRecord(a, b) ==>
      && a.parent == b.parent && a.observedAt == b.observedAt
      && (PointerOf(a.detail).Some? && PointerOf(b.detail).Some? ==>
            PointerOf(a.detail).value.commitment == PointerOf(b.detail).value.commitment)
  }

  ghost predicate Contiguous(events: seq<Event>) {
    forall session: nat, record: nat :: FromZero(SubsOf(events, session, record))
  }

  predicate FromZero(subs: seq<nat>) {
    forall k :: 0 <= k < |subs| ==> subs[k] == k
  }

  ghost predicate GenerationsRise(events: seq<Event>) {
    forall session: nat :: Ascending(GenerationsOf(events, session))
  }

  ghost predicate ResultBound(events: seq<Event>, e: Event) {
    e.detail.ToolResult? && e.detail.relation.LinkedTool? ==>
      exists target :: Standing(events, e, e.detail.relation, target)
  }

  /** A forge action binds the prior tool call it was derived from and has that call's outcome. */
  ghost predicate ForgeBound(events: seq<Event>, e: Event) {
    e.detail.Forge? ==>
      && (exists target ::
          Standing(events, e, e.detail.call, target) && target.detail.input == Some(e.detail.invocation))
      && e.detail.call.LinkedTool?
      && e.detail.outcome == Outcome(StatusesOf(events, e.session, e.detail.call.record, e.detail.call.sub))
  }

  /** No tool call has two forge actions. */
  ghost predicate ForgesDistinct(events: seq<Event>) {
    forall i, j :: 0 <= i < j < |events| && events[i].detail.Forge? && events[j].detail.Forge? ==>
      events[i].session != events[j].session || events[i].detail.call != events[j].detail.call
  }

  function RecordsWithEvents(events: seq<Event>): set<(nat, nat)> {
    set e | e in events :: (e.session, e.record)
  }

  predicate CoverageHolds(c: Coverage, events: seq<Event>) {
    && c.contentReferences == CountPointers(events)
    && c.recordsParsed >= |RecordsWithEvents(events)|
    && CountPrimary(events) <= c.blocksSeen && c.blocksUnsupported <= c.blocksSeen
    && CountUnknown(events) <= c.contentUnknown <= c.blocksSeen
    && c.turnsAmbiguous <= c.contentUnknown
  }

  ghost predicate EventsHold(sessions: seq<ManifestSession>, events: seq<Event>) {
    && Ordered(events)
    && (forall e :: e in events ==> EventShape(e) && Placed(sessions, e))
    && (forall a, b :: a in events && b in events ==> SameSource(a, b))
    && Contiguous(events) && GenerationsRise(events)
    && (forall e :: e in events ==> ResultBound(events, e))
    && (forall e :: e in events ==> ForgeBound(events, e))
    && ForgesDistinct(events)
  }

  /** What the validator accepts. */
  ghost predicate Accepts(rules: Rules, a: Artifact) {
    && SessionsSorted(a.manifest.sessions)
    && ManifestCounts(a.manifest, a.events)
    && LineageHolds(a.manifest.sessions)
    && EpisodesHold(a.manifest.sessions)
    && IdsRising(rules, a.manifest.episodes)
    && a.manifest.episodes == EpisodeTable(rules, a.manifest.sessions, a.events)
    && a.manifest.coverage.lineageUnresolved == UnresolvedParents(a.manifest.sessions, Keys(a.manifest.sessions))
    && EventsHold(a.manifest.sessions, a.events)
    && CoverageHolds(a.manifest.coverage, a.events)
  }
}
