/** What a transcript producer is given: decoded JSON, verified records and sessions, and the
library code and rule tables it calls.
*/
module Transcripts {
  import opened Records
  import opened Episodes
  import opened Corpus

  datatype Json =
    | JNull | JBool(b: bool) | JInt(n: int) | JReal(isZero: bool) | JStr(s: string)
    | JArr(items: seq<Json>) | JObj(fields: map<string, Json>)

  type Object = map<string, Json>

  /** A missing member reads as null. */
  function Get(o: Object, key: string): Json {
    if key in o then o[key] else JNull
  }

  datatype Attribution = Subject | NonSubject | UnknownAuthor

  datatype VerifiedRecord = VerifiedRecord(index: nat, raw: Bytes, commitment: Digest, attribution: Attribution,
                                           generation: Option<nat>)

  datatype BindingObservation = BindingObservation(rowIndex: nat, repo: nat, commit: nat)

  datatype VerifiedSession = VerifiedSession(
    id: nat, records: seq<VerifiedRecord>, parent: Option<nat>, repo: Option<nat>,
    headBefore: Option<nat>, headAfter: Option<nat>, startRow: Option<nat>, endRow: Option<nat>,
    bindings: seq<BindingObservation>, startedAt: Option<int>, endedAt: Option<int>)

  /** JSON decoding, timestamps, and the regular-expression and table classifiers. */
  datatype Env = Env(
    decode: Bytes -> Option<Object>, instant: Json -> Option<int>, shape: Json -> Shape, paste: string -> bool,
    family: Json -> string, reference: (Json, Json) -> Option<string>, test: (Json, Json) -> bool,
    forge: (Json, Json) -> Option<string>, modelName: string -> bool, provider: string -> bool, effort: string -> bool,
    rules: Rules)

  // ---- Session metadata both producers emit ----------------------------------

  predicate Inside(b: BindingObservation, s: VerifiedSession) {
    s.startRow.Some? && s.endRow.Some? && Some(b.repo) == s.repo && s.startRow.value < b.rowIndex < s.endRow.value
  }

  /** `_git_closure_evidence`. */
  function GitClosure(s: VerifiedSession): Closure {
    if s.repo.None? || s.headBefore.None? || s.headAfter.None? || s.startRow.None? || s.endRow.None?
        || s.endedAt.None? then UnknownClosure
    else if s.headBefore != s.headAfter && exists k ::
        0 <= k < |s.bindings| && Inside(s.bindings[k], s) && s.bindings[k].commit == s.headAfter.value
    then BoundCommit
    else if s.headBefore == s.headAfter && forall k :: 0 <= k < |s.bindings| ==>
        !Inside(s.bindings[k], s) then NoHeadChange
    else UnknownClosure
  }

  function SpanOf(s: VerifiedSession): Option<Span> {
    if s.repo.Some? && s.headBefore.Some? && s.headAfter.Some? && s.startedAt.Some? && s.endedAt.Some?
    then Some(Span(s.id, s.repo.value, s.headBefore.value, s.headAfter.value, s.startedAt.value, s.endedAt.value))
    else None
  }

  function NodeOf(s: VerifiedSession): Node {
    Node(s.id, s.parent, SpanOf(s))
  }

  function Nodes(sessions: seq<VerifiedSession>): (r: seq<Node>)
    ensures |r| == |sessions| && forall i :: 0 <= i < |r| ==> r[i] == NodeOf(sessions[i])
  {
    seq(|sessions|, i requires 0 <= i < |sessions| => NodeOf(sessions[i]))
  }

  /** What the input check guarantees of the sessions it passes on: in order of id, none its own
      parent, each with records of rising index that are the subject's or of unknown authorship. */
  ghost predicate Checked(sessions: seq<VerifiedSession>) {
    && (forall i, j :: 0 <= i < j < |sessions| ==> sessions[i].id < sessions[j].id)
    && (forall s :: s in sessions ==> SessionChecked(s))
  }

  ghost predicate SessionChecked(s: VerifiedSession) {
    && s.parent != Some(s.id) && s.records != []
    && (forall i, j :: 0 <= i < j < |s.records| ==> s.records[i].index < s.records[j].index)
    && (forall r :: r in s.records ==> r.attribution != NonSubject)
  }

  lemma CheckedNodes(sessions: seq<VerifiedSession>)
    requires Checked(sessions)
    ensures Accepted(Nodes(sessions))
  {
    var nodes := Nodes(sessions);
    forall n | n in nodes
      ensures n.parent != Some(n.id) && (n.span.Some? ==> n.span.value.id == n.id)
    {
      var i :| 0 <= i < |nodes| && nodes[i] == n;
      assert SessionChecked(sessions[i]);
    }
  }

  // ---- Tool ids and their positions ------------------------------------------

  type Positions = map<string, (nat, nat)>

  /** `_tool_relation`. */
  function RelationOf(id: Json, count: nat, positions: Positions): ToolRelation {
    if !id.JStr? then MissingTool
    else if count > 1 then AmbiguousTool
    else if id.s !in positions then DanglingTool
    else LinkedTool(positions[id.s].0, positions[id.s].1)
  }
}
