/** The Claude transcript producer: one record, one session, the whole corpus. */
module Claude {
  import opened Records
  import opened Episodes
  import opened Corpus
  import opened CorpusBuild
  import opened CorpusLineage
  import opened Transcripts

  // ---- Evidence gathered over a session's subject records --------------------

  /** The decoded object of each record of the subject; None elsewhere. */
  function SubjectObjects(env: Env, records: seq<VerifiedRecord>): (r: seq<Option<Object>>)
    ensures |r| == |records|
  {
    seq(|records|, i requires 0 <= i < |records| =>
      if records[i].attribution == Subject then env.decode(records[i].raw) else None)
  }

  predicate IsMessage(v: Object) {
    Get(v, "type") == JStr("user") || Get(v, "type") == JStr("assistant")
  }

  /** `_sidechain_mode`: the one marker all message records carry. */
  function Sidechain(objects: seq<Option<Object>>): Option<bool> {
    if exists k :: 0 <= k < |objects| && Marked(objects[k], true) && Unmarked(objects, true) then Some(true)
    else if exists k :: 0 <= k < |objects| && Marked(objects[k], false) && Unmarked(objects, false) then Some(false)
    else None
  }

  predicate Marked(o: Option<Object>, marker: bool) {
    o.Some? && IsMessage(o.value) && Get(o.value, "isSidechain") == JBool(marker)
  }

  /** No message record carries anything but this marker. */
  predicate Unmarked(objects: seq<Option<Object>>, marker: bool) {
    forall k :: 0 <= k < |objects| && objects[k].Some? && IsMessage(objects[k].value) ==> Marked(objects[k], marker)
  }

  predicate IsLauncher(o: Option<Object>) {
    o.Some? && Get(o.value, "type") == JStr("queue-operation")
  }

  predicate Inconsistent(objects: seq<Option<Object>>) {
    exists j, k :: 0 <= j < k < |objects| && objects[j].Some? && objects[k].Some?
                   && Get(objects[j].value, "sessionId").JStr? && Get(objects[k].value, "sessionId").JStr?
                   && Get(objects[j].value, "sessionId") != Get(objects[k].value, "sessionId")
  }

  /** The records that carry one uuid, in order. */
  function Holders(objects: seq<Option<Object>>, uuid: Json): seq<nat> {
    if objects == [] then []
    else
      var n := |objects| - 1;
      Holders(objects[..n], uuid) + (if objects[n].Some? && Get(objects[n].value, "uuid") == uuid then [n] else [])
  }

  /** `_parent_links` for one record: compared by source index, stated by normalized index. */
  function ParentOf(records: seq<VerifiedRecord>, objects: seq<Option<Object>>, i: nat): ParentLink
    requires i < |records| == |objects| && objects[i].Some?
  {
    var raw := Get(objects[i].value, "parentUuid");
    if raw == JNull then RootRecord
    else if !raw.JStr? then MissingParent
    else
      var holders := Holders(objects, raw);
      if |holders| > 1 then AmbiguousParent
      else if holders == [] || (holders[0] < |records| && records[holders[0]].index >= records[i].index) then
          DanglingParent
      else LinkedParent(holders[0])
  }

  function BlocksWithId(blocks: seq<Json>, id: string): nat {
    if blocks == [] then 0
    else
      var b := blocks[|blocks| - 1];
      BlocksWithId(blocks[..|blocks| - 1], id) +
      (if b.JObj? && Get(b.fields, "type") == JStr("tool_use") && Get(b.fields, "id") == JStr(id) then 1 else 0)
  }

  /** `_tool_id_counts`. */
  function ToolIdCount(objects: seq<Option<Object>>, id: string): nat {
    if objects == [] then 0
    else
      var o := objects[|objects| - 1];
      ToolIdCount(objects[..|objects| - 1], id) +
      (if o.Some? && Get(o.value, "type") == JStr("assistant") && Get(o.value, "message").JObj?
          && Get(Get(o.value, "message").fields, "content").JArr?
       then BlocksWithId(Get(Get(o.value, "message").fields, "content").items, id) else 0)
  }

  // ---- One message -----------------------------------------------------------

  /** What a record's events are derived in the context of. */
  datatype Context = Context(
    record: nat, commitment: Digest, repo: Option<nat>, sidechain: Option<bool>, objects: seq<Option<Object>>)

  /** How often a tool id is given out in the session. */
  function GivenOut(ctx: Context, id: Json): nat {
    if id.JStr? then ToolIdCount(ctx.objects, id.s) else 0
  }

  datatype Message = Message(details: seq<Detail>, positions: Positions, cov: Coverage)

  function Invalid(cov: Coverage, bad: bool): Coverage {
    if bad then cov.(metadataInvalid := cov.metadataInvalid + 1) else cov
  }

  function Label(v: Json, allowed: string -> bool): Option<string> {
    if v.JStr? && allowed(v.s) then Some(v.s) else None
  }

  const TOKEN_FIELDS: seq<string> :=
      ["input_tokens", "output_tokens", "cache_creation_input_tokens", "cache_read_input_tokens"]

  /** The token counts of the first `n` fields, or None once one is not a count. */
  function TokenCounts(usage: Object, n: nat): Option<map<string, nat>>
    requires n <= |TOKEN_FIELDS|
  {
    if n == 0 then Some(map[])
    else
      var before := TokenCounts(usage, n - 1);
      var key := TOKEN_FIELDS[n - 1];
      if before.None? then None
      else if key !in usage then before
      else if usage[key].JInt? && usage[key].n >= 0 then Some(before.value[key := usage[key].n])
      else None
  }

  function ModelDetails(env: Env, message: Object): seq<Detail> {
    var model, provider, effort :=
      Label(Get(message, "model"), env.modelName), Label(Get(message, "provider"), env.provider),
          Label(Get(message, "effort"), env.effort);
    if model.Some? || provider.Some? || effort.Some? then [Model(model, provider, effort)] else []
  }

  function TokenDetails(message: Object): seq<Detail> {
    var usage := Get(message, "usage");
    if !usage.JObj? then []
    else
      var counts := TokenCounts(usage.fields, 4);
      if counts.Some? && counts.value != map[] then [Tokens(counts.value)] else []
  }

  predicate TokensInvalid(message: Object) {
    var usage := Get(message, "usage");
    usage != JNull && (!usage.JObj? || TokenCounts(usage.fields, 4).None?)
  }

  /** `_metadata_events`. */
  function Metadata(env: Env, message: Object, cov: Coverage): (seq<Detail>, Coverage) {
    var c1 := Invalid(cov, Get(message, "model") != JNull && Label(Get(message, "model"), env.modelName).None?);
    var c2 := Invalid(c1, Get(message, "provider") != JNull && Label(Get(message, "provider"), env.provider).None?);
    var c3 := Invalid(c2, Get(message, "effort") != JNull && Label(Get(message, "effort"), env.effort).None?);
    (ModelDetails(env, message) + TokenDetails(message), Invalid(c3, TokensInvalid(message)))
  }

  function Unsupported(m: Message): Message {
    m.(cov := m.cov.(blocksUnsupported := m.cov.blocksUnsupported + 1))
  }

  /** One more detail that points at content, or does not. */
  function Emit(m: Message, d: Detail): Message {
    var c1 := if PointerOf(d).Some? then m.cov.(contentReferences := m.cov.contentReferences + 1) else m.cov;
    var c2 := if IsUnknown(d) then c1.(contentUnknown := c1.contentUnknown + 1) else c1;
    m.(details := m.details + [d], cov := c2)
  }

  function TextBlock(env: Env, ctx: Context, assistant: bool, textOnly: bool, m: Message, block: Option<nat>,
                     text: Json): Message {
    if !text.JStr? then Unsupported(m)
    else if !assistant && ctx.sidechain.None? then
      m.(cov := m.cov.(turnsAmbiguous := m.cov.turnsAmbiguous + 1, contentUnknown := m.cov.contentUnknown + 1))
    else
      var author := if assistant || ctx.sidechain == Some(true) then Agent else Human;
      if author == Human && env.paste(text.s) then Emit(m, Pasted(env.shape(text)))
      else
        var pointer := if assistant && textOnly && text.s != "" then
            Some(TextPointer(block, 0, |text.s|, ctx.commitment))
                       else None;
        Emit(m, Turn(author, env.shape(text), pointer))
  }

  function WithForge(env: Env, ctx: Context, m: Message, sub: nat, name: Json, input: Json, pointer: Pointer): Message {
    var forge := env.forge(name, input);
    if forge.Some? then Emit(m, Forge(forge.value, UnknownResult, pointer, LinkedTool(ctx.record, sub), ctx.repo))
    else m
  }

  function WithReference(env: Env, m: Message, name: Json, input: Json, pointer: Pointer): Message {
    var reference := env.reference(name, input);
    if reference.Some? then Emit(m, Reference(reference.value, pointer)) else m
  }

  function WithTest(env: Env, m: Message, name: Json, input: Json, pointer: Pointer): Message {
    if env.test(name, input) then Emit(m, Test(pointer)) else m
  }

  function InputPointerOf(ctx: Context, block: Option<nat>, b: Object): Option<Pointer> {
    if block.Some? && "input" in b then Some(InputPointer(block.value, ctx.commitment)) else None
  }

  function Called(env: Env, ctx: Context, m: Message, block: Option<nat>, b: Object): Message {
    Emit(m, ToolCall(env.family(Get(b, "name")), InputPointerOf(ctx, block, b)))
  }

  /** The tool call and what its input gives away: a forge action, a reference, a test. */
  function Derived(env: Env, ctx: Context, m: Message, block: Option<nat>, b: Object): Message {
    var name, input := Get(b, "name"), Get(b, "input");
    var called := Called(env, ctx, m, block, b);
    match InputPointerOf(ctx, block, b)
    case None => called
    case Some(pointer) =>
      WithTest(env, WithReference(env, WithForge(env, ctx, called, |m.details|, name, input, pointer), name, input,
                                  pointer), name, input, pointer)
  }

  function ToolUse(env: Env, ctx: Context, m: Message, block: Option<nat>, b: Object): Message {
    var derived := Derived(env, ctx, m, block, b);
    var id := Get(b, "id");
    if id.JStr? && GivenOut(ctx, id) == 1 then
        derived.(positions := derived.positions[id.s := (ctx.record, |m.details|)])
    else derived
  }

  function ResultBlock(env: Env, ctx: Context, m: Message, b: Object): Message {
    var isError := Get(b, "is_error");
    Emit(m, ToolResult(env.shape(Get(b, "content")),
                       RelationOf(Get(b, "tool_use_id"), GivenOut(ctx, Get(b, "tool_use_id")), m.positions),
                       if isError == JBool(true) then Failed
                       else if isError == JBool(false) then Success
                       else UnknownResult))
  }

  /** One iteration of the block loop of `_message_events`. */
  function BlockStep(env: Env, ctx: Context, assistant: bool, textOnly: bool, m: Message, block: Option<nat>,
                     b: Json): Message {
    var seen := m.(cov := m.cov.(blocksSeen := m.cov.blocksSeen + 1));
    if !b.JObj? then Unsupported(seen)
    else
      var kind := Get(b.fields, "type");
      if kind == JStr("text") then TextBlock(env, ctx, assistant, textOnly, seen, block, Get(b.fields, "text"))
      else if assistant && kind == JStr("tool_use") then ToolUse(env, ctx, seen, block, b.fields)
      else if !assistant && kind == JStr("tool_result") then ResultBlock(env, ctx, seen, b.fields)
      else Unsupported(seen)
  }

  function Blocks(env: Env, ctx: Context, assistant: bool, textOnly: bool, m: Message, blocks: seq<Json>): Message {
    if blocks == [] then m
    else
      var n := |blocks| - 1;
      BlockStep(env, ctx, assistant, textOnly, Blocks(env, ctx, assistant, textOnly, m, blocks[..n]), Some(n),
                blocks[n])
  }

  predicate AllText(blocks: seq<Json>) {
    blocks != [] && forall k :: 0 <= k < |blocks| ==> blocks[k].JObj? && Get(blocks[k].fields, "type") == JStr("text")
  }

  function CallsIn(details: seq<Detail>): nat {
    if details == [] then 0 else CallsIn(details[..|details| - 1]) + (if details[|details| - 1].ToolCall? then 1 else 0)
  }

  function ToolUseIds(blocks: seq<Json>): seq<Json> {
    if blocks == [] then []
    else
      var b := blocks[|blocks| - 1];
      ToolUseIds(blocks[..|blocks| - 1]) +
      (if b.JObj? && Get(b.fields, "type") == JStr("tool_use") then [Get(b.fields, "id")] else [])
  }

  /** The second pass, which notes each tool call's position again by its order among the calls. */
  function Renoted(ctx: Context, details: seq<Detail>, ids: seq<Json>, positions: Positions): Positions {
    if details == [] then positions
    else
      var n := |details| - 1;
      var before := Renoted(ctx, details[..n], ids, positions);
      var calls := CallsIn(details[..n]);
      if details[n].ToolCall? && calls < |ids| && ids[calls].JStr? && GivenOut(ctx, ids[calls]) == 1
      then before[ids[calls].s := (ctx.record, n)] else before
  }

  /** A record's outcome: its details if it parsed. */
  datatype Outcome = Outcome(details: Option<seq<Detail>>, observedAt: Option<int>, positions: Positions, cov: Coverage)

  function Unparsed(positions: Positions, cov: Coverage): Outcome {
    Outcome.Outcome(None, None, positions, cov)
  }

  function StampInvalid(env: Env, v: Object): bool {
    Get(v, "timestamp") != JNull && env.instant(Get(v, "timestamp")).None?
  }

  /** `_message_events`. */
  function MessageOutcome(env: Env, ctx: Context, v: Object, generation: Option<nat>, positions: Positions,
                          cov: Coverage): Outcome {
    var message := Get(v, "message");
    if !IsMessage(v) || !message.JObj? then Unparsed(positions, cov)
    else
      var c1 := Invalid(cov, generation.Some?);
      if Get(message.fields, "role") != Get(v, "type") then Unparsed(positions, c1)
      else
        var content := Get(message.fields, "content");
        if !content.JStr? && !content.JArr? then Unparsed(positions, c1)
        else
          var assistant := Get(v, "type") == JStr("assistant");
          var c2 := Invalid(c1, StampInvalid(env, v));
          var (metadata, c3) := if assistant then Metadata(env, message.fields, c2) else ([], c2);
          var start := Message(metadata, positions, c3);
          var m := if content.JStr? then BlockStep(env, ctx, assistant, true, start, None, TextOf(content))
                   else Blocks(env, ctx, assistant, AllText(content.items), start, content.items);
          var ids := if content.JStr? then [] else ToolUseIds(content.items);
          Outcome.Outcome(Some(m.details), env.instant(Get(v, "timestamp")), Renoted(ctx, m.details, ids, m.positions),
                          m.cov)
  }

  /** The one block a string content stands for. */
  function TextOf(content: Json): Json {
    JObj(map["type" := JStr("text"), "text" := content])
  }

  // ---- Records of unknown authorship and lifecycle records -------------------

  function UnknownBlock(env: Env, m: Message, b: Json): Message {
    var seen := m.(cov := m.cov.(blocksSeen := m.cov.blocksSeen + 1));
    if !b.JObj? then Unsupported(seen)
    else
      var kind := Get(b.fields, "type");
      if kind == JStr("text") then UnknownCandidate(env, seen, Get(b.fields, "text"))
      else if kind == JStr("tool_result") then UnknownCandidate(env, seen, Get(b.fields, "content"))
      else Unsupported(seen)
  }

  /** Only the shape of a string survives. */
  function UnknownCandidate(env: Env, m: Message, candidate: Json): Message {
    if candidate.JStr? then Emit(m, Pasted(env.shape(candidate))) else Unsupported(m)
  }

  function UnknownBlocks(env: Env, m: Message, blocks: seq<Json>): Message {
    if blocks == [] then m
    else UnknownBlock(env, UnknownBlocks(env, m, blocks[..|blocks| - 1]), blocks[|blocks| - 1])
  }

  /** `_unknown_authorship_events`. */
  function UnknownOutcome(env: Env, v: Object, positions: Positions, cov: Coverage): Outcome {
    var message := Get(v, "message");
    if !message.JObj? then Unparsed(positions, cov)
    else
      var content := Get(message.fields, "content");
      if !content.JStr? && !content.JArr? then Unparsed(positions, cov)
      else
        var blocks := if content.JStr? then [TextOf(content)] else content.items;
        var m := UnknownBlocks(env, Message([], positions, Invalid(cov, StampInvalid(env, v))), blocks);
        if m.details == [] then Unparsed(positions, m.cov)
        else Outcome.Outcome(Some(m.details), env.instant(Get(v, "timestamp")), positions, m.cov)
  }

  function MarkerOf(subtype: Json): Option<Marker> {
    if subtype == JStr("compact_boundary") then Some(ContextBoundary)
    else if subtype == JStr("session_start") then Some(SessionStarted)
    else if subtype == JStr("session_end") then Some(SessionEnded)
    else if subtype == JStr("model_change") then Some(ModelChanged)
    else None
  }

  /** `_lifecycle_events`. */
  function LifecycleOutcome(env: Env, v: Object, generation: Option<nat>, observed: Option<nat>, positions: Positions,
                            cov: Coverage): Outcome {
    var marker := MarkerOf(Get(v, "subtype"));
    if Get(v, "type") != JStr("system") || marker.None? then Unparsed(positions, cov)
    else
      var c1 := Invalid(cov, StampInvalid(env, v));
      var boundary := marker.value == ContextBoundary;
      Outcome.Outcome(Some([Lifecycle(marker.value, if boundary then observed else None)]),
                      env.instant(Get(v, "timestamp")),
                      positions, Invalid(c1, !boundary && generation.Some?))
  }

  // ---- One record of a session -----------------------------------------------

  /** What the whole session decides for each of its records. */
  datatype SessionContext = SessionContext(
    session: VerifiedSession, episode: Option<EpisodeId>, objects: seq<Option<Object>>,
    inconsistent: bool, sidechain: Option<bool>)

  function ContextOf(env: Env, s: VerifiedSession, episode: Option<EpisodeId>): SessionContext {
    var objects := SubjectObjects(env, s.records);
    SessionContext(s, episode, objects, Inconsistent(objects), Sidechain(objects))
  }

  /** What the record loop carries: the events, the counters, the tool positions and the last
      context generation (None before the first). */
  datatype Progress = Progress(events: seq<Event>, cov: Coverage, positions: Positions, last: Option<nat>)

  /** A compaction boundary whose generation is new. */
  predicate RaisesGeneration(v: Object, generation: Option<nat>, last: Option<nat>) {
    && Get(v, "type") == JStr("system") && Get(v, "subtype") == JStr("compact_boundary") && generation.Some?
    && (last.None? || generation.value > last.value)
  }

  predicate StaleGeneration(v: Object, generation: Option<nat>, last: Option<nat>) {
    && Get(v, "type") == JStr("system") && Get(v, "subtype") == JStr("compact_boundary") && generation.Some?
    && !RaisesGeneration(v, generation, last)
  }

  /** The message path, then the lifecycle path when it declines, then the launcher. */
  function SubjectOutcome(env: Env, sc: SessionContext, i: nat, v: Object, p: Progress): Outcome
    requires i < |sc.session.records|
  {
    var r := sc.session.records[i];
    var ctx := Context(i, r.commitment, sc.session.repo, sc.sidechain, sc.objects);
    var first := MessageOutcome(env, ctx, v, r.generation, p.positions, p.cov);
    if first.details.Some? then first
    else
      var cov := Invalid(first.cov, StaleGeneration(v, r.generation, p.last));
      var observed := if RaisesGeneration(v, r.generation, p.last) then r.generation else None;
      var second := LifecycleOutcome(env, v, r.generation, observed, first.positions, cov);
      if second.details.Some? then second
      else if Get(v, "type") == JStr("queue-operation") then
          Outcome.Outcome(Some([]), None, second.positions, second.cov)
      else second
  }

  function ParentFor(env: Env, sc: SessionContext, i: nat, v: Object): ParentLink
    requires i < |sc.session.records| == |sc.objects|
  {
    if sc.session.records[i].attribution == UnknownAuthor then
      (if Get(v, "parentUuid") == JNull then RootRecord else DanglingParent)
    else if sc.objects[i].Some? then ParentOf(sc.session.records, sc.objects, i)
    else RootRecord
  }

  function Finish(p: Progress, sc: SessionContext, i: nat, parent: ParentLink, out: Outcome,
                  last: Option<nat>): Progress
    requires i < |sc.session.records|
  {
    if out.details.None? then
      Progress(p.events, out.cov.(recordsUnsupported := out.cov.recordsUnsupported + 1), out.positions, last)
    else
      var parsed := Parsed(i, parent, out.observedAt, sc.session.records[i].commitment, out.details.value);
      Progress(p.events + RecordEvents(sc.session.id, sc.episode, parsed),
               out.cov.(recordsParsed := out.cov.recordsParsed + 1), out.positions, last)
  }

  /** One iteration of the record loop of `normalize_claude`. */
  function RecordStep(env: Env, sc: SessionContext, p: Progress, i: nat): Progress
    requires i < |sc.session.records| == |sc.objects|
  {
    var r := sc.session.records[i];
    match env.decode(r.raw)
    case None => p.(cov := p.cov.(recordsMalformed := p.cov.recordsMalformed + 1))
    case Some(v) =>
      if r.attribution == UnknownAuthor then
        Finish(p, sc, i, ParentFor(env, sc, i, v), UnknownOutcome(env, v, p.positions, p.cov), p.last)
      else if sc.inconsistent then
        p.(cov := p.cov.(recordsUnsupported := p.cov.recordsUnsupported + 1))
      else
        var out := SubjectOutcome(env, sc, i, v, p);
        var first := MessageOutcome(env, Context(i, r.commitment, sc.session.repo, sc.sidechain, sc.objects), v,
                                    r.generation, p.positions, p.cov);
        var raised := first.details.None? && RaisesGeneration(v, r.generation, p.last);
        Finish(p, sc, i, ParentFor(env, sc, i, v), out, if raised then r.generation else p.last)
  }

  function RecordsUpTo(env: Env, sc: SessionContext, p: Progress, n: nat): Progress
    requires n <= |sc.session.records| == |sc.objects|
  {
    if n == 0 then p else RecordStep(env, sc, RecordsUpTo(env, sc, p, n - 1), n - 1)
  }

  // ---- Sessions and the corpus -----------------------------------------------

  function AmbiguousIn(records: seq<VerifiedRecord>): nat {
    if records == [] then 0
    else AmbiguousIn(records[..|records| - 1]) + (if records[|records| - 1].attribution == UnknownAuthor then 1 else 0)
  }

  function ManifestOf(sc: SessionContext, st: Stitched): ManifestSession {
    ManifestSession(
      sc.session.id, |sc.session.records|, sc.session.startedAt, GitClosure(sc.session), sc.session.parent,
      sc.episode, Lookup(st.inferred, sc.session.id),
      if sc.sidechain.None? then None else Some(if sc.sidechain.value then Subagent else Primary),
      exists k :: 0 <= k < |sc.objects| && IsLauncher(sc.objects[k]))
  }

  datatype Growth = Growth(events: seq<Event>, cov: Coverage, sessions: seq<ManifestSession>)

  function Started(cov: Coverage, s: VerifiedSession): Coverage {
    cov.(sessionsAdmitted := cov.sessionsAdmitted + 1, recordsSeen := cov.recordsSeen + |s.records|,
         recordsAmbiguous := cov.recordsAmbiguous + AmbiguousIn(s.records))
  }

  /** One iteration of the session loop. */
  function SessionStep(env: Env, st: Stitched, c: Growth, s: VerifiedSession): Growth {
    var sc := ContextOf(env, s, Lookup(st.ids, s.id));
    var p := RecordsUpTo(env, sc, Progress(c.events, Started(c.cov, s), map[], None), |s.records|);
    Growth(p.events, p.cov, c.sessions + [ManifestOf(sc, st)])
  }

  function SessionsUpTo(env: Env, st: Stitched, sessions: seq<VerifiedSession>): Growth {
    if sessions == [] then Growth([], NO_COVERAGE.(lineageUnresolved := st.unresolvedCount), [])
    else SessionStep(env, st, SessionsUpTo(env, st, sessions[..|sessions| - 1]), sessions[|sessions| - 1])
  }

  function Written(env: Env, c: Growth): Artifact {
    var events := Rejoin(c.events);
    Artifact(Manifest(c.sessions, EpisodeTable(env.rules, c.sessions, events), c.cov, |events|), events)
  }

  /** The artifact `normalize_claude` writes for checked sessions, given the stitcher's answer. */
  function Normalized(env: Env, sessions: seq<VerifiedSession>, st: Stitched): Artifact {
    Written(env, SessionsUpTo(env, st, sessions))
  }
}
