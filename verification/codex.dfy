/** The Codex transcript producer, the second one the same validator accepts. */
module Codex {
  import opened Records
  import opened Episodes
  import opened Corpus
  import opened CorpusLineage
  import opened Transcripts
  import opened Claude

  /** The shared environment, the decoding of call arguments for the classifiers, and which strings
      have a UTF-8 form, which one with an unpaired surrogate has not. */
  datatype Tools = Tools(env: Env, classified: (Json, Json) -> Json, encodes: string -> bool)

  /** What a step that may raise comes to.  Nothing in the producer catches what it raises. */
  datatype Tried<+T> = Raised | Done(value: T) {
    predicate IsFailure() {
      Raised?
    }

    function PropagateFailure<U>(): Tried<U>
      requires Raised?
    {
      Raised
    }

    function Extract(): T
      requires Done?
    {
      value
    }
  }

  /** A value whose membership in a set cannot be asked: TypeError. */
  predicate Unhashable(v: Json) {
    v.JArr? || v.JObj?
  }

  predicate OddBlock(b: Json) {
    b.JObj? && Unhashable(Get(b.fields, "type"))
  }

  // ---- JSON as this producer reads it ----------------------------------------

  /** Python's `or`. */
  predicate Truthy(v: Json) {
    match v
    case JNull => false
    case JBool(b) => b
    case JInt(n) => n != 0
    case JReal(isZero) => !isZero
    case JStr(s) => s != ""
    case JArr(items) => items != []
    case JObj(fields) => fields != map[]
  }

  function Or(a: Json, b: Json): Json {
    if Truthy(a) then a else b
  }

  function PayloadOf(v: Object): Object {
    if Get(v, "payload").JObj? then Get(v, "payload").fields else map[]
  }

  predicate IsMessageBlock(b: Json) {
    b.JObj? && (Get(b.fields, "type") == JStr("input_text") || Get(b.fields, "type") == JStr("output_text"))
  }

  predicate IsOutput(kind: Json) {
    kind == JStr("function_call_output") || kind == JStr("custom_tool_call_output")
        || kind == JStr("tool_search_output")
  }

  datatype CallDetails = CallDetails(name: Json, input: Json, id: Json)

  /** `_call_details`. */
  function DetailsOfCall(payload: Object): Option<CallDetails> {
    var kind := Get(payload, "type");
    if kind == JStr("function_call") then
        Some(CallDetails(Get(payload, "name"), Get(payload, "arguments"), Get(payload, "call_id")))
    else if kind == JStr("custom_tool_call") then
        Some(CallDetails(Get(payload, "name"), Get(payload, "input"), Get(payload, "call_id")))
    else if kind == JStr("local_shell_call") then
      Some(CallDetails(JStr("shell"), Get(payload, "action"), Or(Get(payload, "call_id"), Get(payload, "id"))))
    else if kind == JStr("tool_search_call") then
      Some(CallDetails(JStr("tool_search"), Get(payload, "arguments"), Get(payload, "call_id")))
    else if kind == JStr("web_search_call") then
        Some(CallDetails(JStr("web_search"), Get(payload, "action"), Get(payload, "id")))
    else None
  }

  /** `_tool_id_counts` over the subject's decoded records. */
  function CallIdCount(objects: seq<Option<Object>>, id: string): nat {
    if objects == [] then 0
    else
      var o := objects[|objects| - 1];
      CallIdCount(objects[..|objects| - 1], id) +
      (if o.Some? && Get(o.value, "type") == JStr("response_item") && Get(o.value, "payload").JObj?
          && DetailsOfCall(PayloadOf(o.value)).Some? && DetailsOfCall(PayloadOf(o.value)).value.id == JStr(id)
       then 1 else 0)
  }

  function CallsGiven(ctx: Context, id: Json): nat {
    if id.JStr? then CallIdCount(ctx.objects, id.s) else 0
  }

  // ---- Messages, calls and outputs -------------------------------------------

  function MessageBlock(t: Tools, ctx: Context, assistant: bool, m: Message, index: nat, b: Json): Tried<Message> {
    var seen := m.(cov := m.cov.(blocksSeen := m.cov.blocksSeen + 1));
    if OddBlock(b) then Raised
    else if !IsMessageBlock(b) then Done(Unsupported(seen))
    else
      var text := Get(b.fields, "text");
      if Get(b.fields, "type") != JStr(if assistant then "output_text" else "input_text") || !text.JStr? then
          Done(Unsupported(seen))
      else if !assistant && t.env.paste(text.s) then Done(Emit(seen, Pasted(t.env.shape(text))))
      else
        var pointer := if assistant && text.s != "" then Some(TextPointer(Some(index), 0, |text.s|, ctx.commitment))
                       else None;
        Done(Emit(seen, Turn(if assistant then Agent else Human, t.env.shape(text), pointer)))
  }

  function MessageBlocks(t: Tools, ctx: Context, assistant: bool, m: Message, blocks: seq<Json>): Tried<Message> {
    if blocks == [] then Done(m)
    else
      var n := |blocks| - 1;
      var before :- MessageBlocks(t, ctx, assistant, m, blocks[..n]);
      MessageBlock(t, ctx, assistant, before, n, blocks[n])
  }

  /** `_message_partials`. */
  function MessagePartials(t: Tools, ctx: Context, payload: Object, positions: Positions,
                           cov: Coverage): Tried<Option<Message>> {
    var role, content := Get(payload, "role"), Get(payload, "content");
    if Unhashable(role) then Raised
    else if (role != JStr("user") && role != JStr("assistant")) || !content.JArr? then Done(None)
    else
      var m :- MessageBlocks(t, ctx, role == JStr("assistant"), Message([], positions, cov), content.items);
      Done(Some(m))
  }

  function CallPointer(ctx: Context, call: CallDetails): Option<Pointer> {
    if call.input == JNull then None else Some(InputPointer(0, ctx.commitment))
  }

  function CallNoted(t: Tools, ctx: Context, call: CallDetails, positions: Positions, cov: Coverage): Message {
    Emit(Message([], positions, cov.(blocksSeen := cov.blocksSeen + 1)),
         ToolCall(t.env.family(call.name), CallPointer(ctx, call)))
  }

  /** What the call's input gives away. */
  function CallFound(t: Tools, ctx: Context, call: CallDetails, noted: Message): Message {
    match CallPointer(ctx, call)
    case None => noted
    case Some(pointer) =>
      var input := t.classified(call.name, call.input);
      var m1 := WithForge(t.env, ctx, noted, 0, call.name, input, pointer);
      var m2 := WithReference(t.env, m1, call.name, input, pointer);
      WithTest(t.env, m2, call.name, input, pointer)
  }

  /** `_call_partials`: the call is always the record's first event. */
  function CallPartials(t: Tools, ctx: Context, call: CallDetails, positions: Positions,
                        cov: Coverage): Tried<Message> {
    if OddInput(t, call.input) then Raised
    else
      var found := CallFound(t, ctx, call, CallNoted(t, ctx, call, positions, cov));
      Done(if call.id.JStr? && CallsGiven(ctx, call.id) == 1
           then found.(positions := positions[call.id.s := (ctx.record, 0)]) else found)
  }

  /** Arguments given as text are encoded to be decoded again: UnicodeEncodeError. */
  predicate OddInput(t: Tools, input: Json) {
    input.JStr? && !t.encodes(input.s)
  }

  function OutputText(output: Json): Json {
    if output.JStr? then output
    else if output.JObj? && Get(output.fields, "content").JStr? then Get(output.fields, "content")
    else JNull
  }

  function ResultOf(status: Json): ResultStatus {
    if status == JStr("completed") || status == JStr("success") then Success
    else if status == JStr("failed") || status == JStr("error") || status == JStr("incomplete") then Failed
    else UnknownResult
  }

  /** `_output_partials`. */
  function OutputPartials(t: Tools, ctx: Context, payload: Object, positions: Positions,
                          cov: Coverage): Tried<Message> {
    var id := Get(payload, "call_id");
    if Unhashable(Get(payload, "status")) then Raised
    else
      Done(Emit(Message([], positions, cov.(blocksSeen := cov.blocksSeen + 1)),
                ToolResult(t.env.shape(OutputText(Get(payload, "output"))),
                           RelationOf(id, CallsGiven(ctx, id), positions),
                           ResultOf(Get(payload, "status")))))
  }

  // ---- Settings, tokens and compaction ---------------------------------------

  datatype Settings = Settings(model: Json, provider: Json, effort: Json)

  /** `_settings`. */
  function SettingsOf(payload: Object): Settings {
    if Get(payload, "type") == JStr("thread_settings_applied") then
      var settings := Get(payload, "thread_settings");
      if !settings.JObj? then Settings(JNull, JNull, JNull)
      else Settings(Get(settings.fields, "model"), Get(settings.fields, "model_provider_id"),
                    Get(settings.fields, "reasoning_effort"))
    else
      Settings(Get(payload, "model"), Or(Get(payload, "model_provider"), Get(payload, "model_provider_id")),
               Or(Get(payload, "effort"), Get(payload, "reasoning_effort")))
  }

  /** Which records state settings, and whether they open the session. */
  function SettingsRecord(v: Object): Tried<Option<Settings>> {
    var payload := PayloadOf(v);
    if Get(v, "type") == JStr("session_meta") then Done(Some(Settings(JNull, Get(payload, "model_provider"), JNull)))
    else if Get(v, "type") == JStr("turn_context") then Done(Some(SettingsOf(payload)))
    else if Get(v, "type") != JStr("event_msg") then Done(None)
    else if Unhashable(Get(payload, "type")) then Raised
    else if Get(payload, "type") == JStr("session_configured")
        || Get(payload, "type") == JStr("thread_settings_applied")
    then Done(Some(SettingsOf(payload)))
    else Done(None)
  }

  function SettingsModel(t: Tools, s: Settings): seq<Detail> {
    var model, provider, effort := Label(s.model, t.env.modelName), Label(s.provider, t.env.provider),
        Label(s.effort, t.env.effort);
    if model.Some? || provider.Some? || effort.Some? then [Model(model, provider, effort)] else []
  }

  function SettingsInvalid(t: Tools, s: Settings, cov: Coverage): Coverage {
    Invalid(Invalid(Invalid(cov, s.model != JNull && Label(s.model, t.env.modelName).None?),
                    s.provider != JNull && Label(s.provider, t.env.provider).None?),
            s.effort != JNull && Label(s.effort, t.env.effort).None?)
  }

  predicate ModelChanges(t: Tools, s: Settings, lastModel: Option<string>) {
    Label(s.model, t.env.modelName).Some? && lastModel.Some? && Label(s.model, t.env.modelName) != lastModel
  }

  /** `_metadata_partials`. */
  function SettingsDetails(t: Tools, v: Object, s: Settings, lastModel: Option<string>): seq<Detail> {
    (if Get(v, "type") == JStr("session_meta") then [Lifecycle(SessionStarted, None)] else [])
    + SettingsModel(t, s)
    + (if ModelChanges(t, s, lastModel) then [Lifecycle(ModelChanged, None)] else [])
  }

  function TokenField(k: nat): (string, string)
    requires k < 3
  {
    if k == 0 then ("input_tokens", "input_tokens")
    else if k == 1 then ("output_tokens", "output_tokens")
    else ("cached_input_tokens", "cache_read_input_tokens")
  }

  /** The counts of the first `n` fields, or None once one is not a count. */
  function TokensUpTo(usage: Object, n: nat): Option<map<string, nat>>
    requires n <= 3
  {
    if n == 0 then Some(map[])
    else
      var before := TokensUpTo(usage, n - 1);
      var (source, target) := TokenField(n - 1);
      if before.None? then None
      else if source !in usage then before
      else if usage[source].JInt? && usage[source].n >= 0 then Some(before.value[target := usage[source].n])
      else None
  }

  /** `_token_partial`: the details, and whether the usage is malformed. */
  function TokenPartial(payload: Object): (seq<Detail>, bool) {
    var info := Get(payload, "info");
    if info == JNull then ([], false)
    else if !info.JObj? then ([], true)
    else
      var usage := Get(info.fields, "last_token_usage");
      if usage == JNull then ([], false)
      else if !usage.JObj? then ([], true)
      else
        match TokensUpTo(usage.fields, 3)
        case None => ([], true)
        case Some(counts) => (if counts == map[] then [] else [Tokens(counts)], false)
  }

  predicate IsCompaction(v: Object) {
    Get(v, "type") == JStr("compacted")
        || (Get(v, "type") == JStr("event_msg") && Get(PayloadOf(v), "type") == JStr("context_compacted"))
  }

  function CompactionSeen(v: Object, cov: Coverage): Coverage {
    if Get(v, "type") == JStr("compacted") && Get(PayloadOf(v), "message").JStr?
    then cov.(blocksSeen := cov.blocksSeen + 1, contentUnknown := cov.contentUnknown + 1) else cov
  }

  predicate NewGeneration(generation: Option<nat>, last: Option<nat>) {
    generation.Some? && (last.None? || generation.value > last.value)
  }

  // ---- Records of unknown authorship -----------------------------------------

  function UnknownPart(t: Tools, m: Message, b: Json): Tried<Message> {
    var seen := m.(cov := m.cov.(blocksSeen := m.cov.blocksSeen + 1));
    if OddBlock(b) then Raised
    else Done(if IsMessageBlock(b) then UnknownCandidate(t.env, seen, Get(b.fields, "text")) else Unsupported(seen))
  }

  function UnknownParts(t: Tools, m: Message, blocks: seq<Json>): Tried<Message> {
    if blocks == [] then Done(m)
    else
      var before :- UnknownParts(t, m, blocks[..|blocks| - 1]);
      UnknownPart(t, before, blocks[|blocks| - 1])
  }

  /** `_unknown_partials`. */
  function UnknownPartials(t: Tools, payload: Object, positions: Positions, cov: Coverage): Tried<Option<Message>> {
    var kind, start := Get(payload, "type"), Message([], positions, cov);
    if kind == JStr("message") && Get(payload, "content").JArr? then
      var m :- UnknownParts(t, start, Get(payload, "content").items);
      Done(Some(m))
    else if Unhashable(kind) then Raised
    else if IsOutput(kind) then
      Done(Some(UnknownCandidate(t.env, start.(cov := cov.(blocksSeen := cov.blocksSeen + 1)),
                                 OutputText(Get(payload, "output")))))
    else Done(None)
  }

  // ---- One record ------------------------------------------------------------

  /** What a record gives, and the model and generation known after it. */
  datatype Step = Step(out: Claude.Outcome, lastModel: Option<string>, last: Option<nat>)

  function Given(details: seq<Detail>, positions: Positions, cov: Coverage): Claude.Outcome {
    Claude.Outcome.Outcome(Some(details), None, positions, cov)
  }

  function Quiet(kind: Json): bool {
    kind == JStr("compaction") || kind == JStr("context_compaction") || kind == JStr("reasoning")
  }

  /** A `response_item` record. */
  function ItemOutcome(t: Tools, ctx: Context, v: Object, generation: Option<nat>, positions: Positions,
                       cov: Coverage): Tried<Claude.Outcome> {
    var payload := PayloadOf(v);
    var kind := Get(payload, "type");
    if kind == JStr("message") then
      var m :- MessagePartials(t, ctx, payload, positions, cov);
      Done(if m.None? then Unparsed(positions, Invalid(cov, generation.Some?))
           else Given(m.value.details, m.value.positions, Invalid(m.value.cov, generation.Some?)))
    else if Unhashable(kind) then Raised
    else if DetailsOfCall(payload).Some? then
      var m :- CallPartials(t, ctx, DetailsOfCall(payload).value, positions, cov);
      Done(Given(m.details, m.positions, Invalid(m.cov, generation.Some?)))
    else if IsOutput(kind) then
      var m :- OutputPartials(t, ctx, payload, positions, cov);
      Done(Given(m.details, m.positions, Invalid(m.cov, generation.Some?)))
    else if Quiet(kind) then Done(Given([], positions, Invalid(cov, generation.Some?)))
    else Done(Unparsed(positions, Invalid(cov, generation.Some?)))
  }

  predicate QuietEvent(kind: Json) {
    kind == JStr("task_started") || kind == JStr("turn_started") || kind == JStr("task_complete")
        || kind == JStr("turn_complete")
  }

  /** An `event_msg` record, whose kind `SettingsRecord` has found hashable. */
  function EventOutcome(v: Object, generation: Option<nat>, positions: Positions, cov: Coverage): Claude.Outcome {
    var payload := PayloadOf(v);
    var kind := Get(payload, "type");
    if kind == JStr("token_count") then
      var (details, bad) := TokenPartial(payload);
      Given(details, positions, Invalid(Invalid(cov, bad), generation.Some?))
    else if QuietEvent(kind) then Given([], positions, Invalid(cov, generation.Some?))
    else Unparsed(positions, Invalid(cov, generation.Some?))
  }

  /** `_record_partials`. */
  function RecordPartials(t: Tools, ctx: Context, v: Object, unknown: bool, generation: Option<nat>,
                          lastModel: Option<string>,
                          last: Option<nat>, positions: Positions, cov: Coverage): Tried<Step> {
    if !Get(v, "payload").JObj? then Done(Step(Unparsed(positions, cov), lastModel, last))
    else if unknown then
      var m :- UnknownPartials(t, PayloadOf(v), positions, cov);
      Done(Step(if m.None? then Unparsed(positions, cov)
                else if m.value.details == [] then Unparsed(positions, m.value.cov)
                else Given(m.value.details, m.value.positions, m.value.cov), lastModel, last))
    else if IsCompaction(v) then
      var raised := NewGeneration(generation, last);
      Done(Step(Given([Lifecycle(ContextBoundary, if raised then generation else None)], positions,
                      Invalid(CompactionSeen(v, cov), generation.Some? && !raised)),
                lastModel, if raised then generation else last))
    else
      var settings :- SettingsRecord(v);
      if settings.Some? then
        var model := Label(settings.value.model, t.env.modelName);
        Done(Step(Given(SettingsDetails(t, v, settings.value, lastModel), positions,
                        Invalid(SettingsInvalid(t, settings.value, cov), generation.Some?)),
                  if model.Some? && model.value != "" then model else lastModel, last))
      else if Get(v, "type") == JStr("response_item") then
        var out :- ItemOutcome(t, ctx, v, generation, positions, cov);
        Done(Step(out, lastModel, last))
      else if Get(v, "type") == JStr("event_msg") then
          Done(Step(EventOutcome(v, generation, positions, cov), lastModel, last))
      else Done(Step(Unparsed(positions, cov), lastModel, last))
  }

  /** The time is read, and counted when malformed, only for a record that parsed. */
  function Stamped(t: Tools, v: Object, out: Claude.Outcome): Claude.Outcome {
    if out.details.None? then out
    else out.(observedAt := t.env.instant(Get(v, "timestamp")), cov := Invalid(out.cov, StampInvalid(t.env, v)))
  }

  // ---- Sessions and the corpus -----------------------------------------------

  datatype Walk = Walk(progress: Progress, lastModel: Option<string>)

  function ChainParent(i: nat): ParentLink {
    if i == 0 then RootRecord else LinkedParent(i - 1)
  }

  function CodexContext(t: Tools, s: VerifiedSession, episode: Option<EpisodeId>): SessionContext {
    SessionContext(s, episode, SubjectObjects(t.env, s.records), false, None)
  }

  /** One iteration of the record loop of `normalize_codex`. */
  function WalkStep(t: Tools, sc: SessionContext, w: Walk, i: nat): Tried<Walk>
    requires i < |sc.session.records|
  {
    var r := sc.session.records[i];
    var p := w.progress;
    match t.env.decode(r.raw)
    case None => Done(w.(progress := p.(cov := p.cov.(recordsMalformed := p.cov.recordsMalformed + 1))))
    case Some(v) =>
      var ctx := Context(i, r.commitment, sc.session.repo, None, sc.objects);
      var step :- RecordPartials(t, ctx, v, r.attribution == UnknownAuthor, r.generation, w.lastModel, p.last,
                                 p.positions, p.cov);
      Done(Walk(Finish(p, sc, i, ChainParent(i), Stamped(t, v, step.out), step.last), step.lastModel))
  }

  function WalkUpTo(t: Tools, sc: SessionContext, w: Walk, n: nat): Tried<Walk>
    requires n <= |sc.session.records|
  {
    if n == 0 then Done(w)
    else
      var before :- WalkUpTo(t, sc, w, n - 1);
      WalkStep(t, sc, before, n - 1)
  }

  function CodexManifest(sc: SessionContext, st: Stitched): ManifestSession {
    ManifestSession(sc.session.id, |sc.session.records|, sc.session.startedAt, GitClosure(sc.session),
                    sc.session.parent,
                    sc.episode, Lookup(st.inferred, sc.session.id), None, false)
  }

  function CodexSession(t: Tools, st: Stitched, c: Growth, s: VerifiedSession): Tried<Growth> {
    var sc := CodexContext(t, s, Lookup(st.ids, s.id));
    var w :- WalkUpTo(t, sc, Walk(Progress(c.events, Started(c.cov, s), map[], None), None), |s.records|);
    Done(Growth(w.progress.events, w.progress.cov, c.sessions + [CodexManifest(sc, st)]))
  }

  function CodexSessions(t: Tools, st: Stitched, sessions: seq<VerifiedSession>): Tried<Growth> {
    if sessions == [] then Done(Growth([], NO_COVERAGE.(lineageUnresolved := st.unresolvedCount), []))
    else
      var before :- CodexSessions(t, st, sessions[..|sessions| - 1]);
      CodexSession(t, st, before, sessions[|sessions| - 1])
  }

  /** The artifact `normalize_codex` writes for checked sessions. */
  function CodexNormalized(t: Tools, sessions: seq<VerifiedSession>, st: Stitched): Tried<Artifact> {
    var c :- CodexSessions(t, st, sessions);
    Done(Written(t.env, c))
  }

  // ---- When it raises --------------------------------------------------------

  predicate HasOddBlock(content: Json) {
    content.JArr? && exists k :: 0 <= k < |content.items| && OddBlock(content.items[k])
  }

  /** The payload of a record of unknown authorship reaches a set test with a list or an object. */
  predicate UnknownTrips(payload: Object) {
    if Get(payload, "type") == JStr("message") then HasOddBlock(Get(payload, "content"))
    else Unhashable(Get(payload, "type"))
  }

  predicate MessageTrips(payload: Object) {
    var role := Get(payload, "role");
    Unhashable(role) || ((role == JStr("user") || role == JStr("assistant")) && HasOddBlock(Get(payload, "content")))
  }

  /** So does the payload of a subject's item, or its call has arguments without a UTF-8 form. */
  predicate ItemTrips(t: Tools, payload: Object) {
    if Get(payload, "type") == JStr("message") then MessageTrips(payload)
    else
      || Unhashable(Get(payload, "type"))
      || (DetailsOfCall(payload).Some? && OddInput(t, DetailsOfCall(payload).value.input))
      || (IsOutput(Get(payload, "type")) && Unhashable(Get(payload, "status")))
  }

  /** Told from the decoded record alone. */
  predicate Trips(t: Tools, v: Object, unknown: bool) {
    && Get(v, "payload").JObj?
    && var payload := PayloadOf(v);
       if unknown then UnknownTrips(payload)
       else
         || (Get(v, "type") == JStr("event_msg") && Unhashable(Get(payload, "type")))
         || (Get(v, "type") == JStr("response_item") && ItemTrips(t, payload))
  }

  predicate RecordTrips(t: Tools, r: VerifiedRecord) {
    t.env.decode(r.raw).Some? && Trips(t, t.env.decode(r.raw).value, r.attribution == UnknownAuthor)
  }

  /** Some admitted record of some session trips. */
  predicate AnyTrips(t: Tools, sessions: seq<VerifiedSession>) {
    exists j, k :: 0 <= j < |sessions| && 0 <= k < |sessions[j].records| && RecordTrips(t, sessions[j].records[k])
  }
}
