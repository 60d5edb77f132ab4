/** The second producer states of every record exactly what the record says, whenever it does not raise. */
module CodexReadings {
  import opened Records
  import opened Episodes
  import opened Corpus
  import opened CorpusBuild
  import opened CorpusLineage
  import opened Transcripts
  import opened Claude
  import opened Codex
  import opened Readings

  // ---- What a record says ----------------------------------------------------

  const CODEX_TOKEN_NAMES: map<string, string> := map[
    "input_tokens" := "input_tokens", "output_tokens" := "output_tokens",
    "cached_input_tokens" := "cache_read_input_tokens"]

  predicate IsOf(v: Object, kind: string) {
    Get(v, "type") == JStr(kind)
  }

  /** A member of the record's payload; null when the payload is not an object. */
  function Member(v: Object, key: string): Json {
    if Get(v, "payload").JObj? then Get(Get(v, "payload").fields, key) else JNull
  }

  predicate Compacts(v: Object) {
    && Get(v, "payload").JObj?
    && (IsOf(v, "compacted") || (IsOf(v, "event_msg") && Member(v, "type") == JStr("context_compacted")))
  }

  /** A compaction of the subject. */
  predicate Boundary(env: Env, r: VerifiedRecord) {
    Spoken(env, r).Some? && Compacts(Spoken(env, r).value)
  }

  function Boundaries(env: Env): VerifiedRecord -> bool {
    r => Boundary(env, r)
  }

  /** The model, the provider and the effort a settings record names. */
  datatype Named = Named(model: Json, provider: Json, effort: Json)

  /** The second of two members counts when the first is missing or empty. */
  function Either(first: Json, second: Json): Json {
    if first in [JNull, JBool(false), JInt(0), JReal(true), JStr(""), JArr([]), JObj(map[])] then second else first
  }

  function DirectlyNamed(v: Object): Named {
    Named(Member(v, "model"), Either(Member(v, "model_provider"), Member(v, "model_provider_id")),
          Either(Member(v, "effort"), Member(v, "reasoning_effort")))
  }

  function AppliedNames(settings: Json): Named {
    if !settings.JObj? then Named(JNull, JNull, JNull)
    else Named(Get(settings.fields, "model"), Get(settings.fields, "model_provider_id"),
               Get(settings.fields, "reasoning_effort"))
  }

  function SettingsIn(v: Object): Option<Named> {
    if IsOf(v, "session_meta") then Some(Named(JNull, Member(v, "model_provider"), JNull))
    else if (IsOf(v, "turn_context") || IsOf(v, "event_msg"))
        && Member(v, "type") == JStr("thread_settings_applied") then
        Some(AppliedNames(Member(v, "thread_settings")))
    else if IsOf(v, "turn_context") || (IsOf(v, "event_msg") && Member(v, "type") == JStr("session_configured")) then
        Some(DirectlyNamed(v))
    else None
  }

  /** A record of the subject names a model, not the empty string, that is allowed. */
  predicate Names(env: Env, r: VerifiedRecord) {
    && Spoken(env, r).Some?
    && var v := Spoken(env, r).value;
       && Get(v, "payload").JObj? && !Compacts(v) && SettingsIn(v).Some?
       && Allowed(SettingsIn(v).value.model, env.modelName) && SettingsIn(v).value.model.s != ""
  }

  function ModelIn(env: Env, r: VerifiedRecord): string
    requires Names(env, r)
  {
    SettingsIn(Spoken(env, r).value).value.model.s
  }

  /** The last record before `i` that names a model names this one. */
  predicate NamedBefore(env: Env, s: VerifiedSession, i: nat, model: string)
    requires i <= |s.records|
  {
    exists j :: 0 <= j < i && Names(env, s.records[j]) && ModelIn(env, s.records[j]) == model
                && forall k :: j < k < i ==> !Names(env, s.records[k])
  }

  predicate ModelMoves(env: Env, s: VerifiedSession, i: nat, model: Json)
    requires i < |s.records|
  {
    && Allowed(model, env.modelName)
    && (exists j :: 0 <= j < i && Names(env, s.records[j])) && !NamedBefore(env, s, i, model.s)
  }

  /** The start of the session, the names, and a change of model, in this order. */
  function SettingsFacts(env: Env, s: VerifiedSession, i: nat, v: Object, n: Named): seq<Fact>
    requires i < |s.records|
  {
    (if IsOf(v, "session_meta") then [Marks(SessionStarted, None)] else [])
    + NamedModel(env, n.model, n.provider, n.effort)
    + (if ModelMoves(env, s, i, n.model) then [Marks(ModelChanged, None)] else [])
  }

  /** The agent's texts are output, all others input; the wrong one for the speaker says nothing. */
  function TextFacts(env: Env, assistant: bool, b: Json): seq<Fact> {
    if !b.JObj? || !Get(b.fields, "text").JStr? then []
    else
      var text := Get(b.fields, "text");
      if assistant then
        (if Get(b.fields, "type") == JStr("output_text") then [SaidBy(Agent, text, text.s != "")] else [])
      else if Get(b.fields, "type") != JStr("input_text") then []
      else if env.paste(text.s) then [PastedText(text)]
      else [SaidBy(Human, text, false)]
  }

  function TextsFacts(env: Env, assistant: bool, blocks: seq<Json>): seq<Fact> {
    if blocks == [] then []
    else TextsFacts(env, assistant, blocks[..|blocks| - 1]) + TextFacts(env, assistant, blocks[|blocks| - 1])
  }

  /** Name, input and id of a call, by the kind of item it is. */
  function CallIn(v: Object): Option<CallDetails> {
    if !Member(v, "type").JStr? then None
    else
      match Member(v, "type").s
      case "function_call" => Some(CallDetails(Member(v, "name"), Member(v, "arguments"), Member(v, "call_id")))
      case "custom_tool_call" => Some(CallDetails(Member(v, "name"), Member(v, "input"), Member(v, "call_id")))
      case "local_shell_call" =>
        Some(CallDetails(JStr("shell"), Member(v, "action"), Either(Member(v, "call_id"), Member(v, "id"))))
      case "tool_search_call" => Some(CallDetails(JStr("tool_search"), Member(v, "arguments"), Member(v, "call_id")))
      case "web_search_call" => Some(CallDetails(JStr("web_search"), Member(v, "action"), Member(v, "id")))
      case _ => None
  }

  /** The call, then what its decoded input gives away. */
  function CallFacts(t: Tools, call: CallDetails): seq<Fact> {
    [Calls(call.name, call.id, call.input != JNull)]
    + (if call.input != JNull then FoundIn(t.env, call.name, t.classified(call.name, call.input)) else [])
  }

  predicate OutputKind(kind: Json) {
    kind in [JStr("function_call_output"), JStr("custom_tool_call_output"), JStr("tool_search_output")]
  }

  function ItemFacts(t: Tools, v: Object): Option<seq<Fact>> {
    var kind, role, content := Member(v, "type"), Member(v, "role"), Member(v, "content");
    if kind == JStr("message") then
      (if role in [JStr("user"), JStr("assistant")] && content.JArr?
       then Some(TextsFacts(t.env, role == JStr("assistant"), content.items)) else None)
    else if CallIn(v).Some? then Some(CallFacts(t, CallIn(v).value))
    else if OutputKind(kind) then Some([CodexResult(Get(v, "payload").fields)])
    else if kind in [JStr("compaction"), JStr("context_compaction"), JStr("reasoning")] then Some([])
    else None
  }

  function UsageFacts(info: Json): seq<Fact> {
    if info.JObj? then CountedTokens(Get(info.fields, "last_token_usage"), CODEX_TOKEN_NAMES) else []
  }

  function MessageFacts(v: Object): Option<seq<Fact>> {
    if Member(v, "type") == JStr("token_count") then Some(UsageFacts(Member(v, "info")))
    else if Member(v, "type") in [JStr("task_started"), JStr("turn_started"), JStr("task_complete"),
                                  JStr("turn_complete")]
    then Some([])
    else None
  }

  /** What a record of the subject says, or None when it is not supported. */
  function SubjectFacts(t: Tools, s: VerifiedSession, i: nat, v: Object): Option<seq<Fact>>
    requires i < |s.records|
  {
    if !Get(v, "payload").JObj? then None
    else if Compacts(v) then
      Some([Marks(ContextBoundary, if Newest(s, Boundaries(t.env), i) then s.records[i].generation else None)])
    else if SettingsIn(v).Some? then Some(SettingsFacts(t.env, s, i, v, SettingsIn(v).value))
    else if IsOf(v, "response_item") then ItemFacts(t, v)
    else if IsOf(v, "event_msg") then MessageFacts(v)
    else None
  }

  /** Of a record of unknown authorship only the shapes of its texts are kept. */
  function ShapeFacts(b: Json): seq<Fact> {
    if b.JObj? && Get(b.fields, "type") in [JStr("input_text"), JStr("output_text")] && Get(b.fields, "text").JStr?
    then [PastedText(Get(b.fields, "text"))] else []
  }

  function ShapesFacts(blocks: seq<Json>): seq<Fact> {
    if blocks == [] then [] else ShapesFacts(blocks[..|blocks| - 1]) + ShapeFacts(blocks[|blocks| - 1])
  }

  function TextIn(output: Json): Json {
    if output.JObj? then Get(output.fields, "content") else output
  }

  function UnknownFacts(v: Object): seq<Fact> {
    if Member(v, "type") == JStr("message") then
      (if Member(v, "content").JArr? then ShapesFacts(Member(v, "content").items) else [])
    else if OutputKind(Member(v, "type")) && TextIn(Member(v, "output")).JStr? then
      [PastedText(TextIn(Member(v, "output")))]
    else []
  }

  function RecordFacts(t: Tools, s: VerifiedSession, i: nat, v: Object): Option<seq<Fact>>
    requires i < |s.records|
  {
    if s.records[i].attribution == UnknownAuthor then
      (if UnknownFacts(v) == [] then None else Some(UnknownFacts(v)))
    else SubjectFacts(t, s, i, v)
  }

  /** Records form a chain: the parent of each is the one before it. */
  function RecordSaid(t: Tools, s: VerifiedSession, i: nat): Option<Saying>
    requires i < |s.records|
  {
    match t.env.decode(s.records[i].raw)
    case None => None
    case Some(v) =>
      match RecordFacts(t, s, i, v)
      case None => None
      case Some(facts) =>
        Some(Saying(facts, t.env.instant(Get(v, "timestamp")), if i == 0 then RootRecord else LinkedParent(i - 1)))
  }

  function Sayings(t: Tools, s: VerifiedSession): (r: seq<Option<Saying>>)
    ensures |r| == |s.records| && forall i :: 0 <= i < |r| ==> r[i] == RecordSaid(t, s, i)
  {
    seq(|s.records|, i requires 0 <= i < |s.records| => RecordSaid(t, s, i))
  }

  /** The subject's record `j` is a call under this id. */
  predicate Gives(env: Env, s: VerifiedSession, j: nat, id: string) {
    && j < |s.records| && Spoken(env, s.records[j]).Some? && IsOf(Spoken(env, s.records[j]).value, "response_item")
    && CallIn(Spoken(env, s.records[j]).value).Some? && CallIn(Spoken(env, s.records[j]).value).value.id == JStr(id)
  }

  /** The session gives the id to two calls. */
  ghost predicate GivenTwice(env: Env, s: VerifiedSession, id: string) {
    exists j: nat, k: nat :: j < k && Gives(env, s, j, id) && Gives(env, s, k, id)
  }

  // ---- The source's tables and these -----------------------------------------

  lemma PayloadIs(v: Object, key: string)
    requires Get(v, "payload").JObj?
    ensures Get(PayloadOf(v), key) == Member(v, key)
  {
  }

  lemma CallIs(v: Object)
    ensures (if Get(v, "payload").JObj? then DetailsOfCall(PayloadOf(v)) else None) == CallIn(v)
  {
  }

  predicate SameNames(a: Settings, b: Named) {
    a.model == b.model && a.provider == b.provider && a.effort == b.effort
  }

  lemma OrIs(a: Json, b: Json)
    ensures Or(a, b) == Either(a, b)
  {
  }

  /** Names of the payload: applied ones when its type says so, else its own. */
  lemma NamesAre(v: Object)
    requires Get(v, "payload").JObj?
    ensures SameNames(SettingsOf(PayloadOf(v)),
                      if Member(v, "type") == JStr("thread_settings_applied")
                      then AppliedNames(Member(v, "thread_settings")) else DirectlyNamed(v))
  {
    OrIs(Member(v, "model_provider"), Member(v, "model_provider_id"));
    OrIs(Member(v, "effort"), Member(v, "reasoning_effort"));
    hide Or, Either;
  }

  lemma SettingsAre(v: Object)
    requires Get(v, "payload").JObj? && !Compacts(v) && SettingsRecord(v).Done?
    ensures SettingsRecord(v).value.Some? <==> SettingsIn(v).Some?
    ensures SettingsIn(v).Some? ==> SameNames(SettingsRecord(v).value.value, SettingsIn(v).value)
  {
    NamesAre(v);
    PayloadIs(v, "type");
    PayloadIs(v, "model_provider");
    hide PayloadOf, Member, SettingsOf, AppliedNames, DirectlyNamed, Compacts;
  }

  // ---- Messages, calls and outputs -------------------------------------------

  /** The reader knows the call of each result from what was noted. */
  ghost predicate Knows(r: Reader, ctx: Context, positions: Positions) {
    forall id :: r.relation(id) == RelationOf(id, CallsGiven(ctx, id), positions)
  }

  lemma TextReads(r: Reader, t: Tools, ctx: Context, assistant: bool, m: Message, index: nat, b: Json)
    requires r.env == t.env && MessageBlock(t, ctx, assistant, m, index, b).Done?
    ensures var after := MessageBlock(t, ctx, assistant, m, index, b).value;
            Adds(r, m.details, after.details, TextFacts(r.env, assistant, b)) && after.positions == m.positions
  {
    AddsNothing(r, m.details);
    hide AllRead, Adds;
    var seen := m.(cov := m.cov.(blocksSeen := m.cov.blocksSeen + 1));
    if IsMessageBlock(b) && Get(b.fields, "text").JStr? {
      var text := Get(b.fields, "text");
      if assistant && Get(b.fields, "type") == JStr("output_text") {
        var pointer := if text.s != "" then Some(TextPointer(Some(index), 0, |text.s|, ctx.commitment)) else None;
        AddsOne(r, seen, Turn(Agent, r.env.shape(text), pointer), SaidBy(Agent, text, text.s != ""));
      } else if !assistant && r.env.paste(text.s) {
        AddsOne(r, seen, Detail.Pasted(r.env.shape(text)), PastedText(text));
      } else if !assistant {
        AddsOne(r, seen, Turn(Human, r.env.shape(text), None), SaidBy(Human, text, false));
      }
    }
  }

  lemma {:induction false} TextsRead(r: Reader, t: Tools, ctx: Context, assistant: bool, m: Message, blocks: seq<Json>)
    requires r.env == t.env && MessageBlocks(t, ctx, assistant, m, blocks).Done?
    ensures var after := MessageBlocks(t, ctx, assistant, m, blocks).value;
            Adds(r, m.details, after.details, TextsFacts(r.env, assistant, blocks)) && after.positions == m.positions
  {
    if blocks == [] {
      AddsNothing(r, m.details);
    } else {
      hide Adds, MessageBlock, TextFacts;
      var n := |blocks| - 1;
      TextsRead(r, t, ctx, assistant, m, blocks[..n]);
      var before := MessageBlocks(t, ctx, assistant, m, blocks[..n]).value;
      TextReads(r, t, ctx, assistant, before, n, blocks[n]);
      AddsThen(r, m.details, before.details, MessageBlocks(t, ctx, assistant, m, blocks).value.details,
               TextsFacts(r.env, assistant, blocks[..n]), TextFacts(r.env, assistant, blocks[n]));
    }
  }

  lemma FoundInCall(r: Reader, t: Tools, ctx: Context, call: CallDetails, noted: Message)
    requires r.env == t.env && r.repo == ctx.repo
    ensures Adds(r, noted.details, CallFound(t, ctx, call, noted).details,
                 if call.input != JNull then FoundIn(r.env, call.name, t.classified(call.name, call.input)) else [])
    ensures CallFound(t, ctx, call, noted).positions == noted.positions
  {
    AddsNothing(r, noted.details);
    if call.input != JNull {
      FoundReads(r, ctx, noted, 0, call.name, t.classified(call.name, call.input), InputPointer(0, ctx.commitment));
    }
    hide Adds, FoundIn;
  }

  lemma CallReads(r: Reader, t: Tools, ctx: Context, call: CallDetails, positions: Positions, cov: Coverage)
    requires r.env == t.env && r.repo == ctx.repo && CallPartials(t, ctx, call, positions, cov).Done?
    ensures AllRead(r, CallPartials(t, ctx, call, positions, cov).value.details, CallFacts(t, call))
    ensures CallPartials(t, ctx, call, positions, cov).value.positions
            == if call.id.JStr? && CallsGiven(ctx, call.id) == 1 then positions[call.id.s := (ctx.record, 0)]
               else positions
  {
    var start := Message([], positions, cov.(blocksSeen := cov.blocksSeen + 1));
    var noted := CallNoted(t, ctx, call, positions, cov);
    var found := CallFound(t, ctx, call, noted);
    var first := Calls(call.name, call.id, call.input != JNull);
    AddsOne(r, start, ToolCall(r.env.family(call.name), CallPointer(ctx, call)), first);
    FoundInCall(r, t, ctx, call, noted);
    hide Adds, CallFound, FoundIn, CallsGiven, AllRead, OddInput;
    var more := if call.input != JNull then FoundIn(r.env, call.name, t.classified(call.name, call.input)) else [];
    AddsThen(r, [], noted.details, found.details, [first], more);
    AddsAll(r, found.details, [first] + more);
  }

  lemma OutputReads(r: Reader, t: Tools, ctx: Context, payload: Object, positions: Positions, cov: Coverage)
    requires r.env == t.env && Knows(r, ctx, positions) && OutputPartials(t, ctx, payload, positions, cov).Done?
    ensures AllRead(r, OutputPartials(t, ctx, payload, positions, cov).value.details, [CodexResult(payload)])
    ensures OutputPartials(t, ctx, payload, positions, cov).value.positions == positions
  {
    var m := OutputPartials(t, ctx, payload, positions, cov).value;
    hide RelationOf, CallsGiven;
    assert OutputRead(Get(payload, "output"), OutputText(Get(payload, "output")));
    assert Reads(r, m.details[0], CodexResult(payload));
  }

  // ---- Settings, tokens, shapes ----------------------------------------------

  /** The counts of the first names in the list. */
  predicate IsCount(usage: Object, k: nat)
    requires k < 3
  {
    TokenField(k).0 in usage ==> usage[TokenField(k).0].JInt? && usage[TokenField(k).0].n >= 0
  }

  ghost predicate CountsRead(usage: Object, n: nat, counts: map<string, nat>)
    requires n <= 3
  {
    && (forall k: nat :: k < n && TokenField(k).0 in usage ==>
          usage[TokenField(k).0].JInt? && TokenField(k).1 in counts
          && usage[TokenField(k).0].n == counts[TokenField(k).1])
    && (forall name :: name in counts ==>
          exists k: nat :: k < n && TokenField(k).1 == name && TokenField(k).0 in usage)
  }

  /** The fields are the entries of the table, each under its own new name. */
  lemma NamesListed()
    ensures forall k: nat :: k < 3 ==>
              TokenField(k).0 in CODEX_TOKEN_NAMES && CODEX_TOKEN_NAMES[TokenField(k).0] == TokenField(k).1
    ensures forall key :: key in CODEX_TOKEN_NAMES ==> exists k: nat :: k < 3 && TokenField(k).0 == key
    ensures forall j: nat, k: nat :: j < k < 3 ==> TokenField(j).1 != TokenField(k).1
  {
    assert |TokenField(0).1| == 12 && |TokenField(1).1| == 13 && |TokenField(2).1| == 23;
    assert |TokenField(0).0| == 12 && |TokenField(1).0| == 13 && |TokenField(2).0| == 19;
  }

  lemma CountsMore(usage: Object, n: nat, counts: map<string, nat>)
    requires n < 3 && CountsRead(usage, n, counts) && IsCount(usage, n)
    ensures CountsRead(usage, n + 1,
                       if TokenField(n).0 in usage then counts[TokenField(n).1 := usage[TokenField(n).0].n] else counts)
  {
    NamesListed();
    hide TokenField;
  }

  lemma {:induction false} CountsUpTo(usage: Object, n: nat)
    requires n <= 3
    ensures TokensUpTo(usage, n).Some? <==> forall k: nat :: k < n ==> IsCount(usage, k)
    ensures TokensUpTo(usage, n).Some? ==> CountsRead(usage, n, TokensUpTo(usage, n).value)
  {
    if n > 0 {
      CountsUpTo(usage, n - 1);
      hide TokenField, CountsRead;
      assert TokensUpTo(usage, n).Some? <==> TokensUpTo(usage, n - 1).Some? && IsCount(usage, n - 1);
      if TokensUpTo(usage, n).Some? {
        CountsMore(usage, n - 1, TokensUpTo(usage, n - 1).value);
      }
    } else {
      hide TokenField;
    }
  }

  lemma CountsAre(usage: Object, counts: map<string, nat>)
    requires CountsRead(usage, 3, counts)
    ensures TokensRead(usage, CODEX_TOKEN_NAMES, counts) && (counts != map[] <==> SomeCounted(usage, CODEX_TOKEN_NAMES))
  {
    NamesListed();
    var names := CODEX_TOKEN_NAMES;
    hide TokenField;
    forall key | key in names && key in usage
      ensures usage[key].JInt? && names[key] in counts && usage[key].n == counts[names[key]]
    {
      var k: nat :| k < 3 && TokenField(k).0 == key;
    }
    forall name | name in counts
      ensures exists key :: key in names && key in usage && names[key] == name
    {
      var k: nat :| k < 3 && TokenField(k).1 == name && TokenField(k).0 in usage;
      assert names[TokenField(k).0] == name;
    }
    if counts != map[] {
      var name :| name in counts;
    }
  }

  lemma AllCountsIs(usage: Object)
    ensures AllCounts(usage, CODEX_TOKEN_NAMES) <==> forall k: nat :: k < 3 ==> IsCount(usage, k)
  {
    NamesListed();
    var names := CODEX_TOKEN_NAMES;
    hide TokenField;
    if forall k: nat :: k < 3 ==> IsCount(usage, k) {
      forall key | key in names && key in usage
        ensures usage[key].JInt? && usage[key].n >= 0
      {
        var k: nat :| k < 3 && TokenField(k).0 == key;
        assert IsCount(usage, k);
      }
    }
  }

  lemma UsageReads(r: Reader, v: Object)
    requires Get(v, "payload").JObj?
    ensures AllRead(r, TokenPartial(PayloadOf(v)).0, UsageFacts(Member(v, "info")))
  {
    var info := Member(v, "info");
    PayloadIs(v, "info");
    hide TokensUpTo, Reads, AllCounts, SomeCounted, TokensRead, CountsRead, IsCount;
    if info.JObj? && Get(info.fields, "last_token_usage").JObj? {
      var usage := Get(info.fields, "last_token_usage").fields;
      var counts := TokensUpTo(usage, 3);
      CountsUpTo(usage, 3);
      AllCountsIs(usage);
      if counts.Some? {
        CountsAre(usage, counts.value);
      }
      CountedReads(r, usage, CODEX_TOKEN_NAMES, counts);
    }
  }

  lemma ShapeReads(r: Reader, t: Tools, m: Message, b: Json)
    requires r.env == t.env && UnknownPart(t, m, b).Done?
    ensures Adds(r, m.details, UnknownPart(t, m, b).value.details, ShapeFacts(b))
            && UnknownPart(t, m, b).value.positions == m.positions
  {
    var seen := m.(cov := m.cov.(blocksSeen := m.cov.blocksSeen + 1));
    AddsNothing(r, m.details);
    if b.JObj? {
      var text := Get(b.fields, "text");
      AddsOne(r, seen, Pasted(r.env.shape(text)), PastedText(text));
    }
    hide Adds;
  }

  lemma {:induction false} ShapesRead(r: Reader, t: Tools, m: Message, blocks: seq<Json>)
    requires r.env == t.env && UnknownParts(t, m, blocks).Done?
    ensures Adds(r, m.details, UnknownParts(t, m, blocks).value.details, ShapesFacts(blocks))
            && UnknownParts(t, m, blocks).value.positions == m.positions
  {
    if blocks == [] {
      AddsNothing(r, m.details);
    } else {
      hide Adds, UnknownPart, ShapeFacts;
      var n := |blocks| - 1;
      ShapesRead(r, t, m, blocks[..n]);
      var before := UnknownParts(t, m, blocks[..n]).value;
      ShapeReads(r, t, before, blocks[n]);
      AddsThen(r, m.details, before.details, UnknownParts(t, m, blocks).value.details, ShapesFacts(blocks[..n]),
               ShapeFacts(blocks[n]));
    }
  }

  lemma UnknownReads(r: Reader, t: Tools, v: Object, positions: Positions, cov: Coverage)
    requires r.env == t.env && Get(v, "payload").JObj? && UnknownPartials(t, PayloadOf(v), positions, cov).Done?
    ensures var m := UnknownPartials(t, PayloadOf(v), positions, cov).value;
            && (m.Some? && m.value.details != [] <==> UnknownFacts(v) != [])
            && (m.Some? ==> AllRead(r, m.value.details, UnknownFacts(v)) && m.value.positions == positions)
  {
    PayloadIs(v, "type");
    PayloadIs(v, "content");
    PayloadIs(v, "output");
    hide UnknownParts, ShapesFacts, PayloadOf, Member;
    var start := Message([], positions, cov);
    if Member(v, "type") == JStr("message") && Member(v, "content").JArr? {
      var blocks := Member(v, "content").items;
      ShapesRead(r, t, start, blocks);
      AddsAll(r, UnknownParts(t, start, blocks).value.details, ShapesFacts(blocks));
    }
  }

  // ---- The model known so far ------------------------------------------------

  ghost predicate ModelIs(env: Env, s: VerifiedSession, n: nat, lastModel: Option<string>)
    requires n <= |s.records|
  {
    && (lastModel.Some? ==> NamedBefore(env, s, n, lastModel.value))
    && (lastModel.None? ==> forall j :: 0 <= j < n ==> !Names(env, s.records[j]))
  }

  lemma MovesIs(env: Env, s: VerifiedSession, n: nat, lastModel: Option<string>, model: Json)
    requires n < |s.records| && ModelIs(env, s, n, lastModel)
    ensures ModelMoves(env, s, n, model) <==>
            Label(model, env.modelName).Some? && lastModel.Some? && Label(model, env.modelName) != lastModel
  {
    hide Names, ModelIn;
    if Allowed(model, env.modelName) && lastModel.Some? {
      var j :| 0 <= j < n && Names(env, s.records[j]) && ModelIn(env, s.records[j]) == lastModel.value
               && forall k :: j < k < n ==> !Names(env, s.records[k]);
      if NamedBefore(env, s, n, model.s) {
        var i :| 0 <= i < n && Names(env, s.records[i]) && ModelIn(env, s.records[i]) == model.s
                 && forall k :: i < k < n ==> !Names(env, s.records[k]);
        assert i == j;
      }
    }
  }

  lemma ModelFollows(env: Env, s: VerifiedSession, n: nat, lastModel: Option<string>, next: Option<string>)
    requires n < |s.records| && ModelIs(env, s, n, lastModel)
    requires next == if Names(env, s.records[n]) then Some(ModelIn(env, s.records[n])) else lastModel
    ensures ModelIs(env, s, n + 1, next)
  {
    hide Names, ModelIn;
    if !Names(env, s.records[n]) && lastModel.Some? {
      var j :| 0 <= j < n && Names(env, s.records[j]) && ModelIn(env, s.records[j]) == lastModel.value
               && forall k :: j < k < n ==> !Names(env, s.records[k]);
      assert forall k :: j < k < n + 1 ==> !Names(env, s.records[k]);
    }
  }

  lemma MarkReads(r: Reader, marked: bool, marker: Marker)
    ensures AllRead(r, if marked then [Lifecycle(marker, None)] else [], if marked then [Marks(marker, None)] else [])
  {
  }

  lemma SettingsRead(r: Reader, t: Tools, s: VerifiedSession, n: nat, v: Object, settings: Settings, named: Named,
                     lastModel: Option<string>)
    requires r.env == t.env && n < |s.records| && ModelIs(t.env, s, n, lastModel)
    requires SameNames(settings, named)
    ensures AllRead(r, SettingsDetails(t, v, settings, lastModel), SettingsFacts(t.env, s, n, v, named))
  {
    MovesIs(t.env, s, n, lastModel, named.model);
    ModelReads(r, named.model, named.provider, named.effort);
    hide ModelMoves, ModelIs, Label, NamedModel, AllRead, IsOf;
    var starts, moves := IsOf(v, "session_meta"), ModelMoves(t.env, s, n, named.model);
    MarkReads(r, starts, SessionStarted);
    MarkReads(r, moves, ModelChanged);
    var d := if starts then [Lifecycle(SessionStarted, None)] else [];
    var f := if starts then [Marks(SessionStarted, None)] else [];
    var names := NamedModel(t.env, named.model, named.provider, named.effort);
    ReadConcat(r, d, f, SettingsModel(t, settings), names);
    ReadConcat(r, d + SettingsModel(t, settings), f + names, if moves then [Lifecycle(ModelChanged, None)] else [],
               if moves then [Marks(ModelChanged, None)] else []);
    assert starts == (Get(v, "type") == JStr("session_meta")) by {
      OfType(v, "session_meta");
    }
  }

  lemma OfType(v: Object, kind: string)
    ensures IsOf(v, kind) == (Get(v, "type") == JStr(kind))
  {
  }

  // ---- One record ------------------------------------------------------------

  /** What an outcome states of the record, before it is stamped with its time. */
  ghost predicate Bears(r: Reader, facts: Option<seq<Fact>>, out: Claude.Outcome) {
    (facts.Some? <==> out.details.Some?) && (facts.Some? ==> AllRead(r, out.details.value, facts.value))
  }

  lemma ItemTells(r: Reader, t: Tools, ctx: Context, v: Object, generation: Option<nat>, positions: Positions,
                  cov: Coverage)
    requires r.env == t.env && r.repo == ctx.repo && Knows(r, ctx, positions) && Get(v, "payload").JObj?
    requires ItemOutcome(t, ctx, v, generation, positions, cov).Done?
    ensures var out := ItemOutcome(t, ctx, v, generation, positions, cov).value;
            && Bears(r, ItemFacts(t, v), out)
            && out.positions == if CallIn(v).Some? then Called(ctx, CallIn(v).value, positions) else positions
  {
    PayloadIs(v, "type");
    PayloadIs(v, "role");
    PayloadIs(v, "content");
    CallIs(v);
    hide PayloadOf, Member, MessageBlocks, CallPartials, CallFacts, TextsFacts, OutputPartials, DetailsOfCall, AllRead,
        Knows, Invalid, CallIn, Called;
    var payload, kind := PayloadOf(v), Member(v, "type");
    if kind == JStr("message") {
      NoCallMessage(v);
      var role, content := Member(v, "role"), Member(v, "content");
      if (role == JStr("user") || role == JStr("assistant")) && content.JArr? {
        var start := Message([], positions, cov);
        TextsRead(r, t, ctx, role == JStr("assistant"), start, content.items);
        AddsAll(r, MessageBlocks(t, ctx, role == JStr("assistant"), start, content.items).value.details,
                TextsFacts(r.env, role == JStr("assistant"), content.items));
      }
    } else if CallIn(v).Some? {
      CallReads(r, t, ctx, CallIn(v).value, positions, cov);
      CalledIs(ctx, CallIn(v).value, positions);
    } else if OutputKind(kind) {
      OutputReads(r, t, ctx, payload, positions, cov);
      assert payload == Get(v, "payload").fields by {
        PayloadFields(v);
      }
    } else {
      NothingRead(r);
    }
  }

  lemma NothingRead(r: Reader)
    ensures AllRead(r, [], [])
  {
  }

  lemma PayloadFields(v: Object)
    requires Get(v, "payload").JObj?
    ensures PayloadOf(v) == Get(v, "payload").fields
  {
  }

  lemma NoCallMessage(v: Object)
    requires Member(v, "type") == JStr("message")
    ensures CallIn(v).None?
  {
  }

  /** The positions after a call. */
  function Called(ctx: Context, call: CallDetails, positions: Positions): Positions {
    if call.id.JStr? && CallIdCount(ctx.objects, call.id.s) == 1 then positions[call.id.s := (ctx.record, 0)]
    else positions
  }

  lemma CalledIs(ctx: Context, call: CallDetails, positions: Positions)
    ensures Called(ctx, call, positions)
            == if call.id.JStr? && CallsGiven(ctx, call.id) == 1 then positions[call.id.s := (ctx.record, 0)]
               else positions
  {
  }

  /** The one call among a record's facts is its first. */
  function CallOf(v: Object): Option<CallDetails> {
    if IsOf(v, "response_item") then CallIn(v) else None
  }

  lemma CompactionStep(t: Tools, ctx: Context, v: Object, generation: Option<nat>, lastModel: Option<string>,
                       last: Option<nat>, positions: Positions, cov: Coverage)
    requires Compacts(v)
    ensures var step := RecordPartials(t, ctx, v, false, generation, lastModel, last, positions, cov);
            var newer := generation.Some? && (last.None? || generation.value > last.value);
            && step.Done? && step.value.lastModel == lastModel
            && step.value.last == (if newer then generation else last) && step.value.out.positions == positions
            && step.value.out.details == Some([Lifecycle(ContextBoundary, if newer then generation else None)])
  {
    PayloadIs(v, "type");
    hide PayloadOf, Member, Invalid, CompactionSeen, UnknownPartials, SettingsRecord, ItemOutcome, EventOutcome;
  }

  lemma CompactionTells(r: Reader, t: Tools, ctx: Context, s: VerifiedSession, n: nat, v: Object,
                        lastModel: Option<string>, last: Option<nat>, positions: Positions, cov: Coverage)
    requires r.env == t.env && n < |s.records| && Spoken(t.env, s.records[n]) == Some(v) && Compacts(v)
    requires LastIs(s, Boundaries(t.env), n, last)
    ensures var step := RecordPartials(t, ctx, v, false, s.records[n].generation, lastModel, last, positions, cov);
            && step.Done? && Bears(r, SubjectFacts(t, s, n, v), step.value.out) && step.value.out.positions == positions
            && LastIs(s, Boundaries(t.env), n + 1, step.value.last) && step.value.lastModel == lastModel
  {
    LastMoves(s, Boundaries(t.env), n, last);
    CompactionStep(t, ctx, v, s.records[n].generation, lastModel, last, positions, cov);
    hide LastIs, Newest, Compacts, RecordPartials, SettingsIn, ItemFacts, MessageFacts, Spoken;
    var details := [Lifecycle(ContextBoundary,
                              if Newest(s, Boundaries(t.env), n) then s.records[n].generation else None)];
    assert AllRead(r, details, SubjectFacts(t, s, n, v).value);
  }

  lemma SettingsTells(r: Reader, t: Tools, ctx: Context, s: VerifiedSession, n: nat, v: Object,
                      lastModel: Option<string>, last: Option<nat>, positions: Positions, cov: Coverage)
    requires r.env == t.env && n < |s.records| && Spoken(t.env, s.records[n]) == Some(v)
    requires Get(v, "payload").JObj? && !Compacts(v) && SettingsIn(v).Some? && ModelIs(t.env, s, n, lastModel)
    requires RecordPartials(t, ctx, v, false, s.records[n].generation, lastModel, last, positions, cov).Done?
    ensures var step := RecordPartials(t, ctx, v, false, s.records[n].generation, lastModel, last, positions,
                                       cov).value;
            && Bears(r, SubjectFacts(t, s, n, v), step.out) && step.out.positions == positions
            && step.last == last
            && step.lastModel == if Names(t.env, s.records[n]) then Some(ModelIn(t.env, s.records[n])) else lastModel
  {
    PayloadIs(v, "type");
    assert !IsCompaction(v);
    SettingsAre(v);
    hide SettingsIn, SettingsRecord, PayloadOf, Member, ModelIs, SettingsDetails, SettingsFacts, SettingsInvalid,
        Invalid, IsCompaction, Compacts;
    SettingsRead(r, t, s, n, v, SettingsRecord(v).value.value, SettingsIn(v).value, lastModel);
    hide AllRead, Spoken;
  }

  lemma EventTells(r: Reader, v: Object, generation: Option<nat>, positions: Positions, cov: Coverage)
    requires Get(v, "payload").JObj?
    ensures Bears(r, MessageFacts(v), EventOutcome(v, generation, positions, cov))
    ensures EventOutcome(v, generation, positions, cov).positions == positions
  {
    PayloadIs(v, "type");
    UsageReads(r, v);
    NothingRead(r);
    hide PayloadOf, Member, AllRead, TokenPartial, UsageFacts, Invalid;
  }

  lemma PlainTells(r: Reader, t: Tools, ctx: Context, s: VerifiedSession, n: nat, v: Object, lastModel: Option<string>,
                   last: Option<nat>, positions: Positions, cov: Coverage)
    requires r.env == t.env && r.repo == ctx.repo && Knows(r, ctx, positions)
    requires n < |s.records| && Spoken(t.env, s.records[n]) == Some(v)
    requires !Compacts(v) && (!Get(v, "payload").JObj? || SettingsIn(v).None?)
    requires RecordPartials(t, ctx, v, false, s.records[n].generation, lastModel, last, positions, cov).Done?
    ensures var step := RecordPartials(t, ctx, v, false, s.records[n].generation, lastModel, last, positions,
                                       cov).value;
            && Bears(r, SubjectFacts(t, s, n, v), step.out)
            && step.out.positions == (if Get(v, "payload").JObj? && CallOf(v).Some?
                                      then Called(ctx, CallOf(v).value, positions) else positions)
            && step.last == last && step.lastModel == lastModel && !Names(t.env, s.records[n])
  {
    var generation := s.records[n].generation;
    if Get(v, "payload").JObj? {
      PayloadIs(v, "type");
      assert !IsCompaction(v);
      SettingsAre(v);
      hide SettingsIn, SettingsRecord, PayloadOf, Member, Knows, ItemOutcome, ItemFacts, EventOutcome, MessageFacts,
          CallIn, Called, IsCompaction, Compacts, AllRead;
      if IsOf(v, "response_item") {
        ItemTells(r, t, ctx, v, generation, positions, cov);
      } else if IsOf(v, "event_msg") {
        EventTells(r, v, generation, positions, cov);
      }
    }
  }

  // ---- How often an id is given out ------------------------------------------

  predicate GivesIn(o: Option<Object>, id: string) {
    && o.Some? && IsOf(o.value, "response_item") && CallIn(o.value).Some? && CallIn(o.value).value.id == JStr(id)
  }

  ghost predicate SomeGive(objects: seq<Option<Object>>, id: string) {
    exists j :: 0 <= j < |objects| && GivesIn(objects[j], id)
  }

  ghost predicate TwoGive(objects: seq<Option<Object>>, id: string) {
    exists j, k :: 0 <= j < k < |objects| && GivesIn(objects[j], id) && GivesIn(objects[k], id)
  }

  lemma {:induction false} ObjectsGive(objects: seq<Option<Object>>, id: string)
    ensures CallIdCount(objects, id) > 0 <==> SomeGive(objects, id)
    ensures CallIdCount(objects, id) > 1 <==> TwoGive(objects, id)
  {
    if objects != [] {
      var n := |objects| - 1;
      ObjectsGive(objects[..n], id);
      OneMore(objects, id);
      hide *;
      GivesMore(objects, n, id);
    }
  }

  lemma OneMore(objects: seq<Option<Object>>, id: string)
    requires objects != []
    ensures CallIdCount(objects, id)
            == CallIdCount(objects[..|objects| - 1], id) + if GivesIn(objects[|objects| - 1], id) then 1 else 0
  {
    var o := objects[|objects| - 1];
    if o.Some? {
      CallIs(o.value);
    }
    hide CallIn, DetailsOfCall;
  }

  lemma GivesMore(objects: seq<Option<Object>>, n: nat, id: string)
    requires n + 1 == |objects|
    ensures SomeGive(objects, id) <==> SomeGive(objects[..n], id) || GivesIn(objects[n], id)
    ensures TwoGive(objects, id) <==>
            TwoGive(objects[..n], id) || (SomeGive(objects[..n], id) && GivesIn(objects[n], id))
  {
    hide GivesIn;
    GiveBelow(objects, n, id);
    if SomeGive(objects[..n], id) {
      var j :| 0 <= j < n && GivesIn(objects[..n][j], id);
      assert GivesIn(objects[j], id);
    }
    if TwoGive(objects[..n], id) {
      var j, k :| 0 <= j < k < n && GivesIn(objects[..n][j], id) && GivesIn(objects[..n][k], id);
      assert GivesIn(objects[j], id) && GivesIn(objects[k], id);
    }
  }

  lemma GiveBelow(objects: seq<Option<Object>>, n: nat, id: string)
    requires n <= |objects|
    ensures forall j :: 0 <= j < n && GivesIn(objects[j], id) ==> GivesIn(objects[..n][j], id)
  {
    hide GivesIn;
  }

  lemma SpokenObjects(env: Env, s: VerifiedSession)
    ensures forall k: nat, id :: k < |s.records| ==>
            (GivesIn(SubjectObjects(env, s.records)[k], id) <==> Gives(env, s, k, id))
  {
    hide CallIn, IsOf;
  }

  lemma GivenAlike(env: Env, s: VerifiedSession, objects: seq<Option<Object>>, id: string)
    requires |objects| == |s.records|
    requires forall j: nat :: j < |objects| ==> (GivesIn(objects[j], id) <==> Gives(env, s, j, id))
    requires forall j: nat :: Gives(env, s, j, id) ==> j < |objects|
    ensures SomeGive(objects, id) <==> exists j: nat :: Gives(env, s, j, id)
    ensures TwoGive(objects, id) <==> GivenTwice(env, s, id)
  {
    hide Gives, GivesIn;
    if exists j: nat :: Gives(env, s, j, id) {
      var j: nat :| Gives(env, s, j, id);
      assert GivesIn(objects[j], id);
    }
    if SomeGive(objects, id) {
      var j :| 0 <= j < |objects| && GivesIn(objects[j], id);
      assert Gives(env, s, j, id);
    }
    if TwoGive(objects, id) {
      var j, k :| 0 <= j < k < |objects| && GivesIn(objects[j], id) && GivesIn(objects[k], id);
      assert Gives(env, s, j, id) && Gives(env, s, k, id);
    }
    if GivenTwice(env, s, id) {
      var j: nat, k: nat :| j < k && Gives(env, s, j, id) && Gives(env, s, k, id);
      assert GivesIn(objects[j], id) && GivesIn(objects[k], id);
    }
  }

  lemma GivenIs(env: Env, s: VerifiedSession, id: string)
    ensures CallIdCount(SubjectObjects(env, s.records), id) > 0 <==> exists j: nat :: Gives(env, s, j, id)
    ensures CallIdCount(SubjectObjects(env, s.records), id) > 1 <==> GivenTwice(env, s, id)
  {
    var objects := SubjectObjects(env, s.records);
    ObjectsGive(objects, id);
    SpokenObjects(env, s);
    assert forall j: nat :: Gives(env, s, j, id) ==> j < |s.records|;
    hide *;
    GivenAlike(env, s, objects, id);
  }

  // ---- Calls said are calls given --------------------------------------------

  lemma {:induction false} ShapesNoCalls(blocks: seq<Json>)
    ensures NoCalls(ShapesFacts(blocks))
  {
    if blocks != [] {
      ShapesNoCalls(blocks[..|blocks| - 1]);
    }
  }

  lemma {:induction false} TextsNoCalls(env: Env, assistant: bool, blocks: seq<Json>)
    ensures NoCalls(TextsFacts(env, assistant, blocks))
  {
    if blocks != [] {
      TextsNoCalls(env, assistant, blocks[..|blocks| - 1]);
    }
  }

  lemma UnknownNoCalls(v: Object)
    ensures NoCalls(UnknownFacts(v))
  {
    if Member(v, "type") == JStr("message") && Member(v, "content").JArr? {
      ShapesNoCalls(Member(v, "content").items);
    }
  }

  lemma SettingsNoCalls(env: Env, s: VerifiedSession, i: nat, v: Object, n: Named)
    requires i < |s.records|
    ensures NoCalls(SettingsFacts(env, s, i, v, n))
  {
    hide ModelMoves, IsOf, Allowed;
  }

  predicate CallsFirst(facts: seq<Fact>, call: CallDetails) {
    && facts != [] && facts[0].Calls? && facts[0].id == call.id
    && forall k :: 1 <= k < |facts| ==> !facts[k].Calls?
  }

  lemma CallFactsFirst(t: Tools, call: CallDetails)
    ensures CallsFirst(CallFacts(t, call), call)
  {
    FoundNoCalls(t.env, call.name, t.classified(call.name, call.input));
    hide FoundIn;
  }

  /** A record's facts hold a call exactly when the record is one. */
  lemma CallsOf(t: Tools, s: VerifiedSession, i: nat, v: Object)
    requires i < |s.records| && SubjectFacts(t, s, i, v).Some?
    ensures CallOf(v).Some? ==> CallsFirst(SubjectFacts(t, s, i, v).value, CallOf(v).value)
    ensures CallOf(v).None? ==> NoCalls(SubjectFacts(t, s, i, v).value)
  {
    var content := Member(v, "content");
    if IsOf(v, "response_item") && content.JArr? {
      TextsNoCalls(t.env, Member(v, "role") == JStr("assistant"), content.items);
    }
    if SettingsIn(v).Some? {
      SettingsNoCalls(t.env, s, i, v, SettingsIn(v).value);
    }
    if CallIn(v).Some? {
      CallFactsFirst(t, CallIn(v).value);
    }
    if Member(v, "type") == JStr("message") {
      NoCallMessage(v);
    }
    hide SettingsFacts, CallFacts, TextsFacts, CallIn, Member, Newest, CallsFirst, AppliedNames, DirectlyNamed;
  }

  /** Every item that is a call and is read says so. */
  lemma SaidIsGiven(t: Tools, s: VerifiedSession, j: nat, k: nat, id: string)
    requires SessionChecked(s) && CallSaid(Sayings(t, s), j, k, id)
    ensures k == 0 && Gives(t.env, s, j, id)
  {
    var v := t.env.decode(s.records[j].raw).value;
    assert s.records[j] in s.records;
    hide SubjectFacts, UnknownFacts, CallIn, IsOf;
    if s.records[j].attribution == UnknownAuthor {
      UnknownNoCalls(v);
    } else {
      CallsOf(t, s, j, v);
    }
  }

  // ---- The record loop -------------------------------------------------------

  ghost function TwiceIn(env: Env, s: VerifiedSession): string -> bool {
    id => GivenTwice(env, s, id)
  }

  function CountIn(objects: seq<Option<Object>>): string -> nat {
    id => CallIdCount(objects, id)
  }

  ghost function RecordReader(t: Tools, s: VerifiedSession, i: nat): Reader {
    ReaderOf(t.env, s, Sayings(t, s), TwiceIn(t.env, s), i)
  }

  ghost predicate ContextFor(t: Tools, sc: SessionContext) {
    sc.objects == SubjectObjects(t.env, sc.session.records) && SessionChecked(sc.session)
  }

  /** Where the record loop stands before record `n`. */
  ghost predicate Following(t: Tools, sc: SessionContext, n: nat, before: seq<Event>, w: Walk)
    requires n <= |sc.session.records|
  {
    var s, p := sc.session, w.progress;
    && Heard(t.env, s, sc.episode, Sayings(t, s), TwiceIn(t.env, s), n, before, p.events)
    && Noted(Sayings(t, s), CountIn(sc.objects), n, p.positions)
    && LastIs(s, Boundaries(t.env), n, p.last) && ModelIs(t.env, s, n, w.lastModel)
  }

  function ContextAt(sc: SessionContext, i: nat): Context
    requires i < |sc.session.records|
  {
    Context(i, sc.session.records[i].commitment, sc.session.repo, None, sc.objects)
  }

  lemma ReaderKnows(t: Tools, sc: SessionContext, n: nat, positions: Positions)
    requires ContextFor(t, sc) && n < |sc.session.records|
    requires Noted(Sayings(t, sc.session), CountIn(sc.objects), n, positions)
    ensures Knows(RecordReader(t, sc.session, n), ContextAt(sc, n), positions)
  {
    var s, ctx, told := sc.session, ContextAt(sc, n), Sayings(t, sc.session);
    var twice, count := TwiceIn(t.env, s), CountIn(sc.objects);
    hide Noted, Sayings, GivenTwice, CallIdCount, RelationSaid, RelationOf, SessionChecked, CallSaid, SubjectObjects;
    forall id
      ensures twice(id) <==> count(id) > 1
    {
      GivenIs(t.env, s, id);
    }
    forall j: nat, k: nat, id | j < n && CallSaid(told, j, k, id)
      ensures count(id) > 0
    {
      SaidIsGiven(t, s, j, k, id);
      GivenIs(t.env, s, id);
    }
    forall id
      ensures RecordReader(t, s, n).relation(id) == RelationOf(id, CallsGiven(ctx, id), positions)
    {
      RelationIs(told, count, twice, n, positions, id);
    }
  }

  lemma NotedOne(told: seq<Option<Saying>>, count: string -> nat, n: nat, id: Json, positions: Positions)
    requires Noted(told, count, n, positions)
    requires forall k: nat, s :: CallSaid(told, n, k, s) <==> k == 0 && id == JStr(s)
    requires forall j: nat, k: nat, s :: j < n && CallSaid(told, j, k, s) && id == JStr(s) ==> count(s) > 1
    ensures Noted(told, count, n + 1, if id.JStr? && count(id.s) == 1 then positions[id.s := (n, 0)] else positions)
  {
    hide CallSaid;
    if id.JStr? {
      assert CallSaid(told, n, 0, id.s);
    }
  }

  lemma NotedCall(t: Tools, sc: SessionContext, n: nat, call: CallDetails, positions: Positions)
    requires ContextFor(t, sc) && n < |sc.session.records|
    requires Noted(Sayings(t, sc.session), CountIn(sc.objects), n, positions)
    requires Sayings(t, sc.session)[n].Some? && CallsFirst(Sayings(t, sc.session)[n].value.facts, call)
    ensures Noted(Sayings(t, sc.session), CountIn(sc.objects), n + 1, Called(ContextAt(sc, n), call, positions))
  {
    var s, told := sc.session, Sayings(t, sc.session);
    hide Sayings, CallIdCount, SubjectObjects, SessionChecked, Noted;
    assert forall k: nat, id :: CallSaid(told, n, k, id) <==> k == 0 && call.id == JStr(id);
    hide CallSaid, CallsFirst;
    forall j: nat, k: nat, id | j < n && CallSaid(told, j, k, id) && call.id == JStr(id)
      ensures CountIn(sc.objects)(id) > 1
    {
      SaidIsGiven(t, s, j, k, id);
      assert CallSaid(told, n, 0, id);
      SaidIsGiven(t, s, n, 0, id);
      GivenIs(t.env, s, id);
    }
    NotedOne(told, CountIn(sc.objects), n, call.id, positions);
  }

  lemma StampKeeps(t: Tools, v: Object, out: Claude.Outcome)
    ensures Stamped(t, v, out).details == out.details && Stamped(t, v, out).positions == out.positions
    ensures out.details.Some? ==> Stamped(t, v, out).observedAt == t.env.instant(Get(v, "timestamp"))
  {
  }

  lemma SaysOf(t: Tools, s: VerifiedSession, i: nat, v: Object)
    requires i < |s.records| && t.env.decode(s.records[i].raw) == Some(v)
    ensures var said, facts := Sayings(t, s)[i], RecordFacts(t, s, i, v);
            && (said.Some? <==> facts.Some?)
            && (said.Some? ==>
                  && said.value.facts == facts.value && said.value.at == t.env.instant(Get(v, "timestamp"))
                  && said.value.parent == ChainParent(i))
  {
    hide RecordFacts;
  }

  /** What one record's step must be for the loop to stay where it is. */
  ghost predicate StepTells(t: Tools, sc: SessionContext, n: nat, v: Object, w: Walk, step: Step)
    requires n < |sc.session.records|
  {
    && Bears(RecordReader(t, sc.session, n), RecordFacts(t, sc.session, n, v), step.out)
    && Noted(Sayings(t, sc.session), CountIn(sc.objects), n + 1, step.out.positions)
    && LastIs(sc.session, Boundaries(t.env), n + 1, step.last)
    && ModelIs(t.env, sc.session, n + 1, step.lastModel)
  }

  function StepOf(t: Tools, sc: SessionContext, n: nat, v: Object, w: Walk): Tried<Step>
    requires n < |sc.session.records|
  {
    var r := sc.session.records[n];
    RecordPartials(t, ContextAt(sc, n), v, r.attribution == UnknownAuthor, r.generation, w.lastModel, w.progress.last,
                   w.progress.positions, w.progress.cov)
  }

  lemma UnknownStep(t: Tools, sc: SessionContext, n: nat, v: Object, before: seq<Event>, w: Walk)
    requires ContextFor(t, sc) && n < |sc.session.records| && Following(t, sc, n, before, w)
    requires sc.session.records[n].attribution == UnknownAuthor
    requires t.env.decode(sc.session.records[n].raw) == Some(v) && StepOf(t, sc, n, v, w).Done?
    ensures StepTells(t, sc, n, v, w, StepOf(t, sc, n, v, w).value)
  {
    var s, p, r := sc.session, w.progress, RecordReader(t, sc.session, n);
    SaysOf(t, s, n, v);
    if Get(v, "payload").JObj? {
      UnknownReads(r, t, v, p.positions, p.cov);
    }
    UnknownNoCalls(v);
    assert Spoken(t.env, s.records[n]).None?;
    hide UnknownFacts, UnknownPartials, AllRead, LastIs, ModelIs, Sayings, Noted, Heard, NoCalls, RecordReader,
        SubjectFacts, CompactionSeen;
    UnknownWithout(v);
    NotedStays(Sayings(t, s), CountIn(sc.objects), n, p.positions);
    LastStays(s, Boundaries(t.env), n, p.last);
    ModelFollows(t.env, s, n, w.lastModel, w.lastModel);
  }

  lemma UnknownWithout(v: Object)
    ensures !Get(v, "payload").JObj? ==> UnknownFacts(v) == []
  {
  }

  lemma SubjectStep(t: Tools, sc: SessionContext, n: nat, v: Object, before: seq<Event>, w: Walk)
    requires ContextFor(t, sc) && n < |sc.session.records| && Following(t, sc, n, before, w)
    requires sc.session.records[n].attribution == Subject
    requires t.env.decode(sc.session.records[n].raw) == Some(v) && StepOf(t, sc, n, v, w).Done?
    ensures StepTells(t, sc, n, v, w, StepOf(t, sc, n, v, w).value)
  {
    var s, p, r, ctx := sc.session, w.progress, RecordReader(t, sc.session, n), ContextAt(sc, n);
    SaysOf(t, s, n, v);
    assert Spoken(t.env, s.records[n]) == Some(v);
    ReaderKnows(t, sc, n, p.positions);
    if SubjectFacts(t, s, n, v).Some? {
      CallsOf(t, s, n, v);
    }
    hide Sayings, Noted, Heard, LastIs, ModelIs, Knows, Bears, RecordPartials, SubjectFacts, ContextFor, Boundary,
        CallsFirst, NoCalls, Called, Names, Spoken, Compacts, SettingsIn, CallIn;
    if Compacts(v) {
      CompactsNames(t, s, n, v);
      CompactionTells(r, t, ctx, s, n, v, w.lastModel, p.last, p.positions, p.cov);
      NotedStays(Sayings(t, s), CountIn(sc.objects), n, p.positions);
      ModelFollows(t.env, s, n, w.lastModel, w.lastModel);
    } else {
      NoBoundary(t, s, n, v);
      LastStays(s, Boundaries(t.env), n, p.last);
      if Get(v, "payload").JObj? && SettingsIn(v).Some? {
        SettingsTells(r, t, ctx, s, n, v, w.lastModel, p.last, p.positions, p.cov);
        SettingsCallNothing(v);
        NotedStays(Sayings(t, s), CountIn(sc.objects), n, p.positions);
      } else {
        PlainTells(r, t, ctx, s, n, v, w.lastModel, p.last, p.positions, p.cov);
        PlainNotes(t, sc, n, v, w);
      }
      ModelFollows(t.env, s, n, w.lastModel, StepOf(t, sc, n, v, w).value.lastModel);
    }
  }

  lemma PlainNotes(t: Tools, sc: SessionContext, n: nat, v: Object, w: Walk)
    requires ContextFor(t, sc) && n < |sc.session.records|
    requires Noted(Sayings(t, sc.session), CountIn(sc.objects), n, w.progress.positions)
    requires var facts, said := SubjectFacts(t, sc.session, n, v), Sayings(t, sc.session)[n];
             && (said.Some? <==> facts.Some?) && (said.Some? ==> said.value.facts == facts.value)
             && (facts.Some? && CallOf(v).Some? ==> CallsFirst(facts.value, CallOf(v).value))
             && (facts.Some? && CallOf(v).None? ==> NoCalls(facts.value))
    requires !Compacts(v) && (Get(v, "payload").JObj? ==> SettingsIn(v).None?)
    ensures Noted(Sayings(t, sc.session), CountIn(sc.objects), n + 1,
                  if Get(v, "payload").JObj? && CallOf(v).Some?
                  then Called(ContextAt(sc, n), CallOf(v).value, w.progress.positions) else w.progress.positions)
  {
    hide Sayings, Noted, ContextFor, CallsFirst, NoCalls, Called, CallIn, SettingsIn, Compacts, CallFacts, TextsFacts,
        SettingsFacts;
    if Get(v, "payload").JObj? && CallOf(v).Some? {
      if Member(v, "type") == JStr("message") {
        NoCallMessage(v);
      }
      NotedCall(t, sc, n, CallOf(v).value, w.progress.positions);
    } else {
      NotedStays(Sayings(t, sc.session), CountIn(sc.objects), n, w.progress.positions);
    }
  }

  lemma CompactsNames(t: Tools, s: VerifiedSession, n: nat, v: Object)
    requires n < |s.records| && Spoken(t.env, s.records[n]) == Some(v) && Compacts(v)
    ensures !Names(t.env, s.records[n]) && CallOf(v).None?
  {
  }

  lemma NoBoundary(t: Tools, s: VerifiedSession, n: nat, v: Object)
    requires n < |s.records| && Spoken(t.env, s.records[n]) == Some(v) && !Compacts(v)
    ensures !Boundary(t.env, s.records[n])
  {
  }

  lemma SettingsCallNothing(v: Object)
    requires SettingsIn(v).Some?
    ensures CallOf(v).None?
  {
  }

  lemma SubjectChecked(t: Tools, sc: SessionContext, n: nat)
    requires ContextFor(t, sc) && n < |sc.session.records|
    ensures sc.session.records[n].attribution == UnknownAuthor || sc.session.records[n].attribution == Subject
  {
    assert sc.session.records[n] in sc.session.records;
  }

  lemma SilentFollows(t: Tools, sc: SessionContext, n: nat, before: seq<Event>, w: Walk)
    requires n < |sc.session.records| && Following(t, sc, n, before, w)
    requires t.env.decode(sc.session.records[n].raw).None?
    ensures WalkStep(t, sc, w, n).Done? && Following(t, sc, n + 1, before, WalkStep(t, sc, w, n).value)
  {
    var s, p := sc.session, w.progress;
    assert Sayings(t, s)[n].None? && Spoken(t.env, s.records[n]).None?;
    hide Sayings, Noted, LastIs, ModelIs, Heard, Spoken;
    assert !Names(t.env, s.records[n]) && !Boundary(t.env, s.records[n]);
    NotedStays(Sayings(t, s), CountIn(sc.objects), n, p.positions);
    LastStays(s, Boundaries(t.env), n, p.last);
    ModelFollows(t.env, s, n, w.lastModel, w.lastModel);
    SkipHears(t.env, s, sc.episode, Sayings(t, s), TwiceIn(t.env, s), n, before, p.events);
  }

  lemma ToldFollows(t: Tools, sc: SessionContext, n: nat, v: Object, before: seq<Event>, w: Walk)
    requires n < |sc.session.records| && Following(t, sc, n, before, w)
    requires t.env.decode(sc.session.records[n].raw) == Some(v) && StepOf(t, sc, n, v, w).Done?
    requires StepTells(t, sc, n, v, w, StepOf(t, sc, n, v, w).value)
    ensures WalkStep(t, sc, w, n).Done? && Following(t, sc, n + 1, before, WalkStep(t, sc, w, n).value)
  {
    var s, p, step := sc.session, w.progress, StepOf(t, sc, n, v, w).value;
    var out := Stamped(t, v, step.out);
    StampKeeps(t, v, step.out);
    SaysOf(t, s, n, v);
    hide Sayings, Noted, LastIs, ModelIs, Heard, Stamped, RecordPartials, Finish, RecordFacts, AllRead;
    FinishKeepsNotes(p, sc, n, ChainParent(n), out, step.last);
    FinishHears(t.env, sc, Sayings(t, s), TwiceIn(t.env, s), n, before, p, ChainParent(n), out, step.last);
  }

  lemma WalkFollows(t: Tools, sc: SessionContext, n: nat, before: seq<Event>, w: Walk)
    requires ContextFor(t, sc) && n < |sc.session.records| && Following(t, sc, n, before, w)
    requires WalkStep(t, sc, w, n).Done?
    ensures Following(t, sc, n + 1, before, WalkStep(t, sc, w, n).value)
  {
    var s, r := sc.session, sc.session.records[n];
    SubjectChecked(t, sc, n);
    match t.env.decode(r.raw) {
      case None =>
        SilentFollows(t, sc, n, before, w);
      case Some(v) =>
        assert WalkStep(t, sc, w, n).Done? ==> StepOf(t, sc, n, v, w).Done?;
        hide *;
        if r.attribution == UnknownAuthor {
          UnknownStep(t, sc, n, v, before, w);
        } else {
          SubjectStep(t, sc, n, v, before, w);
        }
        ToldFollows(t, sc, n, v, before, w);
    }
  }

  lemma NothingFollowed(t: Tools, sc: SessionContext, w: Walk)
    requires w.progress.positions == map[] && w.progress.last.None? && w.lastModel.None?
    ensures Following(t, sc, 0, w.progress.events, w)
  {
    NothingHeard(t.env, sc.session, sc.episode, Sayings(t, sc.session), TwiceIn(t.env, sc.session), w.progress.events);
    hide Heard, Sayings, CallSaid, Boundary, TwiceIn, CountIn, Names;
  }

  lemma {:induction false} WalksFollow(t: Tools, sc: SessionContext, w: Walk, n: nat)
    requires ContextFor(t, sc) && n <= |sc.session.records| && WalkUpTo(t, sc, w, n).Done?
    requires w.progress.positions == map[] && w.progress.last.None? && w.lastModel.None?
    ensures Following(t, sc, n, w.progress.events, WalkUpTo(t, sc, w, n).value)
  {
    hide Following, ContextFor, WalkStep;
    if n == 0 {
      NothingFollowed(t, sc, w);
    } else {
      WalksFollow(t, sc, w, n - 1);
      WalkFollows(t, sc, n - 1, w.progress.events, WalkUpTo(t, sc, w, n - 1).value);
    }
  }

  // ---- The corpus ------------------------------------------------------------

  ghost function TellingOf(t: Tools, s: VerifiedSession): Telling {
    Telling(Sayings(t, s), TwiceIn(t.env, s))
  }

  ghost function Tellings(t: Tools, sessions: seq<VerifiedSession>): (r: seq<Telling>)
    ensures |r| == |sessions| && forall k :: 0 <= k < |r| ==> r[k] == TellingOf(t, sessions[k])
  {
    seq(|sessions|, k requires 0 <= k < |sessions| => TellingOf(t, sessions[k]))
  }

  lemma FollowingHeard(t: Tools, sc: SessionContext, before: seq<Event>, w: Walk)
    requires Following(t, sc, |sc.session.records|, before, w)
    ensures var telling := TellingOf(t, sc.session);
            && |telling.told| == |sc.session.records|
            && Heard(t.env, sc.session, sc.episode, telling.told, telling.twice, |sc.session.records|, before,
                     w.progress.events)
  {
    hide Heard, Noted, LastIs, ModelIs;
  }

  lemma SessionSays(t: Tools, st: Stitched, sessions: seq<VerifiedSession>, c: Growth, s: VerifiedSession)
    requires SessionChecked(s) && CodexSession(t, st, c, s).Done?
    requires AllStated(t.env, st, sessions, Tellings(t, sessions), c.events)
    requires NoneLost(sessions, Tellings(t, sessions), c.events)
    ensures AllStated(t.env, st, sessions + [s], Tellings(t, sessions + [s]), CodexSession(t, st, c, s).value.events)
    ensures NoneLost(sessions + [s], Tellings(t, sessions + [s]), CodexSession(t, st, c, s).value.events)
  {
    hide AllStated, NoneLost, WalkUpTo, Following, TellingOf, Started, SessionChecked, SubjectObjects;
    var sc := CodexContext(t, s, Lookup(st.ids, s.id));
    var start := Walk(Progress(c.events, Started(c.cov, s), map[], None), None);
    var w := WalkUpTo(t, sc, start, |s.records|).value;
    WalksFollow(t, sc, start, |s.records|);
    FollowingHeard(t, sc, c.events, w);
    assert Tellings(t, sessions + [s]) == Tellings(t, sessions) + [TellingOf(t, s)];
    SessionStated(t.env, st, sessions, Tellings(t, sessions), c.events, s, TellingOf(t, s), w.progress.events);
    SessionNotLost(t.env, st, sessions, Tellings(t, sessions), c.events, s, TellingOf(t, s), w.progress.events);
  }

  lemma {:induction false} SessionsSay(t: Tools, st: Stitched, sessions: seq<VerifiedSession>)
    requires (forall s :: s in sessions ==> SessionChecked(s)) && CodexSessions(t, st, sessions).Done?
    ensures AllStated(t.env, st, sessions, Tellings(t, sessions), CodexSessions(t, st, sessions).value.events)
    ensures NoneLost(sessions, Tellings(t, sessions), CodexSessions(t, st, sessions).value.events)
  {
    if sessions != [] {
      var n := |sessions| - 1;
      assert sessions[n] in sessions && sessions == sessions[..n] + [sessions[n]];
      hide CodexSession, SessionChecked, AllStated, NoneLost;
      SessionsSay(t, st, sessions[..n]);
      SessionSays(t, st, sessions[..n], CodexSessions(t, st, sessions[..n]).value, sessions[n]);
    }
  }

  /** The artifact, if there is one, says what the records say: every event states the fact its record
      gives at that place, and no fact of any record is left out. */
  lemma CodexSays(t: Tools, sessions: seq<VerifiedSession>, st: Stitched)
    requires Checked(sessions) && CodexNormalized(t, sessions, st).Done?
    ensures AllStated(t.env, st, sessions, Tellings(t, sessions), CodexNormalized(t, sessions, st).value.events)
    ensures NoneLost(sessions, Tellings(t, sessions), CodexNormalized(t, sessions, st).value.events)
  {
    hide SessionChecked;
    SessionsSay(t, st, sessions);
    hide AllStated, NoneLost, CodexSessions, Rejoin;
    RejoinStated(t.env, st, sessions, Tellings(t, sessions), CodexSessions(t, st, sessions).value.events);
    RejoinNotLost(sessions, Tellings(t, sessions), CodexSessions(t, st, sessions).value.events);
  }
}
