/** The first producer states of every record exactly what the record says: block by block for messages,
and by subtype for lifecycle records.
*/
module ClaudeReadings {
  import opened Records
  import opened LineageGraph
  import opened Episodes
  import opened Corpus
  import opened CorpusBuild
  import opened CorpusLineage
  import opened Transcripts
  import opened Claude
  import opened Readings

  // ---- What a record says ----------------------------------------------------

  predicate SpeaksMessage(env: Env, r: VerifiedRecord) {
    && Spoken(env, r).Some?
    && (Get(Spoken(env, r).value, "type") == JStr("user") || Get(Spoken(env, r).value, "type") == JStr("assistant"))
  }

  /** Every message record of the subject in this session carries this marker. */
  predicate AllMarked(env: Env, s: VerifiedSession, side: bool) {
    forall k :: 0 <= k < |s.records| && SpeaksMessage(env, s.records[k]) ==>
      Get(Spoken(env, s.records[k]).value, "isSidechain") == JBool(side)
  }

  predicate Disagree(a: Option<Object>, b: Option<Object>) {
    && a.Some? && b.Some? && Get(a.value, "sessionId").JStr? && Get(b.value, "sessionId").JStr?
    && Get(a.value, "sessionId") != Get(b.value, "sessionId")
  }

  /** Two records of the subject name different sessions. */
  predicate Conflicting(env: Env, s: VerifiedSession) {
    exists j, k :: 0 <= j < k < |s.records| && Disagree(Spoken(env, s.records[j]), Spoken(env, s.records[k]))
  }

  const TOKEN_NAMES: map<string, string> := map[
    "input_tokens" := "input_tokens", "output_tokens" := "output_tokens",
    "cache_creation_input_tokens" := "cache_creation_input_tokens",
    "cache_read_input_tokens" := "cache_read_input_tokens"]

  /** A text is the agent's in an assistant message and on a sidechain; off it, it is pasted or the
      human's; when the session's markers do not agree it is nobody's.  Only an assistant message that is
      all text is pointed into, at texts that are not empty. */
  function TextFacts(env: Env, s: VerifiedSession, assistant: bool, allText: bool, text: Json): seq<Fact> {
    if !text.JStr? then []
    else if assistant then [SaidBy(Agent, text, allText && text.s != "")]
    else if AllMarked(env, s, true) then [SaidBy(Agent, text, false)]
    else if !AllMarked(env, s, false) then []
    else if env.paste(text.s) then [PastedText(text)]
    else [SaidBy(Human, text, false)]
  }

  function BlockFacts(env: Env, s: VerifiedSession, assistant: bool, allText: bool, b: Json): seq<Fact> {
    if !b.JObj? || !Get(b.fields, "type").JStr? then []
    else
      match Get(b.fields, "type").s
      case "text" => TextFacts(env, s, assistant, allText, Get(b.fields, "text"))
      case "tool_use" =>
        if !assistant then []
        else [Calls(Get(b.fields, "name"), Get(b.fields, "id"), "input" in b.fields)]
             + (if "input" in b.fields then FoundIn(env, Get(b.fields, "name"), b.fields["input"]) else [])
      case "tool_result" => if assistant then [] else [ClaudeResult(b.fields)]
      case _ => []
  }

  function BlocksFacts(env: Env, s: VerifiedSession, assistant: bool, allText: bool, blocks: seq<Json>): seq<Fact> {
    if blocks == [] then []
    else
      BlocksFacts(env, s, assistant, allText, blocks[..|blocks| - 1])
      + BlockFacts(env, s, assistant, allText, blocks[|blocks| - 1])
  }

  /** A message whose speaker is told twice, by the record and by the message, in the same way. */
  predicate IsMessageOf(v: Object, speaker: string) {
    && Get(v, "type") == JStr(speaker) && Get(v, "message").JObj?
    && Get(Get(v, "message").fields, "role") == JStr(speaker)
    && (Get(Get(v, "message").fields, "content").JStr? || Get(Get(v, "message").fields, "content").JArr?)
  }

  predicate IsText(b: Json) {
    b.JObj? && Get(b.fields, "type") == JStr("text")
  }

  function ContentFacts(env: Env, s: VerifiedSession, assistant: bool, content: Json): seq<Fact> {
    match content
    case JStr(_) => TextFacts(env, s, assistant, true, content)
    case JArr(blocks) => BlocksFacts(env, s, assistant, forall b :: b in blocks ==> IsText(b), blocks)
    case _ => []
  }

  function MetadataFacts(env: Env, m: Object): seq<Fact> {
    NamedModel(env, Get(m, "model"), Get(m, "provider"), Get(m, "effort"))
    + CountedTokens(Get(m, "usage"), TOKEN_NAMES)
  }

  /** Model and token counts first, then the content. */
  function AssistantFacts(env: Env, s: VerifiedSession, m: Object): seq<Fact> {
    MetadataFacts(env, m) + ContentFacts(env, s, true, Get(m, "content"))
  }

  /** A compaction boundary of the subject. */
  predicate Boundary(env: Env, r: VerifiedRecord) {
    && Spoken(env, r).Some? && Get(Spoken(env, r).value, "type") == JStr("system")
    && Get(Spoken(env, r).value, "subtype") == JStr("compact_boundary")
  }

  function Boundaries(env: Env): VerifiedRecord -> bool {
    r => Boundary(env, r)
  }

  function MarkerFor(env: Env, s: VerifiedSession, i: nat, subtype: Json): seq<Fact>
    requires i < |s.records|
  {
    if !subtype.JStr? then []
    else
      match subtype.s
      case "compact_boundary" =>
        [Marks(ContextBoundary, if Newest(s, Boundaries(env), i) then s.records[i].generation else None)]
      case "session_start" => [Marks(SessionStarted, None)]
      case "session_end" => [Marks(SessionEnded, None)]
      case "model_change" => [Marks(ModelChanged, None)]
      case _ => []
  }

  /** What a record of the subject says, or None when it is not supported. */
  function SubjectFacts(env: Env, s: VerifiedSession, i: nat, v: Object): Option<seq<Fact>>
    requires i < |s.records|
  {
    if IsMessageOf(v, "assistant") then Some(AssistantFacts(env, s, Get(v, "message").fields))
    else if IsMessageOf(v, "user") then Some(ContentFacts(env, s, false, Get(Get(v, "message").fields, "content")))
    else if Get(v, "type") == JStr("system") && MarkerFor(env, s, i, Get(v, "subtype")) != [] then
      Some(MarkerFor(env, s, i, Get(v, "subtype")))
    else if Get(v, "type") == JStr("queue-operation") then Some([])
    else None
  }

  /** Of a record of unknown authorship only the shapes of its texts are kept. */
  function ShapeFacts(b: Json): seq<Fact> {
    if !b.JObj? then []
    else if Get(b.fields, "type") == JStr("text") && Get(b.fields, "text").JStr? then
      [PastedText(Get(b.fields, "text"))]
    else if Get(b.fields, "type") == JStr("tool_result") && Get(b.fields, "content").JStr? then
      [PastedText(Get(b.fields, "content"))]
    else []
  }

  function ShapesFacts(blocks: seq<Json>): seq<Fact> {
    if blocks == [] then [] else ShapesFacts(blocks[..|blocks| - 1]) + ShapeFacts(blocks[|blocks| - 1])
  }

  function UnknownFacts(v: Object): seq<Fact> {
    if !Get(v, "message").JObj? then []
    else
      match Get(Get(v, "message").fields, "content")
      case JStr(text) => [PastedText(JStr(text))]
      case JArr(blocks) => ShapesFacts(blocks)
      case _ => []
  }

  /** Another record of the subject carries the uuid. */
  predicate Carries(env: Env, s: VerifiedSession, k: nat, uuid: Json) {
    k < |s.records| && Spoken(env, s.records[k]).Some? && Get(Spoken(env, s.records[k]).value, "uuid") == uuid
  }

  /** The parent of record `i`: the one earlier record that carries the uuid it names.  A record of
      unknown authorship is only seen to name a parent or none. */
  ghost function ParentSaid(env: Env, s: VerifiedSession, i: nat, v: Object): ParentLink
    requires i < |s.records|
  {
    var uuid := Get(v, "parentUuid");
    if uuid == JNull then RootRecord
    else if s.records[i].attribution == UnknownAuthor then DanglingParent
    else if !uuid.JStr? then MissingParent
    else if exists j: nat, k: nat :: j < k && Carries(env, s, j, uuid) && Carries(env, s, k, uuid) then AmbiguousParent
    else if exists j: nat :: j < i && Carries(env, s, j, uuid) then
      var j: nat :| j < i && Carries(env, s, j, uuid);
      LinkedParent(j)
    else DanglingParent
  }

  /** What record `i` of a session says, or None when it does not decode or is not supported. */
  function RecordFacts(env: Env, s: VerifiedSession, i: nat, v: Object): Option<seq<Fact>>
    requires i < |s.records|
  {
    if s.records[i].attribution == UnknownAuthor then
      (if UnknownFacts(v) == [] then None else Some(UnknownFacts(v)))
    else if Conflicting(env, s) then None
    else SubjectFacts(env, s, i, v)
  }

  ghost function RecordSaid(env: Env, s: VerifiedSession, i: nat): Option<Saying>
    requires i < |s.records|
  {
    match env.decode(s.records[i].raw)
    case None => None
    case Some(v) =>
      match RecordFacts(env, s, i, v)
      case None => None
      case Some(facts) => Some(Saying(facts, env.instant(Get(v, "timestamp")), ParentSaid(env, s, i, v)))
  }

  ghost function Sayings(env: Env, s: VerifiedSession): (r: seq<Option<Saying>>)
    ensures |r| == |s.records| && forall i :: 0 <= i < |r| ==> r[i] == RecordSaid(env, s, i)
  {
    seq(|s.records|, i requires 0 <= i < |s.records| => RecordSaid(env, s, i))
  }

  /** Block `k` of the subject's record `j` is a tool call under this id. */
  predicate Gives(env: Env, s: VerifiedSession, j: nat, k: nat, id: string) {
    j < |s.records| && GivesIn(Spoken(env, s.records[j]), k, id)
  }

  predicate GivesIn(o: Option<Object>, k: nat, id: string) {
    && o.Some? && Get(o.value, "type") == JStr("assistant") && Get(o.value, "message").JObj?
    && Get(Get(o.value, "message").fields, "content").JArr?
    && CallBlock(Get(Get(o.value, "message").fields, "content").items, k, id)
  }

  predicate CallBlock(blocks: seq<Json>, k: nat, id: string) {
    && k < |blocks| && blocks[k].JObj? && Get(blocks[k].fields, "type") == JStr("tool_use")
    && Get(blocks[k].fields, "id") == JStr(id)
  }

  predicate Before(j: nat, k: nat, j': nat, k': nat) {
    j < j' || (j == j' && k < k')
  }

  /** The session gives the id to two tool calls. */
  ghost predicate GivenTwice(env: Env, s: VerifiedSession, id: string) {
    exists j: nat, k: nat, j': nat, k': nat ::
      Before(j, k, j', k') && Gives(env, s, j, k, id) && Gives(env, s, j', k', id)
  }

  // ---- The session's markers -------------------------------------------------

  /** The context of a session, as the producer gathers it. */
  ghost predicate ContextFor(env: Env, sc: SessionContext) {
    && sc.objects == SubjectObjects(env, sc.session.records)
    && sc.inconsistent == Inconsistent(sc.objects) && sc.sidechain == Sidechain(sc.objects)
    && SessionChecked(sc.session)
  }

  lemma SpokenObjects(env: Env, s: VerifiedSession, k: nat)
    requires k < |s.records|
    ensures SubjectObjects(env, s.records)[k] == Spoken(env, s.records[k])
  {
  }

  lemma MarkersAgree(env: Env, sc: SessionContext, side: bool)
    requires ContextFor(env, sc)
    ensures Unmarked(sc.objects, side) <==> AllMarked(env, sc.session, side)
  {
    var s := sc.session;
    forall k | 0 <= k < |s.records|
      ensures sc.objects[k] == Spoken(env, s.records[k])
    {
      SpokenObjects(env, s, k);
    }
    hide SubjectObjects, Sidechain, Inconsistent;
  }

  /** The mode of the context is what the session's records say. */
  ghost predicate ModeOf(env: Env, s: VerifiedSession, sidechain: Option<bool>) {
    && (sidechain == Some(true) <==> AllMarked(env, s, true))
    && (sidechain == Some(false) <==> AllMarked(env, s, false))
  }

  /** In a session with a message record, the mode is what all message records say. */
  lemma SidechainIs(env: Env, sc: SessionContext, i: nat)
    requires ContextFor(env, sc) && i < |sc.session.records| && SpeaksMessage(env, sc.session.records[i])
    ensures ModeOf(env, sc.session, sc.sidechain)
  {
    SpokenObjects(env, sc.session, i);
    MarkersAgree(env, sc, true);
    MarkersAgree(env, sc, false);
    hide SubjectObjects, AllMarked, Inconsistent;
    assert IsMessage(sc.objects[i].value);
    if Unmarked(sc.objects, true) {
      assert Marked(sc.objects[i], true);
    }
    if Unmarked(sc.objects, false) {
      assert Marked(sc.objects[i], false);
    }
  }

  lemma DisagreeIs(objects: seq<Option<Object>>)
    ensures Inconsistent(objects) <==> exists j, k :: 0 <= j < k < |objects| && Disagree(objects[j], objects[k])
  {
    if Inconsistent(objects) {
      var j, k :| 0 <= j < k < |objects| && objects[j].Some? && objects[k].Some?
                  && Get(objects[j].value, "sessionId").JStr? && Get(objects[k].value, "sessionId").JStr?
                  && Get(objects[j].value, "sessionId") != Get(objects[k].value, "sessionId");
      assert Disagree(objects[j], objects[k]);
    }
  }

  lemma ConflictIs(env: Env, sc: SessionContext)
    requires ContextFor(env, sc)
    ensures sc.inconsistent <==> Conflicting(env, sc.session)
  {
    DisagreeIs(sc.objects);
    var s := sc.session;
    forall k | 0 <= k < |s.records|
      ensures sc.objects[k] == Spoken(env, s.records[k])
    {
      SpokenObjects(env, s, k);
    }
    hide SubjectObjects, Sidechain, Spoken, Disagree, Inconsistent, SessionChecked;
  }

  // ---- One block, all blocks -------------------------------------------------

  /** The reader knows the call of each result from what was noted. */
  ghost predicate Knows(r: Reader, ctx: Context, positions: Positions) {
    forall id :: r.relation(id) == RelationOf(id, GivenOut(ctx, id), positions)
  }

  /** The reader's session and the context belong together. */
  ghost predicate Suits(r: Reader, ctx: Context, s: VerifiedSession, assistant: bool, positions: Positions) {
    && r.repo == ctx.repo
    && (!assistant ==> ModeOf(r.env, s, ctx.sidechain) && Knows(r, ctx, positions))
  }

  lemma EitherMode(sidechain: Option<bool>)
    requires sidechain.Some?
    ensures sidechain == Some(true) || sidechain == Some(false)
  {
    var side := sidechain.value;
    assert sidechain == Some(side);
    if side {
    } else {
      assert side == false;
    }
  }

  lemma TextReads(r: Reader, ctx: Context, s: VerifiedSession, assistant: bool, textOnly: bool, m: Message,
                  block: Option<nat>, text: Json)
    requires Suits(r, ctx, s, assistant, m.positions)
    ensures var after := TextBlock(r.env, ctx, assistant, textOnly, m, block, text);
            Adds(r, m.details, after.details, TextFacts(r.env, s, assistant, textOnly, text))
            && after.positions == m.positions
  {
    AddsNothing(r, m.details);
    hide AllRead, Adds;
    if text.JStr? && (assistant || ctx.sidechain.Some?) {
      var author := if assistant || ctx.sidechain == Some(true) then Agent else Human;
      if !assistant {
        EitherMode(ctx.sidechain);
      }
      if author == Human && r.env.paste(text.s) {
        AddsOne(r, m, Detail.Pasted(r.env.shape(text)), PastedText(text));
      } else {
        var pointer := if assistant && textOnly && text.s != "" then
            Some(TextPointer(block, 0, |text.s|, ctx.commitment))
                       else None;
        AddsOne(r, m, Turn(author, r.env.shape(text), pointer),
                SaidBy(author, text, assistant && textOnly && text.s != ""));
      }
    }
  }

  lemma UseReads(r: Reader, ctx: Context, m: Message, k: nat, b: Object)
    requires r.repo == ctx.repo
    ensures Adds(r, m.details, ToolUse(r.env, ctx, m, Some(k), b).details,
                 [Calls(Get(b, "name"), Get(b, "id"), "input" in b)]
                 + if "input" in b then FoundIn(r.env, Get(b, "name"), b["input"]) else [])
  {
    var name := Get(b, "name");
    var pointer := InputPointerOf(ctx, Some(k), b);
    var called := Called(r.env, ctx, m, Some(k), b);
    var call := Calls(name, Get(b, "id"), "input" in b);
    AddsOne(r, m, ToolCall(r.env.family(name), pointer), call);
    if "input" in b {
      FoundReads(r, ctx, called, |m.details|, name, b["input"], pointer.value);
      hide Adds, FoundIn, WithTest, WithReference, WithForge, Emit;
      AddsThen(r, m.details, called.details, Derived(r.env, ctx, m, Some(k), b).details, [call],
               FoundIn(r.env, name, b["input"]));
    } else {
      hide Adds, FoundIn;
      assert [call] + [] == [call];
    }
  }

  lemma ResultReads(r: Reader, ctx: Context, m: Message, b: Object)
    requires Knows(r, ctx, m.positions)
    ensures Adds(r, m.details, ResultBlock(r.env, ctx, m, b).details, [ClaudeResult(b)])
  {
    var d := ResultBlock(r.env, ctx, m, b).details[|m.details|];
    hide RelationOf, GivenOut;
    assert Reads(r, d, ClaudeResult(b));
    assert ResultBlock(r.env, ctx, m, b).details == Emit(m, d).details;
    AddsOne(r, m, d, ClaudeResult(b));
  }

  lemma BlockReads(r: Reader, ctx: Context, s: VerifiedSession, assistant: bool, textOnly: bool, m: Message, k: nat,
                   b: Json)
    requires Suits(r, ctx, s, assistant, m.positions)
    ensures var after := BlockStep(r.env, ctx, assistant, textOnly, m, Some(k), b);
            Adds(r, m.details, after.details, BlockFacts(r.env, s, assistant, textOnly, b))
            && (!assistant ==> after.positions == m.positions)
  {
    var seen := m.(cov := m.cov.(blocksSeen := m.cov.blocksSeen + 1));
    AddsNothing(r, m.details);
    hide Adds, TextFacts, ToolUse, TextBlock, FoundIn, ModeOf, Knows;
    if b.JObj? {
      var kind := Get(b.fields, "type");
      if kind == JStr("text") {
        TextReads(r, ctx, s, assistant, textOnly, seen, Some(k), Get(b.fields, "text"));
      } else if assistant && kind == JStr("tool_use") {
        UseReads(r, ctx, seen, k, b.fields);
      } else if !assistant && kind == JStr("tool_result") {
        ResultReads(r, ctx, seen, b.fields);
      }
    }
  }

  lemma {:induction false} BlocksRead(r: Reader, ctx: Context, s: VerifiedSession, assistant: bool, textOnly: bool,
                                      m: Message, blocks: seq<Json>)
    requires Suits(r, ctx, s, assistant, m.positions)
    ensures var after := Blocks(r.env, ctx, assistant, textOnly, m, blocks);
            Adds(r, m.details, after.details, BlocksFacts(r.env, s, assistant, textOnly, blocks))
            && (!assistant ==> after.positions == m.positions)
  {
    if blocks == [] {
      AddsNothing(r, m.details);
    } else {
      var n := |blocks| - 1;
      var before := Blocks(r.env, ctx, assistant, textOnly, m, blocks[..n]);
      BlocksRead(r, ctx, s, assistant, textOnly, m, blocks[..n]);
      assert Suits(r, ctx, s, assistant, before.positions);
      hide Adds, BlockStep, BlockFacts, ModeOf, Knows, Suits;
      BlockReads(r, ctx, s, assistant, textOnly, before, n, blocks[n]);
      AddsThen(r, m.details, before.details, Blocks(r.env, ctx, assistant, textOnly, m, blocks).details,
               BlocksFacts(r.env, s, assistant, textOnly, blocks[..n]),
               BlockFacts(r.env, s, assistant, textOnly, blocks[n]));
    }
  }

  // ---- Model and token counts ------------------------------------------------

  /** The names in the list are those of the table, and stand for themselves. */
  lemma NamesListed()
    ensures forall k :: 0 <= k < 4 ==> TOKEN_FIELDS[k] in TOKEN_NAMES && TOKEN_NAMES[TOKEN_FIELDS[k]] == TOKEN_FIELDS[k]
    ensures forall key :: key in TOKEN_NAMES ==> key in TOKEN_FIELDS
    ensures forall j, k :: 0 <= j < k < 4 ==> TOKEN_FIELDS[j] != TOKEN_FIELDS[k]
  {
    assert |TOKEN_FIELDS[0]| == 12 && |TOKEN_FIELDS[1]| == 13 && |TOKEN_FIELDS[2]| == 27 && |TOKEN_FIELDS[3]| == 23;
  }

  predicate IsCount(usage: Object, key: string) {
    key in usage ==> usage[key].JInt? && usage[key].n >= 0
  }

  ghost predicate CountsRead(usage: Object, n: nat, counts: map<string, nat>)
    requires n <= 4
  {
    && (forall k :: 0 <= k < n && TOKEN_FIELDS[k] in usage ==>
          usage[TOKEN_FIELDS[k]].JInt? && TOKEN_FIELDS[k] in counts
          && usage[TOKEN_FIELDS[k]].n == counts[TOKEN_FIELDS[k]])
    && (forall name :: name in counts ==> name in TOKEN_FIELDS[..n] && name in usage)
  }

  lemma {:induction false} CountsUpTo(usage: Object, n: nat)
    requires n <= 4
    ensures TokenCounts(usage, n).Some? <==> forall k :: 0 <= k < n ==> IsCount(usage, TOKEN_FIELDS[k])
    ensures TokenCounts(usage, n).Some? ==> CountsRead(usage, n, TokenCounts(usage, n).value)
  {
    if n > 0 {
      CountsUpTo(usage, n - 1);
      NamesListed();
      var key := TOKEN_FIELDS[n - 1];
      assert TOKEN_FIELDS[..n] == TOKEN_FIELDS[..n - 1] + [key];
      assert TokenCounts(usage, n).Some? <==> TokenCounts(usage, n - 1).Some? && IsCount(usage, key);
    }
  }

  lemma CountsAre(usage: Object, counts: map<string, nat>)
    requires CountsRead(usage, 4, counts)
    ensures TokensRead(usage, TOKEN_NAMES, counts) && (counts != map[] <==> SomeCounted(usage, TOKEN_NAMES))
  {
    NamesListed();
    var names, fields := TOKEN_NAMES, TOKEN_FIELDS;
    assert fields[..4] == fields;
    forall key | key in names && key in usage
      ensures usage[key].JInt? && names[key] in counts && usage[key].n == counts[names[key]]
    {
      var k :| 0 <= k < 4 && fields[k] == key;
    }
    forall name | name in counts
      ensures name in names && name in usage && names[name] == name
    {
      var k :| 0 <= k < 4 && fields[k] == name;
    }
    if counts != map[] {
      var name :| name in counts;
    }
  }

  lemma AllCountsIs(usage: Object)
    ensures AllCounts(usage, TOKEN_NAMES) <==> forall k :: 0 <= k < 4 ==> IsCount(usage, TOKEN_FIELDS[k])
  {
    NamesListed();
    var names, fields := TOKEN_NAMES, TOKEN_FIELDS;
    if forall k :: 0 <= k < 4 ==> IsCount(usage, fields[k]) {
      forall key | key in names && key in usage
        ensures usage[key].JInt? && usage[key].n >= 0
      {
        var k :| 0 <= k < 4 && fields[k] == key;
        assert IsCount(usage, fields[k]);
      }
    }
  }

  lemma TokenReads(r: Reader, message: Object)
    ensures AllRead(r, TokenDetails(message), CountedTokens(Get(message, "usage"), TOKEN_NAMES))
  {
    hide TokenCounts, Reads, AllCounts, SomeCounted, TokensRead, CountsRead, IsCount;
    var usage := Get(message, "usage");
    if usage.JObj? {
      var counts := TokenCounts(usage.fields, 4);
      CountsUpTo(usage.fields, 4);
      AllCountsIs(usage.fields);
      if counts.Some? {
        CountsAre(usage.fields, counts.value);
      }
      CountedReads(r, usage.fields, TOKEN_NAMES, counts);
    }
  }

  lemma MetadataReads(r: Reader, message: Object, cov: Coverage)
    ensures Adds(r, [], Metadata(r.env, message, cov).0, MetadataFacts(r.env, message))
  {
    ModelReads(r, Get(message, "model"), Get(message, "provider"), Get(message, "effort"));
    TokenReads(r, message);
    hide AllRead, NamedModel, CountedTokens, TokenDetails, Label, Invalid;
    var models := NamedModel(r.env, Get(message, "model"), Get(message, "provider"), Get(message, "effort"));
    ReadConcat(r, ModelDetails(r.env, message), models, TokenDetails(message),
               CountedTokens(Get(message, "usage"), TOKEN_NAMES));
    var details := Metadata(r.env, message, cov).0;
    assert details[0..] == details == ModelDetails(r.env, message) + TokenDetails(message);
  }

  // ---- A message -------------------------------------------------------------

  /** The one block a string content stands for. */
  lemma StringReads(r: Reader, ctx: Context, s: VerifiedSession, assistant: bool, m: Message, content: Json)
    requires Suits(r, ctx, s, assistant, m.positions) && content.JStr?
    ensures var after := BlockStep(r.env, ctx, assistant, true, m, None, TextOf(content));
            Adds(r, m.details, after.details, TextFacts(r.env, s, assistant, true, content))
            && after.positions == m.positions
  {
    var seen := m.(cov := m.cov.(blocksSeen := m.cov.blocksSeen + 1));
    assert Get(TextOf(content).fields, "text") == content;
    TextReads(r, ctx, s, assistant, true, seen, None, content);
    hide Adds, TextBlock, TextFacts, Suits;
  }

  lemma AllTextIs(blocks: seq<Json>)
    ensures blocks != [] ==> (AllText(blocks) <==> forall b :: b in blocks ==> IsText(b))
  {
    if forall b :: b in blocks ==> IsText(b) {
      forall k | 0 <= k < |blocks|
        ensures IsText(blocks[k])
      {
        assert blocks[k] in blocks;
      }
    }
  }

  lemma ContentReads(r: Reader, ctx: Context, s: VerifiedSession, assistant: bool, start: Message, content: Json)
    requires Suits(r, ctx, s, assistant, start.positions) && (content.JStr? || content.JArr?)
    ensures var m := if content.JStr? then BlockStep(r.env, ctx, assistant, true, start, None, TextOf(content))
                     else Blocks(r.env, ctx, assistant, AllText(content.items), start, content.items);
            Adds(r, start.details, m.details, ContentFacts(r.env, s, assistant, content))
  {
    hide Suits, BlockStep, TextFacts, BlockFacts, Adds, AllText;
    if content.JStr? {
      StringReads(r, ctx, s, assistant, start, content);
    } else {
      AllTextIs(content.items);
      BlocksRead(r, ctx, s, assistant, AllText(content.items), start, content.items);
    }
  }

  /** A message that is read says what the session's records and its own blocks say. */
  lemma MessageReads(r: Reader, ctx: Context, s: VerifiedSession, v: Object, generation: Option<nat>,
                     positions: Positions, cov: Coverage)
    requires r.repo == ctx.repo && (IsMessage(v) ==> ModeOf(r.env, s, ctx.sidechain)) && Knows(r, ctx, positions)
    ensures var out := MessageOutcome(r.env, ctx, v, generation, positions, cov);
            && (out.details.Some? <==> IsMessageOf(v, "assistant") || IsMessageOf(v, "user"))
            && (IsMessageOf(v, "assistant") ==>
                  AllRead(r, out.details.value, AssistantFacts(r.env, s, Get(v, "message").fields)))
            && (IsMessageOf(v, "user") ==>
                  AllRead(r, out.details.value,
                          ContentFacts(r.env, s, false, Get(Get(v, "message").fields, "content"))))
            && (out.details.Some? ==> out.observedAt == r.env.instant(Get(v, "timestamp")))
  {
    hide Adds, AllRead, Metadata, BlockStep, Blocks, Renoted, AllText, Invalid, ContentFacts, MetadataFacts,
        StampInvalid, ToolUseIds;
    var c2 := Invalid(Invalid(cov, generation.Some?), StampInvalid(r.env, v));
    if IsMessageOf(v, "assistant") {
      var m := Get(v, "message").fields;
      var facts := MetadataFacts(r.env, m);
      MetadataReads(r, m, c2);
      var start := Message(Metadata(r.env, m, c2).0, positions, Metadata(r.env, m, c2).1);
      ContentReads(r, ctx, s, true, start, Get(m, "content"));
      var details := MessageOutcome(r.env, ctx, v, generation, positions, cov).details.value;
      AddsThen(r, [], start.details, details, facts, ContentFacts(r.env, s, true, Get(m, "content")));
      AddsAll(r, details, facts + ContentFacts(r.env, s, true, Get(m, "content")));
    } else if IsMessageOf(v, "user") {
      var content := Get(Get(v, "message").fields, "content");
      ContentReads(r, ctx, s, false, Message([], positions, c2), content);
      AddsAll(r, MessageOutcome(r.env, ctx, v, generation, positions, cov).details.value,
              ContentFacts(r.env, s, false, content));
    }
  }

  // ---- Other records ---------------------------------------------------------

  lemma ShapeReads(r: Reader, m: Message, b: Json)
    ensures Adds(r, m.details, UnknownBlock(r.env, m, b).details, ShapeFacts(b))
  {
    var seen := m.(cov := m.cov.(blocksSeen := m.cov.blocksSeen + 1));
    AddsNothing(r, m.details);
    if b.JObj? {
      var text, content := Get(b.fields, "text"), Get(b.fields, "content");
      AddsOne(r, seen, Pasted(r.env.shape(text)), PastedText(text));
      AddsOne(r, seen, Pasted(r.env.shape(content)), PastedText(content));
      hide Adds, Emit;
    }
  }

  lemma {:induction false} ShapesRead(r: Reader, m: Message, blocks: seq<Json>)
    ensures Adds(r, m.details, UnknownBlocks(r.env, m, blocks).details, ShapesFacts(blocks))
  {
    hide Adds, UnknownBlock, ShapeFacts;
    if blocks == [] {
      AddsNothing(r, m.details);
    } else {
      var n := |blocks| - 1;
      var before := UnknownBlocks(r.env, m, blocks[..n]);
      ShapesRead(r, m, blocks[..n]);
      ShapeReads(r, before, blocks[n]);
      AddsThen(r, m.details, before.details, UnknownBlocks(r.env, m, blocks).details, ShapesFacts(blocks[..n]),
               ShapeFacts(blocks[n]));
    }
  }

  lemma StringShape(content: Json)
    requires content.JStr?
    ensures ShapesFacts([TextOf(content)]) == [PastedText(content)]
  {
    var blocks := [TextOf(content)];
    assert blocks[..0] == [] && Get(TextOf(content).fields, "text") == content;
    assert ShapeFacts(blocks[0]) == [PastedText(content)];
  }

  lemma UnknownReads(r: Reader, v: Object, positions: Positions, cov: Coverage)
    ensures var out := UnknownOutcome(r.env, v, positions, cov);
            && (out.details.Some? <==> UnknownFacts(v) != []) && out.positions == positions
            && (out.details.Some? ==>
                  AllRead(r, out.details.value, UnknownFacts(v))
                  && out.observedAt == r.env.instant(Get(v, "timestamp")))
  {
    hide UnknownBlocks, ShapesFacts, StampInvalid, Invalid, Reads;
    if Get(v, "message").JObj? {
      var content := Get(Get(v, "message").fields, "content");
      if content.JStr? || content.JArr? {
        var start := Message([], positions, Invalid(cov, StampInvalid(r.env, v)));
        var blocks := if content.JStr? then [TextOf(content)] else content.items;
        ShapesRead(r, start, blocks);
        AddsAll(r, UnknownBlocks(r.env, start, blocks).details, ShapesFacts(blocks));
        if content.JStr? {
          StringShape(content);
        }
      }
    }
  }

  lemma LifecycleReads(r: Reader, s: VerifiedSession, i: nat, v: Object, last: Option<nat>, positions: Positions,
                       cov: Coverage)
    requires i < |s.records| && LastIs(s, Boundaries(r.env), i, last)
    ensures var generation := s.records[i].generation;
            var observed := if RaisesGeneration(v, generation, last) then generation else None;
            var out := LifecycleOutcome(r.env, v, generation, observed, positions, cov);
            var facts := MarkerFor(r.env, s, i, Get(v, "subtype"));
            && (out.details.Some? <==> Get(v, "type") == JStr("system") && facts != [])
            && (out.details.Some? ==>
                  AllRead(r, out.details.value, facts) && out.observedAt == r.env.instant(Get(v, "timestamp")))
  {
    hide Boundary, StampInvalid, Invalid;
  }

  // ---- What a message notes --------------------------------------------------

  predicate CallFact(facts: seq<Fact>, k: nat, id: string) {
    k < |facts| && facts[k].Calls? && facts[k].id == JStr(id)
  }

  /** The positions noted are those of calls among the facts, and of all calls under ids given out once. */
  ghost predicate NotesCalls(ctx: Context, before: Positions, facts: seq<Fact>, after: Positions) {
    && (forall id :: id in before ==> id in after)
    && (forall id :: id in after ==>
          (id in before && after[id] == before[id])
          || (after[id].0 == ctx.record && CallFact(facts, after[id].1, id)))
    && (forall k: nat, id :: CallFact(facts, k, id) && ToolIdCount(ctx.objects, id) == 1 ==>
          id in after && after[id].0 == ctx.record && CallFact(facts, after[id].1, id))
  }

  lemma NothingNoted(ctx: Context, positions: Positions, facts: seq<Fact>)
    requires NoCalls(facts)
    ensures NotesCalls(ctx, positions, facts, positions)
  {
  }

  lemma NotesNoMore(ctx: Context, before: Positions, facts: seq<Fact>, more: seq<Fact>, after: Positions)
    requires NotesCalls(ctx, before, facts, after) && NoCalls(more)
    ensures NotesCalls(ctx, before, facts + more, after)
  {
    forall k: nat, id | CallFact(facts + more, k, id)
      ensures CallFact(facts, k, id)
    {
    }
    forall id | id in after && !(id in before && after[id] == before[id])
      ensures CallFact(facts + more, after[id].1, id)
    {
      assert CallFact(facts, after[id].1, id);
    }
    assert forall id :: id in after && CallFact(facts, after[id].1, id) ==> CallFact(facts + more, after[id].1, id);
  }

  lemma NotesOne(ctx: Context, before: Positions, facts: seq<Fact>, call: Fact, after: Positions)
    requires NotesCalls(ctx, before, facts, after) && call.Calls?
    ensures NotesCalls(ctx, before, facts + [call],
                       if call.id.JStr? && ToolIdCount(ctx.objects, call.id.s) == 1
                       then after[call.id.s := (ctx.record, |facts|)] else after)
  {
    var all := facts + [call];
    assert forall k: nat, id :: CallFact(facts, k, id) ==> CallFact(all, k, id);
    assert forall k: nat, id :: CallFact(all, k, id) ==>
           CallFact(facts, k, id) || (k == |facts| && call.id == JStr(id));
    hide ToolIdCount;
    if call.id.JStr? {
      assert CallFact(all, |facts|, call.id.s);
    }
  }

  lemma DerivedKeeps(env: Env, ctx: Context, m: Message, block: Option<nat>, b: Object)
    ensures Derived(env, ctx, m, block, b).positions == m.positions
  {
  }

  lemma BlockNotes(env: Env, ctx: Context, s: VerifiedSession, textOnly: bool, m: Message, k: nat, b: Json,
                   base: Positions, facts: seq<Fact>)
    requires |m.details| == |facts| && NotesCalls(ctx, base, facts, m.positions)
    ensures NotesCalls(ctx, base, facts + BlockFacts(env, s, true, textOnly, b),
                       BlockStep(env, ctx, true, textOnly, m, Some(k), b).positions)
  {
    var seen := m.(cov := m.cov.(blocksSeen := m.cov.blocksSeen + 1));
    var more := BlockFacts(env, s, true, textOnly, b);
    hide NotesCalls, Derived, FoundIn;
    if b.JObj? && Get(b.fields, "type") == JStr("tool_use") {
      var name := Get(b.fields, "name");
      var call := Calls(name, Get(b.fields, "id"), "input" in b.fields);
      var found := if "input" in b.fields then FoundIn(env, name, b.fields["input"]) else [];
      NotesOne(ctx, base, facts, call, m.positions);
      DerivedKeeps(env, ctx, seen, Some(k), b.fields);
      FoundNoCalls(env, name, Get(b.fields, "input"));
      NotesNoMore(ctx, base, facts + [call], found, BlockStep(env, ctx, true, textOnly, m, Some(k), b).positions);
      assert facts + [call] + found == facts + more;
    } else {
      NotesNoMore(ctx, base, facts, more, m.positions);
    }
  }

  lemma {:induction false} BlocksNote(r: Reader, ctx: Context, s: VerifiedSession, textOnly: bool, m: Message,
                                      blocks: seq<Json>, base: Positions, facts: seq<Fact>)
    requires r.repo == ctx.repo && |m.details| == |facts| && NotesCalls(ctx, base, facts, m.positions)
    ensures NotesCalls(ctx, base, facts + BlocksFacts(r.env, s, true, textOnly, blocks),
                       Blocks(r.env, ctx, true, textOnly, m, blocks).positions)
  {
    hide NotesCalls, BlockFacts, BlockStep, Reads;
    if blocks == [] {
      assert facts + [] == facts;
    } else {
      var n := |blocks| - 1;
      var before := BlocksFacts(r.env, s, true, textOnly, blocks[..n]);
      BlocksNote(r, ctx, s, textOnly, m, blocks[..n], base, facts);
      BlocksRead(r, ctx, s, true, textOnly, m, blocks[..n]);
      BlockNotes(r.env, ctx, s, textOnly, Blocks(r.env, ctx, true, textOnly, m, blocks[..n]), n, blocks[n], base,
                 facts + before);
      assert facts + before + BlockFacts(r.env, s, true, textOnly, blocks[n])
          == facts + BlocksFacts(r.env, s, true, textOnly, blocks);
    }
  }

  /** The ids of the calls, in order. */
  function CallIds(facts: seq<Fact>): seq<Json> {
    if facts == [] then []
    else
      var last := facts[|facts| - 1];
      CallIds(facts[..|facts| - 1]) + (if last.Calls? then [last.id] else [])
  }

  lemma {:induction false} CallIdsConcat(f: seq<Fact>, g: seq<Fact>)
    ensures CallIds(f + g) == CallIds(f) + CallIds(g)
  {
    if g == [] {
      assert f + g == f;
    } else {
      var n := |g| - 1;
      CallIdsConcat(f, g[..n]);
      assert (f + g)[..|f + g| - 1] == f + g[..n];
    }
  }

  lemma {:induction false} NoCallIds(facts: seq<Fact>)
    requires NoCalls(facts)
    ensures CallIds(facts) == []
  {
    if facts != [] {
      NoCallIds(facts[..|facts| - 1]);
    }
  }

  lemma BlockCallIds(env: Env, s: VerifiedSession, textOnly: bool, b: Json)
    ensures CallIds(BlockFacts(env, s, true, textOnly, b)) == ToolUseIds([b])
  {
    assert [b][..0] == [];
    assert ToolUseIds([]) == [];
    var facts := BlockFacts(env, s, true, textOnly, b);
    if b.JObj? && Get(b.fields, "type") == JStr("tool_use") {
      var name := Get(b.fields, "name");
      var call := Calls(name, Get(b.fields, "id"), "input" in b.fields);
      var found := if "input" in b.fields then FoundIn(env, name, b.fields["input"]) else [];
      FoundNoCalls(env, name, Get(b.fields, "input"));
      hide FoundIn;
      NoCallIds(found);
      CallIdsConcat([call], found);
      assert [call][..0] == [];
      assert CallIds([call]) == [call.id];
    } else {
      NoCallIds(facts);
    }
  }

  lemma {:induction false} BlocksCallIds(env: Env, s: VerifiedSession, textOnly: bool, blocks: seq<Json>)
    ensures CallIds(BlocksFacts(env, s, true, textOnly, blocks)) == ToolUseIds(blocks)
  {
    hide BlockFacts;
    if blocks != [] {
      var n := |blocks| - 1;
      BlocksCallIds(env, s, textOnly, blocks[..n]);
      BlockCallIds(env, s, textOnly, blocks[n]);
      CallIdsConcat(BlocksFacts(env, s, true, textOnly, blocks[..n]), BlockFacts(env, s, true, textOnly, blocks[n]));
      LastId(blocks);
    }
  }

  lemma LastId(blocks: seq<Json>)
    requires blocks != []
    ensures ToolUseIds(blocks) == ToolUseIds(blocks[..|blocks| - 1]) + ToolUseIds([blocks[|blocks| - 1]])
  {
    assert [blocks[|blocks| - 1]][..0] == [];
  }

  lemma {:induction false} CallIdsAt(facts: seq<Fact>, n: nat)
    requires n < |facts| && facts[n].Calls?
    ensures |CallIds(facts[..n])| < |CallIds(facts)| && CallIds(facts)[|CallIds(facts[..n])|] == facts[n].id
  {
    var before, last := facts[..n], facts[n + 1..];
    assert facts == before + [facts[n]] + last;
    CallIdsConcat(before + [facts[n]], last);
    assert (before + [facts[n]])[..n] == before;
  }

  lemma {:induction false} CallsCounted(r: Reader, details: seq<Detail>, facts: seq<Fact>)
    requires AllRead(r, details, facts)
    ensures CallsIn(details) == |CallIds(facts)|
  {
    if details != [] {
      var n := |details| - 1;
      assert Reads(r, details[n], facts[n]);
      assert AllRead(r, details[..n], facts[..n]);
      CallsCounted(r, details[..n], facts[..n]);
    }
  }

  /** The second pass notes the calls where they already are. */
  lemma {:induction false} RenotedAgain(r: Reader, ctx: Context, details: seq<Detail>, facts: seq<Fact>,
                                        base: Positions, positions: Positions, n: nat)
    requires AllRead(r, details, facts) && n <= |details| && NotesCalls(ctx, base, facts, positions)
    ensures NotesCalls(ctx, base, facts, Renoted(ctx, details[..n], CallIds(facts), positions))
  {
    if n > 0 {
      RenotedAgain(r, ctx, details, facts, base, positions, n - 1);
      assert details[..n][..n - 1] == details[..n - 1];
      assert AllRead(r, details[..n - 1], facts[..n - 1]);
      CallsCounted(r, details[..n - 1], facts[..n - 1]);
      assert Reads(r, details[n - 1], facts[n - 1]);
      if details[n - 1].ToolCall? {
        CallIdsAt(facts, n - 1);
        NoteAgain(ctx, base, facts, Renoted(ctx, details[..n - 1], CallIds(facts), positions), n - 1);
      }
    }
  }

  lemma NoteAgain(ctx: Context, base: Positions, facts: seq<Fact>, positions: Positions, k: nat)
    requires NotesCalls(ctx, base, facts, positions) && k < |facts| && facts[k].Calls?
    ensures facts[k].id.JStr? ==> NotesCalls(ctx, base, facts, positions[facts[k].id.s := (ctx.record, k)])
  {
    hide ToolIdCount;
    if facts[k].id.JStr? {
      assert CallFact(facts, k, facts[k].id.s);
    }
  }

  lemma {:induction false} RenotedNothing(r: Reader, ctx: Context, details: seq<Detail>, facts: seq<Fact>,
                                          ids: seq<Json>, positions: Positions)
    requires AllRead(r, details, facts) && NoCalls(facts)
    ensures Renoted(ctx, details, ids, positions) == positions
  {
    if details != [] {
      var n := |details| - 1;
      assert Reads(r, details[n], facts[n]);
      assert AllRead(r, details[..n], facts[..n]);
      RenotedNothing(r, ctx, details[..n], facts[..n], ids, positions);
    }
  }

  lemma {:induction false} UserNoCalls(env: Env, s: VerifiedSession, textOnly: bool, blocks: seq<Json>)
    ensures NoCalls(BlocksFacts(env, s, false, textOnly, blocks))
  {
    if blocks != [] {
      UserNoCalls(env, s, textOnly, blocks[..|blocks| - 1]);
    }
  }

  lemma NoCallsThen(f: seq<Fact>, g: seq<Fact>)
    requires NoCalls(f) && NoCalls(g)
    ensures NoCalls(f + g)
  {
  }

  lemma NamedNoCalls(env: Env, m: Object)
    ensures NoCalls(MetadataFacts(env, m))
  {
  }

  /** The content of a message, as the producer reads it on from the metadata. */
  function ContentMessage(env: Env, ctx: Context, assistant: bool, start: Message, content: Json): Message {
    if content.JStr? then BlockStep(env, ctx, assistant, true, start, None, TextOf(content))
    else if content.JArr? then Blocks(env, ctx, assistant, AllText(content.items), start, content.items)
    else start
  }

  function ContentIds(content: Json): seq<Json> {
    if content.JArr? then ToolUseIds(content.items) else []
  }

  lemma ContentThen(r: Reader, ctx: Context, s: VerifiedSession, start: Message, content: Json, facts: seq<Fact>)
    requires r.repo == ctx.repo && (content.JStr? || content.JArr?) && AllRead(r, start.details, facts)
    ensures AllRead(r, ContentMessage(r.env, ctx, true, start, content).details,
                    facts + ContentFacts(r.env, s, true, content))
  {
    hide AllRead, ContentFacts, Blocks, BlockStep, AllText;
    var m := ContentMessage(r.env, ctx, true, start, content);
    ContentReads(r, ctx, s, true, start, content);
    assert m.details == start.details + m.details[|start.details|..];
    ReadConcat(r, start.details, facts, m.details[|start.details|..], ContentFacts(r.env, s, true, content));
  }

  /** After the metadata, the content notes its calls. */
  lemma ContentNotes(r: Reader, ctx: Context, s: VerifiedSession, start: Message, content: Json, facts: seq<Fact>)
    requires r.repo == ctx.repo && (content.JStr? || content.JArr?)
    requires AllRead(r, start.details, facts) && NoCalls(facts)
    ensures var m := ContentMessage(r.env, ctx, true, start, content);
            NotesCalls(ctx, start.positions, facts + ContentFacts(r.env, s, true, content),
                       Renoted(ctx, m.details, ContentIds(content), m.positions))
  {
    ContentThen(r, ctx, s, start, content, facts);
    hide *;
    if content.JStr? {
      StringNotes(r, ctx, s, start, content, facts);
    } else {
      ListNotes(r, ctx, s, start, content, facts);
    }
  }

  lemma StringNotes(r: Reader, ctx: Context, s: VerifiedSession, start: Message, content: Json, facts: seq<Fact>)
    requires r.repo == ctx.repo && content.JStr? && NoCalls(facts)
    requires AllRead(r, ContentMessage(r.env, ctx, true, start, content).details,
                     facts + ContentFacts(r.env, s, true, content))
    ensures var m := ContentMessage(r.env, ctx, true, start, content);
            NotesCalls(ctx, start.positions, facts + ContentFacts(r.env, s, true, content),
                       Renoted(ctx, m.details, ContentIds(content), m.positions))
  {
    hide AllRead, NotesCalls, NoCalls, TextFacts, BlockStep, Renoted;
    var m := ContentMessage(r.env, ctx, true, start, content);
    var all := facts + ContentFacts(r.env, s, true, content);
    StringReads(r, ctx, s, true, start, content);
    TextNoCalls(r.env, s, content);
    NoCallsThen(facts, ContentFacts(r.env, s, true, content));
    RenotedNothing(r, ctx, m.details, all, [], m.positions);
    NothingNoted(ctx, start.positions, all);
  }

  lemma ListNotes(r: Reader, ctx: Context, s: VerifiedSession, start: Message, content: Json, facts: seq<Fact>)
    requires r.repo == ctx.repo && content.JArr? && NoCalls(facts) && AllRead(r, start.details, facts)
    requires AllRead(r, ContentMessage(r.env, ctx, true, start, content).details,
                     facts + ContentFacts(r.env, s, true, content))
    ensures var m := ContentMessage(r.env, ctx, true, start, content);
            NotesCalls(ctx, start.positions, facts + ContentFacts(r.env, s, true, content),
                       Renoted(ctx, m.details, ContentIds(content), m.positions))
  {
    NothingNoted(ctx, start.positions, facts);
    LengthsAgree(r, start.details, facts);
    hide AllRead, NotesCalls, NoCalls, ContentFacts, BlocksFacts, Blocks, Renoted, AllText, CallIds, ToolUseIds;
    var blocks, textOnly := content.items, AllText(content.items);
    var m := ContentMessage(r.env, ctx, true, start, content);
    var more := BlocksFacts(r.env, s, true, textOnly, blocks);
    TextOnlyIs(r.env, s, blocks);
    BlocksNote(r, ctx, s, textOnly, start, blocks, start.positions, facts);
    BlocksCallIds(r.env, s, textOnly, blocks);
    NoCallIds(facts);
    CallIdsConcat(facts, more);
    assert CallIds(facts + more) == ToolUseIds(blocks);
    RenotedAgain(r, ctx, m.details, facts + more, start.positions, m.positions, |m.details|);
    assert m.details[..|m.details|] == m.details;
  }

  lemma LengthsAgree(r: Reader, details: seq<Detail>, facts: seq<Fact>)
    requires AllRead(r, details, facts)
    ensures |details| == |facts|
  {
  }

  lemma TextNoCalls(env: Env, s: VerifiedSession, content: Json)
    requires content.JStr?
    ensures NoCalls(ContentFacts(env, s, true, content)) && NoCalls(ContentFacts(env, s, false, content))
  {
  }

  lemma TextOnlyIs(env: Env, s: VerifiedSession, blocks: seq<Json>)
    ensures ContentFacts(env, s, true, JArr(blocks)) == BlocksFacts(env, s, true, AllText(blocks), blocks)
  {
    AllTextIs(blocks);
  }

  lemma MessageNotes(r: Reader, ctx: Context, s: VerifiedSession, v: Object, generation: Option<nat>,
                     positions: Positions, cov: Coverage)
    requires r.repo == ctx.repo && (IsMessage(v) ==> ModeOf(r.env, s, ctx.sidechain)) && Knows(r, ctx, positions)
    ensures var out := MessageOutcome(r.env, ctx, v, generation, positions, cov);
            && (out.details.None? ==> out.positions == positions)
            && (IsMessageOf(v, "assistant") ==>
                  NotesCalls(ctx, positions, AssistantFacts(r.env, s, Get(v, "message").fields), out.positions))
            && (IsMessageOf(v, "user") ==> out.positions == positions)
  {
    hide Adds, AllRead, Metadata, BlockStep, Blocks, Renoted, AllText, Invalid, MetadataFacts, NoCalls,
        StampInvalid, ToolUseIds, NotesCalls, ModeOf, Knows, BlocksFacts, TextFacts, ContentFacts;
    var c2 := Invalid(Invalid(cov, generation.Some?), StampInvalid(r.env, v));
    if IsMessageOf(v, "assistant") {
      var m := Get(v, "message").fields;
      var facts := MetadataFacts(r.env, m);
      MetadataReads(r, m, c2);
      AddsAll(r, Metadata(r.env, m, c2).0, facts);
      NamedNoCalls(r.env, m);
      var start := Message(Metadata(r.env, m, c2).0, positions, Metadata(r.env, m, c2).1);
      ContentNotes(r, ctx, s, start, Get(m, "content"), facts);
    } else if IsMessageOf(v, "user") {
      UserNotes(r, ctx, s, Message([], positions, c2), Get(Get(v, "message").fields, "content"));
    }
  }

  lemma UserNotes(r: Reader, ctx: Context, s: VerifiedSession, start: Message, content: Json)
    requires start.details == [] && Suits(r, ctx, s, false, start.positions) && (content.JStr? || content.JArr?)
    ensures var m := ContentMessage(r.env, ctx, false, start, content);
            Renoted(ctx, m.details, ContentIds(content), m.positions) == start.positions
  {
    var m := ContentMessage(r.env, ctx, false, start, content);
    var facts := ContentFacts(r.env, s, false, content);
    hide AllRead, NoCalls, ToolUseIds, BlocksFacts, TextFacts, Blocks, BlockStep, AllText, Suits, Adds, Renoted;
    ContentReads(r, ctx, s, false, start, content);
    AddsAll(r, m.details, facts);
    if content.JStr? {
      StringReads(r, ctx, s, false, start, content);
      TextNoCalls(r.env, s, content);
    } else {
      BlocksRead(r, ctx, s, false, AllText(content.items), start, content.items);
      UserNoCalls(r.env, s, forall b :: b in content.items ==> IsText(b), content.items);
    }
    RenotedNothing(r, ctx, m.details, facts, ContentIds(content), m.positions);
  }

  // ---- How often an id is given out ------------------------------------------

  lemma {:induction false} BlocksGive(blocks: seq<Json>, id: string)
    ensures BlocksWithId(blocks, id) > 0 <==> exists k: nat :: CallBlock(blocks, k, id)
    ensures BlocksWithId(blocks, id) > 1 <==> exists k: nat, k': nat ::
              k < k' && CallBlock(blocks, k, id) && CallBlock(blocks, k', id)
  {
    if blocks != [] {
      var n := |blocks| - 1;
      BlocksGive(blocks[..n], id);
      assert forall k: nat :: CallBlock(blocks[..n], k, id) <==> k < n && CallBlock(blocks, k, id);
      assert BlocksWithId(blocks, id) ==
             BlocksWithId(blocks[..n], id) + if CallBlock(blocks, n, id) then 1 else 0;
      hide BlocksWithId;
      if BlocksWithId(blocks, id) > 0 && !CallBlock(blocks, n, id) {
        var k: nat :| CallBlock(blocks[..n], k, id);
        assert CallBlock(blocks, k, id);
      }
      if BlocksWithId(blocks, id) > 1 {
        if CallBlock(blocks, n, id) {
          var k: nat :| CallBlock(blocks[..n], k, id);
          assert k < n && CallBlock(blocks, k, id);
        } else {
          var k: nat, k': nat :| k < k' && CallBlock(blocks[..n], k, id) && CallBlock(blocks[..n], k', id);
          assert k < k' && CallBlock(blocks, k, id) && CallBlock(blocks, k', id);
        }
      }
    }
  }

  /** How many calls of one record carry the id. */
  function IdsIn(o: Option<Object>, id: string): nat {
    if o.Some? && Get(o.value, "type") == JStr("assistant") && Get(o.value, "message").JObj?
        && Get(Get(o.value, "message").fields, "content").JArr?
    then BlocksWithId(Get(Get(o.value, "message").fields, "content").items, id) else 0
  }

  lemma RecordGives(o: Option<Object>, id: string)
    ensures IdsIn(o, id) > 0 <==> exists k: nat :: GivesIn(o, k, id)
    ensures IdsIn(o, id) > 1 <==> exists k: nat, k': nat :: k < k' && GivesIn(o, k, id) && GivesIn(o, k', id)
  {
    if IdsIn(o, id) != 0 || exists k: nat :: GivesIn(o, k, id) {
      var items := Get(Get(o.value, "message").fields, "content").items;
      BlocksGive(items, id);
      assert forall k: nat :: GivesIn(o, k, id) <==> CallBlock(items, k, id);
      hide CallBlock, GivesIn;
    }
  }

  predicate GivesAt(objects: seq<Option<Object>>, j: nat, k: nat, id: string) {
    j < |objects| && GivesIn(objects[j], k, id)
  }

  ghost predicate SomeGive(objects: seq<Option<Object>>, id: string) {
    exists j: nat, k: nat :: GivesAt(objects, j, k, id)
  }

  ghost predicate TwoGive(objects: seq<Option<Object>>, id: string) {
    exists j: nat, k: nat, j': nat, k': nat ::
      Before(j, k, j', k') && GivesAt(objects, j, k, id) && GivesAt(objects, j', k', id)
  }

  lemma {:induction false} ObjectsGive(objects: seq<Option<Object>>, id: string)
    ensures ToolIdCount(objects, id) > 0 <==> SomeGive(objects, id)
    ensures ToolIdCount(objects, id) > 1 <==> TwoGive(objects, id)
  {
    if objects != [] {
      var n := |objects| - 1;
      var init := objects[..n];
      ObjectsGive(init, id);
      RecordGives(objects[n], id);
      assert ToolIdCount(objects, id) == ToolIdCount(init, id) + IdsIn(objects[n], id);
      assert forall j: nat, k: nat :: GivesAt(init, j, k, id) <==> j < n && GivesAt(objects, j, k, id);
      assert forall k: nat :: GivesAt(objects, n, k, id) <==> GivesIn(objects[n], k, id);
      hide ToolIdCount, IdsIn, GivesIn, GivesAt;
      SomeMore(objects, n, id);
      TwoMore(objects, n, id);
    }
  }

  lemma SomeMore(objects: seq<Option<Object>>, n: nat, id: string)
    requires n + 1 == |objects|
    ensures SomeGive(objects, id) <==> SomeGive(objects[..n], id) || exists k: nat :: GivesIn(objects[n], k, id)
  {
    assert forall j: nat, k: nat :: GivesAt(objects[..n], j, k, id) <==> j < n && GivesAt(objects, j, k, id);
    assert forall k: nat :: GivesAt(objects, n, k, id) <==> GivesIn(objects[n], k, id);
    assert forall j: nat, k: nat :: GivesAt(objects, j, k, id) ==> j <= n;
    hide GivesIn, GivesAt;
    if SomeGive(objects, id) {
      var j: nat, k: nat :| GivesAt(objects, j, k, id);
      assert j == n || GivesAt(objects[..n], j, k, id);
    }
    if SomeGive(objects[..n], id) {
      var j: nat, k: nat :| GivesAt(objects[..n], j, k, id);
      assert GivesAt(objects, j, k, id);
    }
  }

  lemma TwoMore(objects: seq<Option<Object>>, n: nat, id: string)
    requires n + 1 == |objects|
    ensures TwoGive(objects, id) <==>
            || TwoGive(objects[..n], id)
            || (SomeGive(objects[..n], id) && exists k: nat :: GivesIn(objects[n], k, id))
            || exists k: nat, k': nat :: k < k' && GivesIn(objects[n], k, id) && GivesIn(objects[n], k', id)
  {
    var init := objects[..n];
    assert forall j: nat, k: nat :: GivesAt(init, j, k, id) <==> j < n && GivesAt(objects, j, k, id);
    assert forall k: nat :: GivesAt(objects, n, k, id) <==> GivesIn(objects[n], k, id);
    assert forall j: nat, k: nat :: GivesAt(objects, j, k, id) ==> j <= n;
    hide GivesIn, GivesAt;
    if TwoGive(objects, id) {
      var j: nat, k: nat, j': nat, k': nat :|
        Before(j, k, j', k') && GivesAt(objects, j, k, id) && GivesAt(objects, j', k', id);
      if j' < n {
        assert GivesAt(init, j, k, id) && GivesAt(init, j', k', id);
      } else if j < n {
        assert GivesAt(init, j, k, id) && GivesIn(objects[n], k', id);
      } else {
        assert GivesIn(objects[n], k, id) && GivesIn(objects[n], k', id);
      }
    }
    if TwoGive(init, id) {
      var j: nat, k: nat, j': nat, k': nat :|
        Before(j, k, j', k') && GivesAt(init, j, k, id) && GivesAt(init, j', k', id);
      assert GivesAt(objects, j, k, id) && GivesAt(objects, j', k', id);
    }
    if SomeGive(init, id) && exists k: nat :: GivesIn(objects[n], k, id) {
      var j: nat, k: nat :| GivesAt(init, j, k, id);
      var k': nat :| GivesIn(objects[n], k', id);
      assert Before(j, k, n, k') && GivesAt(objects, j, k, id) && GivesAt(objects, n, k', id);
    }
    if exists k: nat, k': nat :: k < k' && GivesIn(objects[n], k, id) && GivesIn(objects[n], k', id) {
      var k: nat, k': nat :| k < k' && GivesIn(objects[n], k, id) && GivesIn(objects[n], k', id);
      assert Before(n, k, n, k') && GivesAt(objects, n, k, id) && GivesAt(objects, n, k', id);
    }
  }

  lemma GivenIs(env: Env, s: VerifiedSession, id: string)
    ensures ToolIdCount(SubjectObjects(env, s.records), id) > 0 <==> exists j: nat, k: nat :: Gives(env, s, j, k, id)
    ensures ToolIdCount(SubjectObjects(env, s.records), id) > 1 <==> GivenTwice(env, s, id)
  {
    var objects := SubjectObjects(env, s.records);
    ObjectsGive(objects, id);
    assert forall j: nat, k: nat :: GivesAt(objects, j, k, id) <==> Gives(env, s, j, k, id);
    hide GivesAt, Gives, ToolIdCount, SubjectObjects;
    if SomeGive(objects, id) {
      var j: nat, k: nat :| GivesAt(objects, j, k, id);
      assert Gives(env, s, j, k, id);
    }
    if exists j: nat, k: nat :: Gives(env, s, j, k, id) {
      var j: nat, k: nat :| Gives(env, s, j, k, id);
      assert GivesAt(objects, j, k, id);
    }
    if TwoGive(objects, id) {
      var j: nat, k: nat, j': nat, k': nat :|
        Before(j, k, j', k') && GivesAt(objects, j, k, id) && GivesAt(objects, j', k', id);
      assert Gives(env, s, j, k, id) && Gives(env, s, j', k', id);
    }
    if GivenTwice(env, s, id) {
      var j: nat, k: nat, j': nat, k': nat :|
        Before(j, k, j', k') && Gives(env, s, j, k, id) && Gives(env, s, j', k', id);
      assert GivesAt(objects, j, k, id) && GivesAt(objects, j', k', id);
    }
  }

  // ---- Calls said are calls given --------------------------------------------

  lemma BlockCall(env: Env, s: VerifiedSession, textOnly: bool, blocks: seq<Json>, n: nat, k: nat, id: string)
    requires n < |blocks| && CallFact(BlockFacts(env, s, true, textOnly, blocks[n]), k, id)
    ensures k == 0 && CallBlock(blocks, n, id)
  {
    hide FoundIn;
    if blocks[n].JObj? && "input" in blocks[n].fields {
      var name, input := Get(blocks[n].fields, "name"), blocks[n].fields["input"];
      FoundNoCalls(env, name, input);
    }
  }

  lemma {:induction false} CallFromBlock(env: Env, s: VerifiedSession, textOnly: bool, blocks: seq<Json>, k: nat,
                                         id: string)
    requires CallFact(BlocksFacts(env, s, true, textOnly, blocks), k, id)
    ensures exists b: nat :: CallBlock(blocks, b, id)
  {
    hide BlockFacts;
    var n := |blocks| - 1;
    var before := BlocksFacts(env, s, true, textOnly, blocks[..n]);
    if k < |before| {
      CallFromBlock(env, s, textOnly, blocks[..n], k, id);
      var b: nat :| CallBlock(blocks[..n], b, id);
      assert CallBlock(blocks, b, id);
    } else {
      BlockCall(env, s, textOnly, blocks, n, k - |before|, id);
    }
  }

  lemma {:induction false} CallsFromBlocks(env: Env, s: VerifiedSession, textOnly: bool, blocks: seq<Json>, k: nat,
                                           k': nat, id: string)
    requires k < k'
    requires CallFact(BlocksFacts(env, s, true, textOnly, blocks), k, id)
             && CallFact(BlocksFacts(env, s, true, textOnly, blocks), k', id)
    ensures exists b: nat, b': nat :: b < b' && CallBlock(blocks, b, id) && CallBlock(blocks, b', id)
  {
    hide BlockFacts;
    var n := |blocks| - 1;
    var before := BlocksFacts(env, s, true, textOnly, blocks[..n]);
    if k' < |before| {
      CallsFromBlocks(env, s, textOnly, blocks[..n], k, k', id);
      var b: nat, b': nat :| b < b' && CallBlock(blocks[..n], b, id) && CallBlock(blocks[..n], b', id);
      assert CallBlock(blocks, b, id) && CallBlock(blocks, b', id);
    } else {
      BlockCall(env, s, textOnly, blocks, n, k' - |before|, id);
      CallFromBlock(env, s, textOnly, blocks[..n], k, id);
      var b: nat :| CallBlock(blocks[..n], b, id);
      assert CallBlock(blocks, b, id) && CallBlock(blocks, n, id);
    }
  }

  lemma {:induction false} ShapesNoCalls(blocks: seq<Json>)
    ensures NoCalls(ShapesFacts(blocks))
  {
    if blocks != [] {
      ShapesNoCalls(blocks[..|blocks| - 1]);
    }
  }

  /** The calls of a message are those of its blocks. */
  lemma ContentCalls(env: Env, s: VerifiedSession, m: Object, k: nat, id: string)
    requires CallFact(AssistantFacts(env, s, m), k, id)
    ensures |MetadataFacts(env, m)| <= k && Get(m, "content").JArr?
    ensures var blocks := Get(m, "content").items;
            CallFact(BlocksFacts(env, s, true, forall b :: b in blocks ==> IsText(b), blocks),
                     k - |MetadataFacts(env, m)|, id)
  {
    NamedNoCalls(env, m);
    var content := Get(m, "content");
    if content.JStr? {
      TextNoCalls(env, s, content);
    }
    hide MetadataFacts, TextFacts, BlocksFacts, IsText;
    if k >= |MetadataFacts(env, m)| {
      assert AssistantFacts(env, s, m)[k] == ContentFacts(env, s, true, content)[k - |MetadataFacts(env, m)|];
    }
  }

  /** Only assistant messages of the subject call tools. */
  lemma OnlyAssistants(env: Env, s: VerifiedSession, j: nat, k: nat, id: string)
    requires SessionChecked(s) && CallSaid(Sayings(env, s), j, k, id)
    ensures j < |s.records| && Spoken(env, s.records[j]).Some?
    ensures var v := Spoken(env, s.records[j]).value;
            IsMessageOf(v, "assistant") && Sayings(env, s)[j].value.facts
                == AssistantFacts(env, s, Get(v, "message").fields)
  {
    var v := env.decode(s.records[j].raw).value;
    var facts := RecordFacts(env, s, j, v).value;
    hide AssistantFacts, ShapesFacts, BlocksFacts, ParentSaid, Conflicting;
    assert s.records[j] in s.records;
    if s.records[j].attribution == UnknownAuthor {
      UnknownNoCalls(v);
    } else if IsMessageOf(v, "user") {
      UserSaysNoCalls(env, s, Get(Get(v, "message").fields, "content"));
    }
  }

  lemma UnknownNoCalls(v: Object)
    ensures NoCalls(UnknownFacts(v))
  {
    if Get(v, "message").JObj? && Get(Get(v, "message").fields, "content").JArr? {
      ShapesNoCalls(Get(Get(v, "message").fields, "content").items);
    }
  }

  lemma UserSaysNoCalls(env: Env, s: VerifiedSession, content: Json)
    ensures NoCalls(ContentFacts(env, s, false, content))
  {
    if content.JArr? {
      UserNoCalls(env, s, forall b :: b in content.items ==> IsText(b), content.items);
    }
  }

  lemma SaidIsGiven(env: Env, s: VerifiedSession, j: nat, k: nat, id: string)
    requires SessionChecked(s) && CallSaid(Sayings(env, s), j, k, id)
    ensures exists b: nat :: Gives(env, s, j, b, id)
  {
    OnlyAssistants(env, s, j, k, id);
    hide Sayings, SessionChecked, AssistantFacts, BlocksFacts, MetadataFacts, Spoken;
    var m := Get(Spoken(env, s.records[j]).value, "message").fields;
    ContentCalls(env, s, m, k, id);
    var blocks := Get(m, "content").items;
    CallFromBlock(env, s, forall b :: b in blocks ==> IsText(b), blocks, k - |MetadataFacts(env, m)|, id);
    var b: nat :| CallBlock(blocks, b, id);
    assert Gives(env, s, j, b, id);
  }

  lemma MessageCalls(env: Env, s: VerifiedSession, m: Object, k: nat, k': nat, id: string)
    requires CallFact(AssistantFacts(env, s, m), k, id) && CallFact(AssistantFacts(env, s, m), k', id) && k < k'
    ensures Get(m, "content").JArr?
    ensures exists b: nat, b': nat ::
              b < b' && CallBlock(Get(m, "content").items, b, id) && CallBlock(Get(m, "content").items, b', id)
  {
    hide AssistantFacts, BlocksFacts, MetadataFacts;
    ContentCalls(env, s, m, k, id);
    ContentCalls(env, s, m, k', id);
    var blocks, n := Get(m, "content").items, |MetadataFacts(env, m)|;
    CallsFromBlocks(env, s, forall b :: b in blocks ==> IsText(b), blocks, k - n, k' - n, id);
  }

  lemma TwoSaidAreGiven(env: Env, s: VerifiedSession, j: nat, k: nat, k': nat, id: string)
    requires SessionChecked(s) && CallSaid(Sayings(env, s), j, k, id) && CallSaid(Sayings(env, s), j, k', id)
    requires k < k'
    ensures GivenTwice(env, s, id)
  {
    OnlyAssistants(env, s, j, k, id);
    hide Sayings, SessionChecked, AssistantFacts, Spoken, Get, CallBlock;
    var m := Get(Spoken(env, s.records[j]).value, "message").fields;
    MessageCalls(env, s, m, k, k', id);
    var blocks := Get(m, "content").items;
    var b: nat, b': nat :| b < b' && CallBlock(blocks, b, id) && CallBlock(blocks, b', id);
    assert Gives(env, s, j, b, id) && Gives(env, s, j, b', id);
    assert Before(j, b, j, b');
  }

  /** An id given out once is called once. */
  lemma SaidOnce(env: Env, s: VerifiedSession, j: nat, k: nat, j': nat, k': nat, id: string)
    requires SessionChecked(s) && CallSaid(Sayings(env, s), j, k, id) && CallSaid(Sayings(env, s), j', k', id)
    requires Before(j, k, j', k')
    ensures GivenTwice(env, s, id)
  {
    hide Sayings, SessionChecked, Gives, CallSaid;
    if j < j' {
      SaidIsGiven(env, s, j, k, id);
      SaidIsGiven(env, s, j', k', id);
      var b: nat :| Gives(env, s, j, b, id);
      var b': nat :| Gives(env, s, j', b', id);
      assert Before(j, b, j', b');
    } else {
      TwoSaidAreGiven(env, s, j, k, k', id);
    }
  }

  // ---- Parents ---------------------------------------------------------------

  predicate Holds(objects: seq<Option<Object>>, k: nat, uuid: Json) {
    k < |objects| && objects[k].Some? && Get(objects[k].value, "uuid") == uuid
  }

  lemma {:induction false} HoldersAre(objects: seq<Option<Object>>, uuid: Json)
    ensures forall k: nat :: k in Holders(objects, uuid) <==> Holds(objects, k, uuid)
    ensures Ascending(Holders(objects, uuid))
  {
    if objects != [] {
      var n := |objects| - 1;
      HoldersAre(objects[..n], uuid);
      assert forall k: nat :: Holds(objects[..n], k, uuid) <==> k < n && Holds(objects, k, uuid);
      var before := Holders(objects[..n], uuid);
      forall i | 0 <= i < |before|
        ensures before[i] < n
      {
        assert before[i] in before && Holds(objects[..n], before[i], uuid);
      }
    }
  }

  lemma ParentIs(env: Env, sc: SessionContext, i: nat, v: Object)
    requires ContextFor(env, sc) && i < |sc.session.records| && env.decode(sc.session.records[i].raw) == Some(v)
    ensures ParentFor(env, sc, i, v) == ParentSaid(env, sc.session, i, v)
  {
    var s, uuid := sc.session, Get(v, "parentUuid");
    assert s.records[i] in s.records;
    if s.records[i].attribution == Subject {
      HoldersAre(sc.objects, uuid);
      forall k: nat
        ensures Holds(sc.objects, k, uuid) <==> Carries(env, s, k, uuid)
      {
        if k < |s.records| {
          SpokenObjects(env, s, k);
        }
      }
      SpokenObjects(env, s, i);
      assert sc.objects[i] == Some(v);
      hide SubjectObjects, Spoken, Holders, Carries, Holds, Inconsistent, Sidechain;
      SubjectParent(env, sc, i, v);
    }
  }

  lemma SubjectParent(env: Env, sc: SessionContext, i: nat, v: Object)
    requires SessionChecked(sc.session) && i < |sc.session.records| == |sc.objects|
    requires sc.session.records[i].attribution == Subject && sc.objects[i] == Some(v)
    requires var holders := Holders(sc.objects, Get(v, "parentUuid"));
             Ascending(holders)
             && forall k: nat :: k in holders <==> Carries(env, sc.session, k, Get(v, "parentUuid"))
    ensures ParentOf(sc.session.records, sc.objects, i) == ParentSaid(env, sc.session, i, v)
  {
    var s, uuid := sc.session, Get(v, "parentUuid");
    var holders := Holders(sc.objects, uuid);
    hide Holders, Spoken;
    if |holders| > 1 {
      assert holders[0] in holders && holders[1] in holders;
      assert Carries(env, s, holders[0], uuid) && Carries(env, s, holders[1], uuid) && holders[0] < holders[1];
    } else if |holders| == 1 {
      assert holders == [holders[0]];
      assert forall k: nat :: Carries(env, s, k, uuid) ==> k in [holders[0]];
      assert holders[0] in holders;
      assert Carries(env, s, holders[0], uuid);
    }
  }

  // ---- The record loop -------------------------------------------------------

  ghost function TwiceIn(env: Env, s: VerifiedSession): string -> bool {
    id => GivenTwice(env, s, id)
  }

  function CountIn(objects: seq<Option<Object>>): string -> nat {
    id => ToolIdCount(objects, id)
  }

  ghost function RecordReader(env: Env, s: VerifiedSession, i: nat): Reader {
    ReaderOf(env, s, Sayings(env, s), TwiceIn(env, s), i)
  }

  /** Where the record loop stands before record `n`: what it has written, noted and remembered is what
      the records say. */
  ghost predicate Following(env: Env, sc: SessionContext, n: nat, before: seq<Event>, p: Progress)
    requires n <= |sc.session.records|
  {
    var s := sc.session;
    && Heard(env, s, sc.episode, Sayings(env, s), TwiceIn(env, s), n, before, p.events)
    && Noted(Sayings(env, s), CountIn(sc.objects), n, p.positions)
    && (!Conflicting(env, s) ==> LastIs(s, Boundaries(env), n, p.last))
  }

  function ContextAt(sc: SessionContext, i: nat): Context
    requires i < |sc.session.records|
  {
    Context(i, sc.session.records[i].commitment, sc.session.repo, sc.sidechain, sc.objects)
  }

  lemma ReaderKnows(env: Env, sc: SessionContext, n: nat, positions: Positions)
    requires ContextFor(env, sc) && n < |sc.session.records|
    requires Noted(Sayings(env, sc.session), CountIn(sc.objects), n, positions)
    ensures Knows(RecordReader(env, sc.session, n), ContextAt(sc, n), positions)
  {
    var s, ctx, told := sc.session, ContextAt(sc, n), Sayings(env, sc.session);
    var twice, count := TwiceIn(env, s), CountIn(sc.objects);
    hide Noted, Sayings, GivenTwice, ToolIdCount, RelationSaid, RelationOf, SessionChecked, CallSaid, SubjectObjects;
    forall id
      ensures twice(id) <==> count(id) > 1
    {
      GivenIs(env, s, id);
    }
    forall j: nat, k: nat, id | j < n && CallSaid(told, j, k, id)
      ensures count(id) > 0
    {
      SaidIsGiven(env, s, j, k, id);
      GivenIs(env, s, id);
    }
    forall id
      ensures RecordReader(env, s, n).relation(id) == RelationOf(id, GivenOut(ctx, id), positions)
    {
      RelationIs(told, count, twice, n, positions, id);
    }
  }

  lemma NotedGrows(env: Env, sc: SessionContext, n: nat, before: Positions, after: Positions)
    requires ContextFor(env, sc) && n < |sc.session.records|
    requires Noted(Sayings(env, sc.session), CountIn(sc.objects), n, before)
    requires Sayings(env, sc.session)[n].Some?
    requires NotesCalls(ContextAt(sc, n), before, Sayings(env, sc.session)[n].value.facts, after)
    ensures Noted(Sayings(env, sc.session), CountIn(sc.objects), n + 1, after)
  {
    var s, told := sc.session, Sayings(env, sc.session);
    hide Sayings, ToolIdCount, SubjectObjects, Inconsistent, Sidechain, SessionChecked;
    forall k: nat, id
      ensures CallFact(told[n].value.facts, k, id) <==> CallSaid(told, n, k, id)
    {
    }
    forall j: nat, k: nat, id | j < n + 1 && CallSaid(told, j, k, id) && CountIn(sc.objects)(id) == 1
      ensures id in after && after[id] == (j, k)
    {
      GivenIs(env, s, id);
      if j == n {
        OneNoted(env, sc, n, k, after[id].1, id);
      } else if after[id] != before[id] {
        SaidOnce(env, s, j, k, n, after[id].1, id);
      }
    }
  }

  lemma OneNoted(env: Env, sc: SessionContext, n: nat, k: nat, k': nat, id: string)
    requires SessionChecked(sc.session) && !GivenTwice(env, sc.session, id)
    requires CallSaid(Sayings(env, sc.session), n, k, id) && CallSaid(Sayings(env, sc.session), n, k', id)
    ensures k == k'
  {
    if k < k' {
      SaidOnce(env, sc.session, n, k, n, k', id);
    } else if k' < k {
      SaidOnce(env, sc.session, n, k', n, k, id);
    }
  }

  lemma SaidBySubject(env: Env, s: VerifiedSession, i: nat, v: Object)
    requires i < |s.records| && s.records[i].attribution == Subject && env.decode(s.records[i].raw) == Some(v)
    requires !Conflicting(env, s)
    ensures var said, facts := Sayings(env, s)[i], SubjectFacts(env, s, i, v);
            && (said.Some? <==> facts.Some?)
            && (said.Some? ==>
                said.value == Saying(facts.value, env.instant(Get(v, "timestamp")), ParentSaid(env, s, i, v)))
  {
    hide SubjectFacts, ParentSaid;
  }

  lemma MessageConveys(env: Env, sc: SessionContext, n: nat, v: Object, p: Progress)
    requires ContextFor(env, sc) && n < |sc.session.records| && sc.session.records[n].attribution == Subject
    requires env.decode(sc.session.records[n].raw) == Some(v) && !Conflicting(env, sc.session)
    requires Noted(Sayings(env, sc.session), CountIn(sc.objects), n, p.positions)
    requires IsMessageOf(v, "assistant") || IsMessageOf(v, "user")
    ensures var out := MessageOutcome(env, ContextAt(sc, n), v, sc.session.records[n].generation, p.positions, p.cov);
            && Conveys(RecordReader(env, sc.session, n), Sayings(env, sc.session)[n],
                       ParentSaid(env, sc.session, n, v), out)
            && Noted(Sayings(env, sc.session), CountIn(sc.objects), n + 1, out.positions)
  {
    var s, r, ctx := sc.session, RecordReader(env, sc.session, n), ContextAt(sc, n);
    var generation := s.records[n].generation;
    SaidBySubject(env, s, n, v);
    SidechainIs(env, sc, n);
    hide Sayings, Noted, ContextFor, Conflicting, AssistantFacts, ContentFacts, ParentSaid, MessageOutcome, ModeOf,
        AllRead, NotesCalls, RelationSaid, IsMessageOf, NoCalls;
    ReaderKnows(env, sc, n, p.positions);
    MessageReads(r, ctx, s, v, generation, p.positions, p.cov);
    MessageNotes(r, ctx, s, v, generation, p.positions, p.cov);
    var out := MessageOutcome(env, ctx, v, generation, p.positions, p.cov);
    if IsMessageOf(v, "assistant") {
      NotedGrows(env, sc, n, p.positions, out.positions);
    } else {
      UserSaysNoCalls(env, s, Get(Get(v, "message").fields, "content"));
      NotedStays(Sayings(env, sc.session), CountIn(sc.objects), n, p.positions);
    }
  }

  lemma OtherConveys(env: Env, sc: SessionContext, n: nat, v: Object, p: Progress)
    requires ContextFor(env, sc) && n < |sc.session.records| && sc.session.records[n].attribution == Subject
    requires env.decode(sc.session.records[n].raw) == Some(v) && !Conflicting(env, sc.session)
    requires Noted(Sayings(env, sc.session), CountIn(sc.objects), n, p.positions)
    requires LastIs(sc.session, Boundaries(env), n, p.last)
    requires !IsMessageOf(v, "assistant") && !IsMessageOf(v, "user")
    requires var first := MessageOutcome(env, ContextAt(sc, n), v, sc.session.records[n].generation, p.positions,
                                         p.cov);
             first.details.None? && first.positions == p.positions
    ensures var out := SubjectOutcome(env, sc, n, v, p);
            && Conveys(RecordReader(env, sc.session, n), Sayings(env, sc.session)[n],
                       ParentSaid(env, sc.session, n, v), out)
            && Noted(Sayings(env, sc.session), CountIn(sc.objects), n + 1, out.positions)
  {
    var s, r := sc.session, RecordReader(env, sc.session, n);
    var first := MessageOutcome(env, ContextAt(sc, n), v, s.records[n].generation, p.positions, p.cov);
    var cov := Invalid(first.cov, StaleGeneration(v, s.records[n].generation, p.last));
    SaidBySubject(env, s, n, v);
    LifecycleReads(r, s, n, v, p.last, p.positions, cov);
    MarkersCallNothing(env, s, n, Get(v, "subtype"));
    hide Sayings, Noted, ContextFor, Conflicting, ParentSaid, MessageOutcome, Reads, LastIs, Invalid,
        StaleGeneration, RelationSaid, IsMessageOf, MarkerFor;
    NotedStays(Sayings(env, sc.session), CountIn(sc.objects), n, p.positions);
    LifecyclePositions(env, v, s.records[n].generation,
                       if RaisesGeneration(v, s.records[n].generation, p.last) then s.records[n].generation else None,
                       p.positions, cov);
  }

  lemma LifecyclePositions(env: Env, v: Object, generation: Option<nat>, observed: Option<nat>, positions: Positions,
                           cov: Coverage)
    ensures LifecycleOutcome(env, v, generation, observed, positions, cov).positions == positions
  {
  }

  lemma MarkersCallNothing(env: Env, s: VerifiedSession, i: nat, subtype: Json)
    requires i < |s.records|
    ensures NoCalls(MarkerFor(env, s, i, subtype))
  {
  }

  lemma SubjectConveys(env: Env, sc: SessionContext, n: nat, v: Object, before: seq<Event>, p: Progress)
    requires ContextFor(env, sc) && n < |sc.session.records| && sc.session.records[n].attribution == Subject
    requires env.decode(sc.session.records[n].raw) == Some(v) && !Conflicting(env, sc.session)
    requires Following(env, sc, n, before, p)
    ensures var out := SubjectOutcome(env, sc, n, v, p);
            && Conveys(RecordReader(env, sc.session, n), Sayings(env, sc.session)[n], ParentFor(env, sc, n, v), out)
            && Noted(Sayings(env, sc.session), CountIn(sc.objects), n + 1, out.positions)
  {
    hide Sayings, Noted, ContextFor, Conflicting, ParentSaid, ParentFor, MessageOutcome, Reads, LastIs, Conveys, ModeOf,
        IsMessageOf, Heard, LifecycleOutcome, AssistantFacts, RelationSaid, NotesCalls;
    ParentIs(env, sc, n, v);
    if IsMessageOf(v, "assistant") || IsMessageOf(v, "user") {
      MessageConveys(env, sc, n, v, p);
      MessageParses(env, sc, n, v, p);
    } else {
      MessageParses(env, sc, n, v, p);
      OtherConveys(env, sc, n, v, p);
    }
  }

  /** The message path takes exactly the messages. */
  lemma MessageParses(env: Env, sc: SessionContext, n: nat, v: Object, p: Progress)
    requires n < |sc.session.records|
    ensures var out := MessageOutcome(env, ContextAt(sc, n), v, sc.session.records[n].generation, p.positions, p.cov);
            && (out.details.Some? <==> IsMessageOf(v, "assistant") || IsMessageOf(v, "user"))
            && (out.details.None? ==> out.positions == p.positions)
  {
    hide BlockStep, Blocks, Metadata, Renoted, AllText, Invalid, StampInvalid;
  }

  lemma SubjectFollows(env: Env, sc: SessionContext, n: nat, v: Object, before: seq<Event>, p: Progress)
    requires ContextFor(env, sc) && n < |sc.session.records| == |sc.objects|
    requires sc.session.records[n].attribution == Subject
    requires env.decode(sc.session.records[n].raw) == Some(v) && !Conflicting(env, sc.session)
    requires Following(env, sc, n, before, p)
    ensures Following(env, sc, n + 1, before, RecordStep(env, sc, p, n))
  {
    ConflictIs(env, sc);
    SubjectConveys(env, sc, n, v, before, p);
    LastFollows(env, sc.session, n, v, p.last);
    MessageParses(env, sc, n, v, p);
    var r := sc.session.records[n];
    var out := SubjectOutcome(env, sc, n, v, p);
    var last := if RaisesGeneration(v, r.generation, p.last) then r.generation else p.last;
    hide Sayings, Noted, ContextFor, Conflicting, ParentFor, MessageOutcome, SubjectOutcome, LastIs, Conveys, Heard,
        RecordReader, Finish, GivenTwice;
    RaisesNoMessage(v, r.generation, p.last);
    FinishKeepsNotes(p, sc, n, ParentFor(env, sc, n, v), out, last);
    hide RaisesGeneration, IsMessageOf;
    assert RecordStep(env, sc, p, n) == Finish(p, sc, n, ParentFor(env, sc, n, v), out, last);
    SessionHears(env, sc, n, before, p, ParentFor(env, sc, n, v), out, last);
  }

  lemma LastFollows(env: Env, s: VerifiedSession, i: nat, v: Object, last: Option<nat>)
    requires i < |s.records| && LastIs(s, Boundaries(env), i, last) && Spoken(env, s.records[i]) == Some(v)
    ensures LastIs(s, Boundaries(env), i + 1,
                   if RaisesGeneration(v, s.records[i].generation, last) then s.records[i].generation else last)
  {
    hide LastIs;
    if Boundary(env, s.records[i]) {
      LastMoves(s, Boundaries(env), i, last);
    } else {
      LastStays(s, Boundaries(env), i, last);
    }
  }

  lemma RaisesNoMessage(v: Object, generation: Option<nat>, last: Option<nat>)
    ensures RaisesGeneration(v, generation, last) ==> !IsMessageOf(v, "assistant") && !IsMessageOf(v, "user")
  {
  }

  lemma SessionHears(env: Env, sc: SessionContext, n: nat, before: seq<Event>, p: Progress, parent: ParentLink,
                     out: Claude.Outcome, last: Option<nat>)
    requires n < |sc.session.records|
    requires Heard(env, sc.session, sc.episode, Sayings(env, sc.session), TwiceIn(env, sc.session), n, before, p.events)
    requires Conveys(RecordReader(env, sc.session, n), Sayings(env, sc.session)[n], parent, out)
    ensures Heard(env, sc.session, sc.episode, Sayings(env, sc.session), TwiceIn(env, sc.session), n + 1, before,
                  Finish(p, sc, n, parent, out, last).events)
  {
    FinishHears(env, sc, Sayings(env, sc.session), TwiceIn(env, sc.session), n, before, p, parent, out, last);
  }

  lemma UnknownFollows(env: Env, sc: SessionContext, n: nat, v: Object, before: seq<Event>, p: Progress)
    requires ContextFor(env, sc) && n < |sc.session.records| == |sc.objects|
    requires sc.session.records[n].attribution == UnknownAuthor
    requires env.decode(sc.session.records[n].raw) == Some(v) && Following(env, sc, n, before, p)
    ensures Following(env, sc, n + 1, before, RecordStep(env, sc, p, n))
  {
    var s := sc.session;
    var out := UnknownOutcome(env, v, p.positions, p.cov);
    UnknownReads(RecordReader(env, s, n), v, p.positions, p.cov);
    UnknownNoCalls(v);
    ParentIs(env, sc, n, v);
    assert Conveys(RecordReader(env, s, n), Sayings(env, s)[n], ParentFor(env, sc, n, v), out) by {
      hide UnknownFacts, UnknownOutcome, AllRead, ParentSaid, ParentFor, Conflicting, SubjectFacts;
    }
    assert Sayings(env, s)[n].None? || NoCalls(Sayings(env, s)[n].value.facts) by {
      hide UnknownFacts, ParentSaid, Conflicting, SubjectFacts, NoCalls;
    }
    assert Spoken(env, s.records[n]).None?;
    hide *;
    NotedStays(Sayings(env, sc.session), CountIn(sc.objects), n, p.positions);
    UnknownStep(env, sc, n, v, before, p, out);
  }

  lemma UnknownStep(env: Env, sc: SessionContext, n: nat, v: Object, before: seq<Event>, p: Progress,
                    out: Claude.Outcome)
    requires n < |sc.session.records| == |sc.objects| && Following(env, sc, n, before, p)
    requires sc.session.records[n].attribution == UnknownAuthor && env.decode(sc.session.records[n].raw) == Some(v)
    requires Spoken(env, sc.session.records[n]).None?
    requires out == UnknownOutcome(env, v, p.positions, p.cov) && out.positions == p.positions
    requires Conveys(RecordReader(env, sc.session, n), Sayings(env, sc.session)[n], ParentFor(env, sc, n, v), out)
    requires Noted(Sayings(env, sc.session), CountIn(sc.objects), n + 1, p.positions)
    ensures Following(env, sc, n + 1, before, RecordStep(env, sc, p, n))
  {
    hide Sayings, Noted, Conflicting, ParentFor, UnknownOutcome, LastIs, Conveys, Heard, RecordReader, Finish, Spoken;
    if !Conflicting(env, sc.session) {
      LastStays(sc.session, Boundaries(env), n, p.last);
    }
    FinishKeepsNotes(p, sc, n, ParentFor(env, sc, n, v), out, p.last);
    SessionHears(env, sc, n, before, p, ParentFor(env, sc, n, v), out, p.last);
  }

  /** A record that does not decode, or one of the subject in a session whose records disagree. */
  lemma SilentFollows(env: Env, sc: SessionContext, n: nat, before: seq<Event>, p: Progress)
    requires ContextFor(env, sc) && n < |sc.session.records| == |sc.objects| && Following(env, sc, n, before, p)
    requires || env.decode(sc.session.records[n].raw).None?
             || (sc.session.records[n].attribution == Subject && Conflicting(env, sc.session))
    ensures Following(env, sc, n + 1, before, RecordStep(env, sc, p, n))
  {
    var s := sc.session;
    ConflictIs(env, sc);
    assert Sayings(env, s)[n].None?;
    if !Conflicting(env, s) {
      LastStays(s, Boundaries(env), n, p.last);
    }
    var after := RecordStep(env, sc, p, n);
    assert after.events == p.events && after.positions == p.positions && after.last == p.last;
    hide *;
    NotedStays(Sayings(env, sc.session), CountIn(sc.objects), n, p.positions);
    SkipHears(env, s, sc.episode, Sayings(env, s), TwiceIn(env, s), n, before, p.events);
    SilentStep(env, sc, n, before, p, after);
  }

  lemma SilentStep(env: Env, sc: SessionContext, n: nat, before: seq<Event>, p: Progress, after: Progress)
    requires n < |sc.session.records|
    requires after.events == p.events && after.positions == p.positions && after.last == p.last
    requires Heard(env, sc.session, sc.episode, Sayings(env, sc.session), TwiceIn(env, sc.session), n + 1, before,
                   p.events)
    requires Noted(Sayings(env, sc.session), CountIn(sc.objects), n + 1, p.positions)
    requires Conflicting(env, sc.session) || LastIs(sc.session, Boundaries(env), n + 1, p.last)
    ensures Following(env, sc, n + 1, before, after)
  {
  }

  lemma StepFollows(env: Env, sc: SessionContext, n: nat, before: seq<Event>, p: Progress)
    requires ContextFor(env, sc) && n < |sc.session.records| == |sc.objects| && Following(env, sc, n, before, p)
    ensures Following(env, sc, n + 1, before, RecordStep(env, sc, p, n))
  {
    var r := sc.session.records[n];
    assert r in sc.session.records && r.attribution != NonSubject;
    hide *;
    match env.decode(r.raw) {
      case None => SilentFollows(env, sc, n, before, p);
      case Some(v) =>
        if r.attribution == UnknownAuthor {
          UnknownFollows(env, sc, n, v, before, p);
        } else if Conflicting(env, sc.session) {
          SilentFollows(env, sc, n, before, p);
        } else {
          SubjectFollows(env, sc, n, v, before, p);
        }
    }
  }

  lemma NothingFollowed(env: Env, sc: SessionContext, start: Progress)
    requires start.positions == map[] && start.last.None?
    ensures Following(env, sc, 0, start.events, start)
  {
    NothingHeard(env, sc.session, sc.episode, Sayings(env, sc.session), TwiceIn(env, sc.session), start.events);
    hide Heard, Sayings, Conflicting, CallSaid, Boundary, TwiceIn, CountIn;
  }

  lemma {:induction false} RecordsFollow(env: Env, sc: SessionContext, start: Progress, n: nat)
    requires ContextFor(env, sc) && n <= |sc.session.records| == |sc.objects|
    requires start.positions == map[] && start.last.None?
    ensures Following(env, sc, n, start.events, RecordsUpTo(env, sc, start, n))
  {
    hide Following, ContextFor, RecordStep;
    if n == 0 {
      NothingFollowed(env, sc, start);
    } else {
      RecordsFollow(env, sc, start, n - 1);
      StepFollows(env, sc, n - 1, start.events, RecordsUpTo(env, sc, start, n - 1));
    }
  }

  // ---- The corpus ------------------------------------------------------------

  ghost function TellingOf(env: Env, s: VerifiedSession): Telling {
    Telling(Sayings(env, s), TwiceIn(env, s))
  }

  ghost function Tellings(env: Env, sessions: seq<VerifiedSession>): (r: seq<Telling>)
    ensures |r| == |sessions| && forall k :: 0 <= k < |r| ==> r[k] == TellingOf(env, sessions[k])
  {
    seq(|sessions|, k requires 0 <= k < |sessions| => TellingOf(env, sessions[k]))
  }

  lemma SessionSays(env: Env, st: Stitched, sessions: seq<VerifiedSession>, c: Growth, s: VerifiedSession)
    requires SessionChecked(s)
    requires AllStated(env, st, sessions, Tellings(env, sessions), c.events)
    requires NoneLost(sessions, Tellings(env, sessions), c.events)
    ensures AllStated(env, st, sessions + [s], Tellings(env, sessions + [s]), SessionStep(env, st, c, s).events)
    ensures NoneLost(sessions + [s], Tellings(env, sessions + [s]), SessionStep(env, st, c, s).events)
  {
    hide AllStated, NoneLost, RecordsUpTo, Following, TellingOf, Started, SessionChecked, Inconsistent, Sidechain,
        SubjectObjects;
    var sc := ContextOf(env, s, Lookup(st.ids, s.id));
    var start := Progress(c.events, Started(c.cov, s), map[], None);
    var after := RecordsUpTo(env, sc, start, |s.records|).events;
    RecordsFollow(env, sc, start, |s.records|);
    FollowingHeard(env, sc, c.events, RecordsUpTo(env, sc, start, |s.records|));
    assert Tellings(env, sessions + [s]) == Tellings(env, sessions) + [TellingOf(env, s)];
    SessionStated(env, st, sessions, Tellings(env, sessions), c.events, s, TellingOf(env, s), after);
    SessionNotLost(env, st, sessions, Tellings(env, sessions), c.events, s, TellingOf(env, s), after);
  }

  lemma FollowingHeard(env: Env, sc: SessionContext, before: seq<Event>, p: Progress)
    requires Following(env, sc, |sc.session.records|, before, p)
    ensures var t := TellingOf(env, sc.session);
            && |t.told| == |sc.session.records|
            && Heard(env, sc.session, sc.episode, t.told, t.twice, |sc.session.records|, before, p.events)
  {
    hide Heard, Noted, LastIs;
  }

  lemma {:induction false} SessionsSay(env: Env, st: Stitched, sessions: seq<VerifiedSession>)
    requires forall s :: s in sessions ==> SessionChecked(s)
    ensures AllStated(env, st, sessions, Tellings(env, sessions), SessionsUpTo(env, st, sessions).events)
    ensures NoneLost(sessions, Tellings(env, sessions), SessionsUpTo(env, st, sessions).events)
  {
    if sessions != [] {
      var n := |sessions| - 1;
      assert sessions[n] in sessions && sessions == sessions[..n] + [sessions[n]];
      hide SessionStep, SessionChecked, AllStated, NoneLost;
      SessionsSay(env, st, sessions[..n]);
      SessionSays(env, st, sessions[..n], SessionsUpTo(env, st, sessions[..n]), sessions[n]);
    }
  }

  /** The artifact says what the records say: every event states the fact its record gives at that place,
      and no fact of any record is left out. */
  lemma ClaudeSays(env: Env, sessions: seq<VerifiedSession>, st: Stitched)
    requires Checked(sessions)
    ensures AllStated(env, st, sessions, Tellings(env, sessions), Normalized(env, sessions, st).events)
    ensures NoneLost(sessions, Tellings(env, sessions), Normalized(env, sessions, st).events)
  {
    hide SessionChecked;
    SessionsSay(env, st, sessions);
    hide AllStated, NoneLost, SessionsUpTo, Rejoin;
    RejoinStated(env, st, sessions, Tellings(env, sessions), SessionsUpTo(env, st, sessions).events);
    RejoinNotLost(sessions, Tellings(env, sessions), SessionsUpTo(env, st, sessions).events);
  }
}
