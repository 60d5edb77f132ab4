/** Content pointers: emitting one and resolving it undo each other. */
module Pointers {
  import opened Records
  import opened Episodes
  import opened Corpus
  import opened CorpusBuild
  import opened CorpusLineage
  import opened Transcripts
  import opened Claude

  // ---- Resolving a pointer in one record -------------------------------------

  /** The span of a text, or None where its coordinates do not fit. */
  function SpanOf(target: Json, p: Pointer): Option<Json>
    requires p.TextPointer?
  {
    if target.JStr? && p.start <= p.end <= |target.s| then Some(JStr(target.s[p.start..p.end])) else None
  }

  function BlockFields(content: Json, k: nat): Object {
    if content.JArr? && k < |content.items| && content.items[k].JObj? then content.items[k].fields else map[]
  }

  /** `_pointer_value` on an assistant message; None where it raises. */
  function MessageValue(p: Pointer, content: Json): Option<Json> {
    match p
    case TextPointer(None, _, _, _) => SpanOf(content, p)
    case TextPointer(Some(k), _, _, _) =>
      if content.JArr? && k < |content.items| && AllText(content.items)
      then SpanOf(Get(BlockFields(content, k), "text"), p) else None
    case InputPointer(k, _) =>
      var b := BlockFields(content, k);
      if content.JArr? && k < |content.items| && Get(b, "type") == JStr("tool_use") && "input" in b then
          Some(b["input"])
      else None
  }

  function ClaudeValue(v: Object, p: Pointer): Option<Json> {
    var message := Get(v, "message");
    if Get(v, "type") != JStr("assistant") || !message.JObj? || Get(message.fields, "role") != JStr("assistant") then
        None
    else MessageValue(p, Get(message.fields, "content"))
  }

  /** The payload member that holds a Codex call's input. */
  function InputField(kind: Json): Option<string> {
    if kind == JStr("function_call") || kind == JStr("tool_search_call") then Some("arguments")
    else if kind == JStr("custom_tool_call") then Some("input")
    else if kind == JStr("local_shell_call") || kind == JStr("web_search_call") then Some("action")
    else None
  }

  /** `_codex_pointer_value`. */
  function CodexValue(v: Object, p: Pointer): Option<Json> {
    var payload := Get(v, "payload");
    if !payload.JObj? then None
    else
      match p
      case TextPointer(Some(k), _, _, _) =>
        var content := Get(payload.fields, "content");
        var b := BlockFields(content, k);
        if Get(payload.fields, "type") == JStr("message") && Get(payload.fields, "role") == JStr("assistant")
           && content.JArr? && k < |content.items| && Get(b, "type") == JStr("output_text")
        then SpanOf(Get(b, "text"), p) else None
      case TextPointer(None, _, _, _) => None
      case InputPointer(k, _) =>
        var field := InputField(Get(payload.fields, "type"));
        if k == 0 && field.Some? && field.value in payload.fields then Some(payload.fields[field.value]) else None
  }

  /** `_pointer_value`. */
  function PointerValue(env: Env, p: Pointer, raw: Bytes): Option<Json> {
    match env.decode(raw)
    case None => None
    case Some(v) => if Get(v, "type") == JStr("response_item") then CodexValue(v, p) else ClaudeValue(v, p)
  }

  // ---- What each event was emitted for ---------------------------------------

  /** The content an event comes from: the text of a block, without an index when the message is one
      string, or the input of a tool call. */
  datatype Origin =
    | Elsewhere
    | TextOrigin(block: Option<nat>, text: Json)
    | InputOrigin(index: nat, name: Json, input: Json)

  function ContentOf(o: Origin): Json
    requires !o.Elsewhere?
  {
    if o.TextOrigin? then o.text else o.input
  }

  /** This content reference is to the block of the origin. */
  predicate Names(p: Pointer, o: Origin) {
    match p
    case TextPointer(block, _, _, _) => o.TextOrigin? && o.block == block
    case InputPointer(index, _) => o.InputOrigin? && o.index == index
  }

  function Repeat(o: Origin, n: nat): (r: seq<Origin>)
    ensures |r| == n && forall k :: 0 <= k < n ==> r[k] == o
  {
    seq(n, _ => o)
  }

  function OneIf(b: bool): nat {
    if b then 1 else 0
  }

  function OriginOf(index: Option<nat>, b: Json): Origin {
    if !b.JObj? then Elsewhere
    else if Get(b.fields, "type") == JStr("text") then TextOrigin(index, Get(b.fields, "text"))
    else if Get(b.fields, "type") == JStr("tool_use") && index.Some? && "input" in b.fields
    then InputOrigin(index.value, Get(b.fields, "name"), b.fields["input"])
    else Elsewhere
  }

  /** How many events one block of an assistant message gives. */
  function Yield(env: Env, index: Option<nat>, b: Json): nat {
    if !b.JObj? then 0
    else if Get(b.fields, "type") == JStr("text") then OneIf(Get(b.fields, "text").JStr?)
    else if Get(b.fields, "type") == JStr("tool_use") then 1 + Findings(env, OriginOf(index, b))
    else 0
  }

  /** How many of the three classifiers find something in a tool call's input. */
  function Findings(env: Env, o: Origin): nat {
    if !o.InputOrigin? then 0
    else
      OneIf(env.forge(o.name, o.input).Some?) + OneIf(env.reference(o.name, o.input).Some?)
          + OneIf(env.test(o.name, o.input))
  }

  function BlockOrigins(env: Env, blocks: seq<Json>): seq<Origin> {
    if blocks == [] then []
    else
      var n := |blocks| - 1;
      BlockOrigins(env, blocks[..n]) + Repeat(OriginOf(Some(n), blocks[n]), Yield(env, Some(n), blocks[n]))
  }

  /** The origin of each event of an assistant message, in the order of the events. */
  function Origins(env: Env, v: Object): seq<Origin> {
    var message := Get(v, "message");
    if !message.JObj? then []
    else
      var content := Get(message.fields, "content");
      Repeat(Elsewhere, |ModelDetails(env, message.fields)| + |TokenDetails(message.fields)|)
      + (if content.JStr? then [TextOrigin(None, content)]
         else if content.JArr? then BlockOrigins(env, content.items)
         else [])
  }

  /** The detail says of its origin just what the classifiers found there. */
  predicate SaysOf(env: Env, d: Detail, o: Origin) {
    match d
    case Turn(author, shape, _) => author == Agent && o.TextOrigin? && o.text.JStr? && o.text.s != ""
        && shape == env.shape(o.text)
    case ToolCall(family, _) => o.InputOrigin? && family == env.family(o.name)
    case Reference(kind, _) => o.InputOrigin? && env.reference(o.name, o.input) == Some(kind)
    case Test(_) => o.InputOrigin? && env.test(o.name, o.input)
    case Forge(action, _, _, _, _) => o.InputOrigin? && env.forge(o.name, o.input) == Some(action)
    case _ => false
  }

  /** A pointer that covers all of its origin. */
  function Covering(o: Origin, commitment: Digest): Option<Pointer> {
    match o
    case Elsewhere => None
    case TextOrigin(block, text) => if text.JStr? then Some(TextPointer(block, 0, |text.s|, commitment)) else None
    case InputOrigin(index, _, _) => Some(InputPointer(index, commitment))
  }

  predicate Points(env: Env, commitment: Digest, textOnly: bool, d: Detail, o: Origin) {
    PointerOf(d).Some? ==>
      PointerOf(d) == Covering(o, commitment) && (o.TextOrigin? ==> textOnly) && SaysOf(env, d, o)
  }

  ghost predicate AllPoint(env: Env, commitment: Digest, textOnly: bool, details: seq<Detail>, origins: seq<Origin>) {
    |details| == |origins| && forall i :: 0 <= i < |details| ==>
        Points(env, commitment, textOnly, details[i], origins[i])
  }

  lemma PointsThen(env: Env, commitment: Digest, textOnly: bool, m: Message, d: Detail, origins: seq<Origin>, o: Origin)
    requires AllPoint(env, commitment, textOnly, m.details, origins) && Points(env, commitment, textOnly, d, o)
    ensures AllPoint(env, commitment, textOnly, Emit(m, d).details, origins + [o])
  {
  }

  lemma RepeatMore(o: Origin, n: nat, origins: seq<Origin>)
    ensures origins + Repeat(o, n) + [o] == origins + Repeat(o, n + 1)
    ensures origins + Repeat(o, 0) == origins
  {
  }

  lemma RepeatAdds(o: Origin, origins: seq<Origin>, a: nat, b: nat)
    ensures origins + Repeat(o, a) + Repeat(o, b) == origins + Repeat(o, a + b)
  {
  }

  /** One classifier's finding, or none. */
  lemma FindingPoints(env: Env, commitment: Digest, textOnly: bool, m: Message, found: bool, d: Detail,
                      origins: seq<Origin>, o: Origin)
    requires AllPoint(env, commitment, textOnly, m.details, origins)
             && (found ==> Points(env, commitment, textOnly, d, o))
    ensures AllPoint(env, commitment, textOnly, (if found then Emit(m, d) else m).details,
                     origins + Repeat(o, OneIf(found)))
  {
    hide AllPoint, Emit, Points;
    RepeatMore(o, 0, origins);
    if found {
      PointsThen(env, commitment, textOnly, m, d, origins, o);
    }
  }

  lemma CallPoints(env: Env, ctx: Context, textOnly: bool, m: Message, index: Option<nat>, b: Object,
                   origins: seq<Origin>)
    requires Get(b, "type") == JStr("tool_use") && AllPoint(env, ctx.commitment, textOnly, m.details, origins)
    ensures AllPoint(env, ctx.commitment, textOnly, Called(env, ctx, m, index, b).details,
                     origins + [OriginOf(index, JObj(b))])
  {
    PointsThen(env, ctx.commitment, textOnly, m, ToolCall(env.family(Get(b, "name")), InputPointerOf(ctx, index, b)),
               origins,
               OriginOf(index, JObj(b)));
  }

  lemma FindingsPoint(env: Env, ctx: Context, textOnly: bool, m: Message, sub: nat, origins: seq<Origin>, o: Origin)
    requires o.InputOrigin? && AllPoint(env, ctx.commitment, textOnly, m.details, origins)
    ensures var p := InputPointer(o.index, ctx.commitment);
            var found := WithTest(env, WithReference(env, WithForge(env, ctx, m, sub, o.name, o.input, p), o.name,
                                                     o.input, p), o.name, o.input, p);
            AllPoint(env, ctx.commitment, textOnly, found.details, origins + Repeat(o, Findings(env, o)))
  {
    hide AllPoint, Emit, Repeat;
    var c, p := ctx.commitment, InputPointer(o.index, ctx.commitment);
    var forge, reference := env.forge(o.name, o.input), env.reference(o.name, o.input);
    var m1 := WithForge(env, ctx, m, sub, o.name, o.input, p);
    var m2 := WithReference(env, m1, o.name, o.input, p);
    var n1, n2 := OneIf(forge.Some?), OneIf(reference.Some?);
    FindingPoints(env, c, textOnly, m, forge.Some?,
                  Forge(if forge.Some? then forge.value else "", UnknownResult, p, LinkedTool(ctx.record, sub),
                        ctx.repo), origins, o);
    var origins1 := origins + Repeat(o, n1);
    FindingPoints(env, c, textOnly, m1, reference.Some?, Reference(if reference.Some? then reference.value else "", p),
                  origins1, o);
    var origins2 := origins1 + Repeat(o, n2);
    FindingPoints(env, c, textOnly, m2, env.test(o.name, o.input), Test(p), origins2, o);
    RepeatAdds(o, origins, n1, n2);
    RepeatAdds(o, origins, n1 + n2, OneIf(env.test(o.name, o.input)));
  }

  /** The call of a tool-use block, then what the three classifiers find in its input. */
  lemma ToolUsePoints(env: Env, ctx: Context, textOnly: bool, m: Message, index: Option<nat>, b: Object,
                      origins: seq<Origin>)
    requires Get(b, "type") == JStr("tool_use") && AllPoint(env, ctx.commitment, textOnly, m.details, origins)
    ensures var o := OriginOf(index, JObj(b));
            AllPoint(env, ctx.commitment, textOnly, ToolUse(env, ctx, m, index, b).details,
                     origins + Repeat(o, 1 + Findings(env, o)))
  {
    hide AllPoint, Repeat, Called, WithForge, WithReference, WithTest;
    var o := OriginOf(index, JObj(b));
    CallPoints(env, ctx, textOnly, m, index, b, origins);
    RepeatMore(o, 0, origins);
    assert origins + Repeat(o, 1) == origins + [o];
    if o.InputOrigin? {
      FindingsPoint(env, ctx, textOnly, Called(env, ctx, m, index, b), |m.details|, origins + [o], o);
      RepeatAdds(o, origins, 1, Findings(env, o));
    }
  }

  lemma BlockPoints(env: Env, ctx: Context, textOnly: bool, m: Message, index: Option<nat>, b: Json,
                    origins: seq<Origin>)
    requires AllPoint(env, ctx.commitment, textOnly, m.details, origins)
    ensures AllPoint(env, ctx.commitment, textOnly, BlockStep(env, ctx, true, textOnly, m, index, b).details,
                     origins + Repeat(OriginOf(index, b), Yield(env, index, b)))
  {
    var o := OriginOf(index, b);
    var seen := m.(cov := m.cov.(blocksSeen := m.cov.blocksSeen + 1));
    RepeatMore(o, 0, origins);
    hide ToolUse;
    if b.JObj? && Get(b.fields, "type") == JStr("tool_use") {
      ToolUsePoints(env, ctx, textOnly, seen, index, b.fields, origins);
    } else if b.JObj? && Get(b.fields, "type") == JStr("text") && Get(b.fields, "text").JStr? {
      var text := Get(b.fields, "text");
      var pointer := if textOnly && text.s != "" then Some(TextPointer(index, 0, |text.s|, ctx.commitment)) else None;
      PointsThen(env, ctx.commitment, textOnly, seen, Turn(Agent, env.shape(text), pointer), origins, o);
    }
  }

  lemma {:induction false} BlocksPoint(env: Env, ctx: Context, textOnly: bool, m: Message, blocks: seq<Json>,
                                       origins: seq<Origin>)
    requires AllPoint(env, ctx.commitment, textOnly, m.details, origins)
    ensures AllPoint(env, ctx.commitment, textOnly, Blocks(env, ctx, true, textOnly, m, blocks).details,
                     origins + BlockOrigins(env, blocks))
  {
    hide BlockStep, AllPoint, OriginOf, Yield, Repeat;
    if blocks == [] {
      assert origins + BlockOrigins(env, blocks) == origins;
    } else {
      var n := |blocks| - 1;
      BlocksPoint(env, ctx, textOnly, m, blocks[..n], origins);
      BlockPoints(env, ctx, textOnly, Blocks(env, ctx, true, textOnly, m, blocks[..n]), Some(n), blocks[n],
                  origins + BlockOrigins(env, blocks[..n]));
      var last := Repeat(OriginOf(Some(n), blocks[n]), Yield(env, Some(n), blocks[n]));
      assert origins + BlockOrigins(env, blocks[..n]) + last == origins + BlockOrigins(env, blocks);
    }
  }

  /** An origin in the list is that of the block it names. */
  lemma {:induction false} OriginsAreBlocks(env: Env, blocks: seq<Json>, i: nat)
    requires i < |BlockOrigins(env, blocks)|
    ensures exists k: nat :: k < |blocks| && BlockOrigins(env, blocks)[i] == OriginOf(Some(k), blocks[k])
  {
    var n := |blocks| - 1;
    if i < |BlockOrigins(env, blocks[..n])| {
      OriginsAreBlocks(env, blocks[..n], i);
      var k: nat :| k < n && BlockOrigins(env, blocks[..n])[i] == OriginOf(Some(k), blocks[..n][k]);
      assert blocks[k] == blocks[..n][k];
    } else {
      assert BlockOrigins(env, blocks)[i] == OriginOf(Some(n), blocks[n]);
    }
  }

  lemma UserPointless(env: Env, ctx: Context, textOnly: bool, m: Message, index: Option<nat>, b: Json)
    requires Bare(m.details)
    ensures Bare(BlockStep(env, ctx, false, textOnly, m, index, b).details)
  {
  }

  lemma {:induction false} UserBlocksPointless(env: Env, ctx: Context, textOnly: bool, m: Message, blocks: seq<Json>)
    requires Bare(m.details)
    ensures Bare(Blocks(env, ctx, false, textOnly, m, blocks).details)
  {
    hide BlockStep, Bare;
    if blocks != [] {
      var n := |blocks| - 1;
      UserBlocksPointless(env, ctx, textOnly, m, blocks[..n]);
      UserPointless(env, ctx, textOnly, Blocks(env, ctx, false, textOnly, m, blocks[..n]), Some(n), blocks[n]);
    }
  }

  // ---- The round trip in one record ------------------------------------------

  /** The reference is to the block of the origin, and resolves in the record to all of the origin's
      content, of which the detail is true. */
  predicate Resolves(env: Env, raw: Bytes, commitment: Digest, d: Detail, o: Origin) {
    PointerOf(d).Some? ==>
      && PointerOf(d).value.commitment == commitment && Names(PointerOf(d).value, o)
      && PointerValue(env, PointerOf(d).value, raw) == Some(ContentOf(o)) && SaysOf(env, d, o)
  }

  /** The same for the event at one position of its record, whose origin the record itself gives. */
  predicate ResolvesAt(env: Env, raw: Bytes, commitment: Digest, sub: nat, d: Detail) {
    PointerOf(d).Some? ==>
      && env.decode(raw).Some? && sub < |Origins(env, env.decode(raw).value)|
      && Resolves(env, raw, commitment, d, Origins(env, env.decode(raw).value)[sub])
  }

  ghost predicate AllResolve(env: Env, raw: Bytes, commitment: Digest, details: seq<Detail>) {
    forall i :: 0 <= i < |details| ==> ResolvesAt(env, raw, commitment, i, details[i])
  }

  predicate Bare(details: seq<Detail>) {
    forall i :: 0 <= i < |details| ==> PointerOf(details[i]).None?
  }

  lemma BareResolve(env: Env, raw: Bytes, commitment: Digest, details: seq<Detail>)
    requires Bare(details)
    ensures AllResolve(env, raw, commitment, details)
  {
  }

  lemma WholeText(text: Json, p: Pointer)
    requires p.TextPointer? && text.JStr? && p.start == 0 && p.end == |text.s|
    ensures SpanOf(text, p) == Some(text)
  {
    assert text.s[0..|text.s|] == text.s;
  }

  predicate IsAssistant(v: Object) {
    && Get(v, "type") == JStr("assistant") && Get(v, "message").JObj?
    && Get(Get(v, "message").fields, "role") == JStr("assistant")
  }

  function ContentIn(v: Object): Json {
    if Get(v, "message").JObj? then Get(Get(v, "message").fields, "content") else JNull
  }

  /** A pointer that covers the origin of a block resolves to the content of that block. */
  lemma BlockResolves(env: Env, v: Object, raw: Bytes, commitment: Digest, k: nat, d: Detail)
    requires env.decode(raw) == Some(v) && IsAssistant(v) && ContentIn(v).JArr? && k < |ContentIn(v).items|
    requires var blocks := ContentIn(v).items;
             Points(env, commitment, AllText(blocks), d, OriginOf(Some(k), blocks[k]))
    ensures Resolves(env, raw, commitment, d, OriginOf(Some(k), ContentIn(v).items[k]))
  {
    if PointerOf(d).Some? {
      var p, o := PointerOf(d).value, OriginOf(Some(k), ContentIn(v).items[k]);
      assert BlockFields(ContentIn(v), k) == ContentIn(v).items[k].fields;
      if p.TextPointer? {
        WholeText(o.text, p);
      }
      assert PointerValue(env, p, raw) == MessageValue(p, ContentIn(v));
    }
  }

  lemma StringResolves(env: Env, v: Object, raw: Bytes, commitment: Digest, d: Detail)
    requires env.decode(raw) == Some(v) && IsAssistant(v) && ContentIn(v).JStr?
    requires Points(env, commitment, true, d, TextOrigin(None, ContentIn(v)))
    ensures Resolves(env, raw, commitment, d, TextOrigin(None, ContentIn(v)))
  {
    if PointerOf(d).Some? {
      var p := PointerOf(d).value;
      WholeText(ContentIn(v), p);
      assert PointerValue(env, p, raw) == MessageValue(p, ContentIn(v));
    }
  }

  lemma MetadataPoints(env: Env, commitment: Digest, textOnly: bool, message: Object, cov: Coverage)
    ensures AllPoint(env, commitment, textOnly, Metadata(env, message, cov).0,
                     Repeat(Elsewhere, |ModelDetails(env, message)| + |TokenDetails(message)|))
  {
  }

  /** What an assistant message gives points, event by event, at the origins of the record. */
  lemma AssistantPoints(env: Env, ctx: Context, v: Object, generation: Option<nat>, positions: Positions, cov: Coverage)
    requires IsAssistant(v) && MessageOutcome(env, ctx, v, generation, positions, cov).details.Some?
    ensures AllPoint(env, ctx.commitment, ContentIn(v).JStr? || (ContentIn(v).JArr? && AllText(ContentIn(v).items)),
                     MessageOutcome(env, ctx, v, generation, positions, cov).details.value, Origins(env, v))
  {
    hide AllPoint, Metadata, BlockStep, Blocks, Renoted, AllText, Invalid, ModelDetails, TokenDetails, Repeat;
    var message := Get(v, "message").fields;
    var content := Get(message, "content");
    var c2 := Invalid(Invalid(cov, generation.Some?), StampInvalid(env, v));
    var start := Message(Metadata(env, message, c2).0, positions, Metadata(env, message, c2).1);
    var leading := Repeat(Elsewhere, |ModelDetails(env, message)| + |TokenDetails(message)|);
    if content.JStr? {
      MetadataPoints(env, ctx.commitment, true, message, c2);
      BlockPoints(env, ctx, true, start, None, TextOf(content), leading);
      StringYields(env, content);
    } else {
      MetadataPoints(env, ctx.commitment, AllText(content.items), message, c2);
      BlocksPoint(env, ctx, AllText(content.items), start, content.items, leading);
    }
  }

  lemma StringYields(env: Env, content: Json)
    requires content.JStr?
    ensures OriginOf(None, TextOf(content)) == TextOrigin(None, content)
    ensures Repeat(OriginOf(None, TextOf(content)), Yield(env, None, TextOf(content))) == [TextOrigin(None, content)]
  {
    assert Get(TextOf(content).fields, "text") == content;
  }

  lemma UserBare(env: Env, ctx: Context, v: Object, generation: Option<nat>, positions: Positions, cov: Coverage)
    requires Get(v, "type") != JStr("assistant")
    ensures var out := MessageOutcome(env, ctx, v, generation, positions, cov); out.details.Some? ==>
            Bare(out.details.value)
  {
    hide BlockStep, Blocks, Bare, Renoted, AllText, Invalid, Metadata;
    var c2 := Invalid(Invalid(cov, generation.Some?), StampInvalid(env, v));
    NothingBare();
    var content := ContentIn(v);
    if content.JStr? {
      UserPointless(env, ctx, true, Message([], positions, c2), None, TextOf(content));
    } else if content.JArr? {
      UserBlocksPointless(env, ctx, AllText(content.items), Message([], positions, c2), content.items);
    }
  }

  lemma NothingBare()
    ensures Bare([])
  {
  }

  /** The events of a parsed assistant message are in step with the origins the record gives, and
      every pointer of a parsed message resolves, in the very record it came from, to exactly the text
      or the input of the block its event was emitted for. */
  lemma MessageResolves(env: Env, ctx: Context, v: Object, raw: Bytes, generation: Option<nat>, positions: Positions,
                        cov: Coverage)
    requires env.decode(raw) == Some(v)
    ensures var out := MessageOutcome(env, ctx, v, generation, positions, cov);
            out.details.Some? ==>
              && AllResolve(env, raw, ctx.commitment, out.details.value)
              && (Get(v, "type") == JStr("assistant") ==> |out.details.value| == |Origins(env, v)|)
  {
    hide Resolves, Origins, Points, Bare;
    var out := MessageOutcome(env, ctx, v, generation, positions, cov);
    if out.details.Some? {
      if Get(v, "type") != JStr("assistant") {
        UserBare(env, ctx, v, generation, positions, cov);
        BareResolve(env, raw, ctx.commitment, out.details.value);
      } else {
        assert IsAssistant(v) && (ContentIn(v).JStr? || ContentIn(v).JArr?);
        AssistantPoints(env, ctx, v, generation, positions, cov);
        hide MessageOutcome;
        var details := out.details.value;
        forall i | 0 <= i < |details|
          ensures ResolvesAt(env, raw, ctx.commitment, i, details[i])
        {
          OneResolves(env, v, raw, ctx.commitment, details[i], i);
        }
      }
    }
  }

  lemma OneResolves(env: Env, v: Object, raw: Bytes, commitment: Digest, d: Detail, i: nat)
    requires env.decode(raw) == Some(v) && IsAssistant(v) && (ContentIn(v).JStr? || ContentIn(v).JArr?)
             && i < |Origins(env, v)|
    requires Points(env, commitment, ContentIn(v).JStr? || AllText(ContentIn(v).items), d, Origins(env, v)[i])
    ensures Resolves(env, raw, commitment, d, Origins(env, v)[i])
  {
    hide Resolves, AllText, ModelDetails, TokenDetails;
    var message := Get(v, "message").fields;
    var n := |ModelDetails(env, message)| + |TokenDetails(message)|;
    if i < n {
      assert Origins(env, v)[i] == Elsewhere;
      Pointless(env, raw, commitment, d, Elsewhere);
    } else if ContentIn(v).JStr? {
      StringResolves(env, v, raw, commitment, d);
    } else {
      assert Origins(env, v)[i] == BlockOrigins(env, ContentIn(v).items)[i - n];
      OriginsAreBlocks(env, ContentIn(v).items, i - n);
      var k: nat :| k < |ContentIn(v).items| && Origins(env, v)[i] == OriginOf(Some(k), ContentIn(v).items[k]);
      BlockResolves(env, v, raw, commitment, k, d);
    }
  }

  lemma Pointless(env: Env, raw: Bytes, commitment: Digest, d: Detail, o: Origin)
    requires PointerOf(d).None?
    ensures Resolves(env, raw, commitment, d, o)
  {
  }

  // ---- The round trip over the whole corpus ----------------------------------

  /** The record an event names, among the checked sessions, resolves the event's pointer to the
      content the event at this position of the record was emitted for. */
  ghost predicate EventResolves(env: Env, sessions: seq<VerifiedSession>, e: Event) {
    exists s :: s in sessions && s.id == e.session && e.record < |s.records|
                && ResolvesAt(env, s.records[e.record].raw, s.records[e.record].commitment, e.sub, e.detail)
  }

  lemma {:induction false} UnknownBare(env: Env, m: Message, blocks: seq<Json>)
    requires Bare(m.details)
    ensures Bare(UnknownBlocks(env, m, blocks).details)
  {
    if blocks != [] {
      UnknownBare(env, m, blocks[..|blocks| - 1]);
    }
  }

  lemma UnknownResolves(env: Env, v: Object, positions: Positions, cov: Coverage, raw: Bytes, commitment: Digest)
    ensures var out := UnknownOutcome(env, v, positions, cov);
            out.details.Some? ==> AllResolve(env, raw, commitment, out.details.value)
  {
    hide AllResolve, UnknownBlocks;
    var out := UnknownOutcome(env, v, positions, cov);
    if out.details.Some? {
      var content := Get(Get(v, "message").fields, "content");
      var blocks := if content.JStr? then [TextOf(content)] else content.items;
      UnknownBare(env, Message([], positions, Invalid(cov, StampInvalid(env, v))), blocks);
      BareResolve(env, raw, commitment, out.details.value);
    }
  }

  lemma SubjectResolves(env: Env, sc: SessionContext, i: nat, v: Object, p: Progress)
    requires i < |sc.session.records| && env.decode(sc.session.records[i].raw) == Some(v)
    ensures var out := SubjectOutcome(env, sc, i, v, p);
            out.details.Some? ==>
                AllResolve(env, sc.session.records[i].raw, sc.session.records[i].commitment, out.details.value)
  {
    hide MessageOutcome, Resolves, ResolvesAt, Origins;
    var r := sc.session.records[i];
    var ctx := Context(i, r.commitment, sc.session.repo, sc.sidechain, sc.objects);
    MessageResolves(env, ctx, v, r.raw, r.generation, p.positions, p.cov);
    var out := SubjectOutcome(env, sc, i, v, p);
    if MessageOutcome(env, ctx, v, r.generation, p.positions, p.cov).details.None? && out.details.Some? {
      BareResolve(env, r.raw, r.commitment, out.details.value);
    }
  }

  /** Events after `before` are of this session's records and resolve there. */
  ghost predicate Added(env: Env, sc: SessionContext, before: seq<Event>, after: seq<Event>) {
    forall e :: e in after && e !in before ==>
      && e.session == sc.session.id && e.record < |sc.session.records|
      && ResolvesAt(env, sc.session.records[e.record].raw, sc.session.records[e.record].commitment, e.sub, e.detail)
  }

  lemma FinishAdds(env: Env, sc: SessionContext, p: Progress, i: nat, parent: ParentLink, out: Claude.Outcome,
                   last: Option<nat>)
    requires i < |sc.session.records|
    requires out.details.Some? ==>
             AllResolve(env, sc.session.records[i].raw, sc.session.records[i].commitment, out.details.value)
    ensures Added(env, sc, p.events, Finish(p, sc, i, parent, out, last).events)
  {
    if out.details.Some? {
      hide ResolvesAt;
      var parsed := Parsed(i, parent, out.observedAt, sc.session.records[i].commitment, out.details.value);
      RecordEventsHold(sc.session.id, sc.episode, parsed);
    }
  }

  lemma StepAdds(env: Env, sc: SessionContext, p: Progress, i: nat)
    requires i < |sc.session.records| == |sc.objects|
    ensures Added(env, sc, p.events, RecordStep(env, sc, p, i).events)
  {
    hide Added, MessageOutcome, SubjectOutcome, UnknownOutcome, Finish, ParentFor, AllResolve;
    var r := sc.session.records[i];
    NothingAdded(env, sc, p.events);
    match env.decode(r.raw) {
      case None =>
      case Some(v) =>
        if r.attribution == UnknownAuthor {
          UnknownResolves(env, v, p.positions, p.cov, r.raw, r.commitment);
          FinishAdds(env, sc, p, i, ParentFor(env, sc, i, v), UnknownOutcome(env, v, p.positions, p.cov), p.last);
        } else if !sc.inconsistent {
          SubjectResolves(env, sc, i, v, p);
          var first := MessageOutcome(env, Context(i, r.commitment, sc.session.repo, sc.sidechain, sc.objects), v,
                                      r.generation, p.positions, p.cov);
          var raised := first.details.None? && RaisesGeneration(v, r.generation, p.last);
          FinishAdds(env, sc, p, i, ParentFor(env, sc, i, v), SubjectOutcome(env, sc, i, v, p),
                     if raised then r.generation else p.last);
        }
    }
  }

  lemma NothingAdded(env: Env, sc: SessionContext, events: seq<Event>)
    ensures Added(env, sc, events, events)
  {
  }

  lemma {:induction false} RecordsAdd(env: Env, sc: SessionContext, p: Progress, n: nat)
    requires n <= |sc.session.records| == |sc.objects|
    ensures Added(env, sc, p.events, RecordsUpTo(env, sc, p, n).events)
  {
    hide RecordStep, ResolvesAt;
    if n > 0 {
      RecordsAdd(env, sc, p, n - 1);
      StepAdds(env, sc, RecordsUpTo(env, sc, p, n - 1), n - 1);
    }
  }

  lemma {:induction false} SessionsResolve(env: Env, st: Stitched, sessions: seq<VerifiedSession>)
    ensures forall e :: e in SessionsUpTo(env, st, sessions).events ==> EventResolves(env, sessions, e)
  {
    if sessions != [] {
      var n := |sessions| - 1;
      SessionsResolve(env, st, sessions[..n]);
      var s := sessions[n];
      var c := SessionsUpTo(env, st, sessions[..n]);
      var sc := ContextOf(env, s, Lookup(st.ids, s.id));
      var start := Progress(c.events, Started(c.cov, s), map[], None);
      RecordsAdd(env, sc, start, |s.records|);
      hide RecordsUpTo, ResolvesAt;
      assert sessions == sessions[..n] + [s];
      forall e | e in SessionsUpTo(env, st, sessions).events
        ensures EventResolves(env, sessions, e)
      {
        if e in c.events {
          var o :| o in sessions[..n] && o.id == e.session && e.record < |o.records|
                   && ResolvesAt(env, o.records[e.record].raw, o.records[e.record].commitment, e.sub, e.detail);
          assert o in sessions;
        } else {
          assert s in sessions;
        }
      }
    }
  }

  /** Every content pointer in the artifact resolves, given its own committed record, to exactly the
      text or the input it was emitted for. */
  lemma EveryPointerResolves(env: Env, sessions: seq<VerifiedSession>, st: Stitched)
    ensures forall e :: e in Normalized(env, sessions, st).events ==> EventResolves(env, sessions, e)
  {
    SessionsResolve(env, st, sessions);
    var events := SessionsUpTo(env, st, sessions).events;
    RejoinAlike(events);
    hide SessionsUpTo, Rejoin;
    forall e | e in Normalized(env, sessions, st).events
      ensures EventResolves(env, sessions, e)
    {
      var o :| o in events && e == Rejoined(events, o);
      RejoinedResolves(env, sessions, events, o);
    }
  }

  lemma RejoinedResolves(env: Env, sessions: seq<VerifiedSession>, events: seq<Event>, o: Event)
    requires EventResolves(env, sessions, o)
    ensures EventResolves(env, sessions, Rejoined(events, o))
  {
    hide Origins;
    var s :| s in sessions && s.id == o.session && o.record < |s.records|
             && ResolvesAt(env, s.records[o.record].raw, s.records[o.record].commitment, o.sub, o.detail);
    var e := Rejoined(events, o);
    assert ResolvesAt(env, s.records[o.record].raw, s.records[o.record].commitment, e.sub, e.detail);
  }

  // ---- Resolving against candidates ------------------------------------------

  datatype Candidate = Candidate(raw: Bytes, nonce: Bytes, attribution: Attribution)

  datatype Resolution = FromLive(value: Json) | FromArchive(value: Json) | TargetMissing | IntegrityError

  datatype Match = NoMatch | OneMatch(raw: Bytes) | BadMatch

  predicate IsMatch(c: Candidate, commitment: Digest) {
    LeafHash(c.nonce, c.raw) == commitment
  }

  /** `_committed_record`: refuse a match that is not the subject's, or a second match. */
  method CommittedRecord(candidates: seq<Candidate>, commitment: Digest) returns (m: Match)
    ensures m.NoMatch? <==> forall k :: 0 <= k < |candidates| ==> !IsMatch(candidates[k], commitment)
    ensures m.OneMatch? ==>
            exists k :: 0 <= k < |candidates| && IsMatch(candidates[k], commitment) && candidates[k].raw == m.raw
    ensures m.OneMatch? <==>
              && (exists k :: 0 <= k < |candidates| && IsMatch(candidates[k], commitment))
              && (forall k :: 0 <= k < |candidates| && IsMatch(candidates[k], commitment) ==>
                  candidates[k].attribution == Subject)
              && (forall j, k :: 0 <= j < k < |candidates| ==>
                  !(IsMatch(candidates[j], commitment) && IsMatch(candidates[k], commitment)))
  {
    var matches: seq<Bytes> := [];
    ghost var at: seq<nat> := [];
    for k := 0 to |candidates|
      invariant |at| == |matches|
      invariant forall n :: 0 <= n < |at| ==>
                  at[n] < k && IsMatch(candidates[at[n]], commitment) && candidates[at[n]].raw == matches[n]
                      && candidates[at[n]].attribution == Subject
      invariant forall n, o :: 0 <= n < o < |at| ==> at[n] < at[o]
      invariant forall j :: 0 <= j < k && IsMatch(candidates[j], commitment) ==> j in at
    {
      if IsMatch(candidates[k], commitment) {
        if candidates[k].attribution != Subject {
          return BadMatch;
        }
        matches := matches + [candidates[k].raw];
        at := at + [k];
      }
    }
    if |matches| > 1 {
      assert at[0] < at[1];
      return BadMatch;
    }
    m := if |matches| == 1 then OneMatch(matches[0]) else NoMatch;
    assert forall j :: j in at ==> exists n :: 0 <= n < |at| && at[n] == j;
  }

  function ValueOf(env: Env, p: Pointer, raw: Bytes, live: bool): Resolution {
    match PointerValue(env, p, raw)
    case None => IntegrityError
    case Some(value) => if live then FromLive(value) else FromArchive(value)
  }

  /** `resolve_content_pointer`: live first, then the archive; whatever is disclosed comes from the
      committed record and no other. */
  method ResolveContentPointer(env: Env, p: Pointer, live: Option<seq<Candidate>>, archive: Option<seq<Candidate>>,
                               ghost nonce: Bytes, ghost raw: Bytes) returns (r: Resolution)
    requires p.commitment == LeafHash(nonce, raw)
    ensures r.FromLive? || r.FromArchive? ==> PointerValue(env, p, raw) == Some(r.value)
    ensures archive.None?
            && (live.None? || forall k :: 0 <= k < |live.value| ==> !IsMatch(live.value[k], p.commitment)) ==>
              r == TargetMissing
    ensures r == TargetMissing ==> archive.None?
    ensures live.Some? && (exists k :: 0 <= k < |live.value| && live.value[k] == Candidate(raw, nonce, Subject))
            && (forall j, k :: 0 <= j < k < |live.value| ==>
                !(IsMatch(live.value[j], p.commitment) && IsMatch(live.value[k], p.commitment)))
            ==> r == ValueOf(env, p, raw, true)
  {
    if live.Some? {
      var found := CommittedRecord(live.value, p.commitment);
      match found {
        case BadMatch => return IntegrityError;
        case OneMatch(bytes) => return ValueOf(env, p, bytes, true);
        case NoMatch =>
      }
    }
    if archive.None? {
      return TargetMissing;
    }
    var found := CommittedRecord(archive.value, p.commitment);
    match found {
      case OneMatch(bytes) => r := ValueOf(env, p, bytes, false);
      case BadMatch => r := IntegrityError;
      case NoMatch => r := IntegrityError;
    }
  }
}
