/** Everything the Claude producer writes passes the validator. */
module ClaudeCorpus {
  import opened Records
  import opened LineageGraph
  import opened Episodes
  import opened Corpus
  import opened CorpusBuild
  import opened CorpusLineage
  import opened Transcripts
  import opened Claude
  import EpisodeTables

  // ---- Building one record's details -----------------------------------------

  function Draft(ctx: Context, details: seq<Detail>): Parsed {
    Parsed(ctx.record, RootRecord, None, ctx.commitment, details)
  }

  /** A detail that may come next. */
  ghost predicate MayFollow(ctx: Context, details: seq<Detail>, d: Detail) {
    && DetailShape(d)
    && (PointerOf(d).Some? ==> PointerOf(d).value.commitment == ctx.commitment)
    && (d.Forge? ==>
          && d.outcome == UnknownResult && d.call.LinkedTool? && d.call.record == ctx.record && d.call.sub < |details|
          && details[d.call.sub].ToolCall? && details[d.call.sub].input == Some(d.invocation)
          && forall i :: d.call.sub < i < |details| ==> !details[i].Forge?)
  }

  lemma FollowKeeps(ctx: Context, details: seq<Detail>, d: Detail)
    requires RecordOk(Draft(ctx, details)) && MayFollow(ctx, details, d)
    ensures RecordOk(Draft(ctx, details + [d]))
  {
    var p, q := Draft(ctx, details), Draft(ctx, details + [d]);
    forall i | 0 <= i < |q.details|
      ensures DetailOk(q, i)
    {
      if i < |details| {
        assert DetailOk(p, i);
      }
    }
    forall i, j | 0 <= i < j < |q.details| && q.details[i].Forge? && q.details[j].Forge?
      ensures q.details[i].call != q.details[j].call
    {
      assert DetailOk(p, i);
      if j < |details| {
        assert p.details[i].call != p.details[j].call;
      } else {
        assert i <= d.call.sub;
        assert p.details[i].call.sub < i;
      }
    }
  }

  /** `after` has the details of `before` and more, counted as they should be, and still sound; no
      lifecycle detail is among the new ones, and results only when `results`. */
  ghost predicate Extends(ctx: Context, before: Message, after: Message) {
    && before.details <= after.details
    && Counted(before.cov, after.cov, after.details[|before.details|..])
    && (RecordOk(Draft(ctx, before.details)) ==> RecordOk(Draft(ctx, after.details)))
    && (forall i :: |before.details| <= i < |after.details| ==> !after.details[i].Lifecycle?)
  }

  /** Results are linked through `known`. */
  predicate ResultsFrom(known: Positions, d: Detail) {
    d.ToolResult? && d.relation.LinkedTool? ==>
      exists id :: id in known && known[id] == (d.relation.record, d.relation.sub)
  }

  /** Positions noted since `before` are of tool calls in these details. */
  ghost predicate Notes(ctx: Context, before: Positions, after: Positions, details: seq<Detail>) {
    forall id :: id in after ==>
      (id in before && after[id] == before[id])
      || (after[id].0 == ctx.record && after[id].1 < |details| && details[after[id].1].ToolCall?)
  }

  lemma ExtendsThen(ctx: Context, a: Message, b: Message, c: Message)
    requires Extends(ctx, a, b) && Extends(ctx, b, c)
    ensures Extends(ctx, a, c)
  {
    CountedThen(a.cov, b.cov, c.cov, b.details[|a.details|..], c.details[|b.details|..]);
    assert c.details[|a.details|..] == b.details[|a.details|..] + c.details[|b.details|..];
    forall i | |a.details| <= i < |c.details|
      ensures !c.details[i].Lifecycle?
    {
      if i < |b.details| {
        assert c.details[i] == b.details[i];
      }
    }
  }

  lemma CountOne(d: Detail)
    ensures PointersIn([d]) == (if PointerOf(d).Some? then 1 else 0)
    ensures PrimaryIn([d]) == (if IsPrimary(d) then 1 else 0)
    ensures UnknownIn([d]) == (if IsUnknown(d) then 1 else 0)
    ensures PointersIn([]) == 0 && PrimaryIn([]) == 0 && UnknownIn([]) == 0
  {
    assert [d][..0] == [];
  }

  /** A block counted as seen that yields one detail. */
  lemma EmitOne(ctx: Context, m: Message, d: Detail)
    requires MayFollow(ctx, m.details, d) && !d.Lifecycle?
    ensures Extends(ctx, m, Emit(m.(cov := m.cov.(blocksSeen := m.cov.blocksSeen + 1)), d))
    ensures !IsPrimary(d) && !IsUnknown(d) ==> Extends(ctx, m, Emit(m, d))
  {
    CountOne(d);
    var after := Emit(m, d);
    assert after.details[|m.details|..] == [d];
    if RecordOk(Draft(ctx, m.details)) {
      FollowKeeps(ctx, m.details, d);
    }
  }

  lemma EmitNone(ctx: Context, m: Message)
    ensures Extends(ctx, m, Unsupported(m.(cov := m.cov.(blocksSeen := m.cov.blocksSeen + 1))))
    ensures var seen := m.cov.(blocksSeen := m.cov.blocksSeen + 1);
            Extends(ctx, m, m.(cov := seen.(turnsAmbiguous := seen.turnsAmbiguous + 1,
                                            contentUnknown := seen.contentUnknown + 1)))
    ensures Extends(ctx, m, m)
  {
    assert m.details[|m.details|..] == [];
  }

  lemma TextExtends(env: Env, ctx: Context, assistant: bool, textOnly: bool, m: Message, block: Option<nat>, text: Json)
    ensures var after := TextBlock(env, ctx, assistant, textOnly,
                                   m.(cov := m.cov.(blocksSeen := m.cov.blocksSeen + 1)), block, text);
            && Extends(ctx, m, after) && after.positions == m.positions
            && (forall i :: |m.details| <= i < |after.details| ==> !after.details[i].ToolResult?)
  {
    EmitNone(ctx, m);
    if text.JStr? && (assistant || ctx.sidechain.Some?) {
      var author := if assistant || ctx.sidechain == Some(true) then Agent else Human;
      var pointer := if assistant && textOnly && text.s != "" then
          Some(TextPointer(block, 0, |text.s|, ctx.commitment))
                     else None;
      EmitOne(ctx, m, Pasted(env.shape(text)));
      EmitOne(ctx, m, Turn(author, env.shape(text), pointer));
    }
  }

  /** More details after a message that ends with the call at `sub`, none of them a result. */
  ghost predicate AfterCall(ctx: Context, m: Message, after: Message, sub: nat, input: Option<Pointer>) {
    && Extends(ctx, m, after) && after.positions == m.positions
    && |m.details| == sub < |after.details|
    && after.details[sub].ToolCall? && after.details[sub].input == input
    && (forall i :: sub <= i < |after.details| ==> !after.details[i].ToolResult?)
  }

  lemma CallExtends(env: Env, ctx: Context, m: Message, block: Option<nat>, b: Object)
    ensures var called := Called(env, ctx, m.(cov := m.cov.(blocksSeen := m.cov.blocksSeen + 1)), block, b);
            && AfterCall(ctx, m, called, |m.details|, InputPointerOf(ctx, block, b))
            && |called.details| == |m.details| + 1
  {
    EmitOne(ctx, m, ToolCall(env.family(Get(b, "name")), InputPointerOf(ctx, block, b)));
  }

  lemma AfterCallEmits(ctx: Context, m: Message, after: Message, sub: nat, input: Option<Pointer>, d: Detail)
    requires AfterCall(ctx, m, after, sub, input) && MayFollow(ctx, after.details, d)
    requires !IsPrimary(d) && !IsUnknown(d) && !d.Lifecycle?
    ensures AfterCall(ctx, m, Emit(after, d), sub, input)
  {
    EmitOne(ctx, after, d);
    ExtendsThen(ctx, m, after, Emit(after, d));
  }

  lemma DerivedExtends(env: Env, ctx: Context, m: Message, block: Option<nat>, b: Object)
    ensures AfterCall(ctx, m, Derived(env, ctx, m.(cov := m.cov.(blocksSeen := m.cov.blocksSeen + 1)), block, b),
                      |m.details|, InputPointerOf(ctx, block, b))
  {
    hide AfterCall, Called;
    var seen := m.(cov := m.cov.(blocksSeen := m.cov.blocksSeen + 1));
    var name, input := Get(b, "name"), Get(b, "input");
    CallExtends(env, ctx, m, block, b);
    var called := Called(env, ctx, seen, block, b);
    if InputPointerOf(ctx, block, b).Some? {
      var pointer := InputPointerOf(ctx, block, b).value;
      ForgeFollowsCall(env, ctx, m, called, name, input, pointer);
      var m1 := WithForge(env, ctx, called, |m.details|, name, input, pointer);
      if env.reference(name, input).Some? {
        AfterCallEmits(ctx, m, m1, |m.details|, Some(pointer), Reference(env.reference(name, input).value, pointer));
      }
      var m2 := WithReference(env, m1, name, input, pointer);
      if env.test(name, input) {
        AfterCallEmits(ctx, m, m2, |m.details|, Some(pointer), Test(pointer));
      }
    }
  }

  lemma ForgeFollowsCall(env: Env, ctx: Context, m: Message, called: Message, name: Json, input: Json, pointer: Pointer)
    requires AfterCall(ctx, m, called, |m.details|, Some(pointer)) && |called.details| == |m.details| + 1
    requires pointer.InputPointer? && pointer.commitment == ctx.commitment
    ensures AfterCall(ctx, m, WithForge(env, ctx, called, |m.details|, name, input, pointer), |m.details|,
                      Some(pointer))
  {
    if env.forge(name, input).Some? {
      AfterCallEmits(ctx, m, called, |m.details|, Some(pointer),
                     Forge(env.forge(name, input).value, UnknownResult, pointer, LinkedTool(ctx.record, |m.details|),
                           ctx.repo));
    }
  }

  lemma ToolUseExtends(env: Env, ctx: Context, m: Message, block: Option<nat>, b: Object)
    ensures var after := ToolUse(env, ctx, m.(cov := m.cov.(blocksSeen := m.cov.blocksSeen + 1)), block, b);
            && Extends(ctx, m, after) && Notes(ctx, m.positions, after.positions, after.details)
            && (forall i :: |m.details| <= i < |after.details| ==> !after.details[i].ToolResult?)
  {
    DerivedExtends(env, ctx, m, block, b);
    hide Derived, Counted, RecordOk;
    var derived := Derived(env, ctx, m.(cov := m.cov.(blocksSeen := m.cov.blocksSeen + 1)), block, b);
    assert Extends(ctx, m, derived);
  }

  lemma ResultExtends(env: Env, ctx: Context, m: Message, b: Object)
    ensures var after := ResultBlock(env, ctx, m.(cov := m.cov.(blocksSeen := m.cov.blocksSeen + 1)), b);
            && Extends(ctx, m, after) && after.positions == m.positions
            && (forall i :: |m.details| <= i < |after.details| ==> ResultsFrom(m.positions, after.details[i]))
  {
    var isError := Get(b, "is_error");
    var d := ToolResult(env.shape(Get(b, "content")),
                        RelationOf(Get(b, "tool_use_id"), GivenOut(ctx, Get(b, "tool_use_id")), m.positions),
                        if isError == JBool(true) then Failed
                        else if isError == JBool(false) then Success
                        else UnknownResult);
    EmitOne(ctx, m, d);
  }

  /** What one block does to the message. */
  lemma BlockExtends(env: Env, ctx: Context, assistant: bool, textOnly: bool, m: Message, block: Option<nat>, b: Json)
    ensures var after := BlockStep(env, ctx, assistant, textOnly, m, block, b);
            && Extends(ctx, m, after) && Notes(ctx, m.positions, after.positions, after.details)
            && (!assistant ==> after.positions == m.positions)
            && (forall i :: |m.details| <= i < |after.details| ==>
                  if assistant then !after.details[i].ToolResult? else ResultsFrom(m.positions, after.details[i]))
  {
    hide Extends, TextBlock, ToolUse, ResultBlock;
    EmitNone(ctx, m);
    if b.JObj? {
      TextExtends(env, ctx, assistant, textOnly, m, block, Get(b.fields, "text"));
      ToolUseExtends(env, ctx, m, block, b.fields);
      ResultExtends(env, ctx, m, b.fields);
    }
    NothingAdded(m);
  }

  lemma NothingAdded(m: Message)
    ensures Unsupported(m).details == m.details && Unsupported(m).positions == m.positions
  {
  }

  /** The message after all its blocks. */
  ghost predicate Read(ctx: Context, assistant: bool, m: Message, after: Message) {
    && Extends(ctx, m, after) && Notes(ctx, m.positions, after.positions, after.details)
    && (!assistant ==> after.positions == m.positions)
    && (forall i :: |m.details| <= i < |after.details| ==>
          if assistant then !after.details[i].ToolResult? else ResultsFrom(m.positions, after.details[i]))
  }

  lemma ReadThen(ctx: Context, assistant: bool, a: Message, b: Message, c: Message)
    requires Read(ctx, assistant, a, b) && Read(ctx, assistant, b, c)
    ensures Read(ctx, assistant, a, c)
  {
    ExtendsThen(ctx, a, b, c);
    assert b.details <= c.details && a.details <= b.details;
    hide Extends;
    forall i | |a.details| <= i < |c.details|
      ensures if assistant then !c.details[i].ToolResult? else ResultsFrom(a.positions, c.details[i])
    {
      if i < |b.details| {
        assert c.details[i] == b.details[i];
      }
    }
    forall id | id in c.positions
      ensures (id in a.positions && c.positions[id] == a.positions[id])
              || (c.positions[id].0 == ctx.record && c.positions[id].1 < |c.details|
                  && c.details[c.positions[id].1].ToolCall?)
    {
      if id in b.positions && c.positions[id] == b.positions[id] && b.positions[id].1 < |b.details| {
        assert c.details[b.positions[id].1] == b.details[b.positions[id].1];
      }
    }
  }

  lemma {:induction false} BlocksRead(env: Env, ctx: Context, assistant: bool, textOnly: bool, m: Message,
                                      blocks: seq<Json>)
    ensures Read(ctx, assistant, m, Blocks(env, ctx, assistant, textOnly, m, blocks))
  {
    hide BlockStep, Extends;
    if blocks == [] {
      EmitNone(ctx, m);
    } else {
      var n := |blocks| - 1;
      BlocksRead(env, ctx, assistant, textOnly, m, blocks[..n]);
      var before := Blocks(env, ctx, assistant, textOnly, m, blocks[..n]);
      BlockExtends(env, ctx, assistant, textOnly, before, Some(n), blocks[n]);
      ReadThen(ctx, assistant, m, before, Blocks(env, ctx, assistant, textOnly, m, blocks));
    }
  }

  // ---- One record's outcome --------------------------------------------------

  function DetailsOf(out: Claude.Outcome): seq<Detail> {
    if out.details.Some? then out.details.value else []
  }

  /** An outcome that may be added: counted, sound, its results linked through the positions known
      before, and its new positions on its own tool calls. */
  ghost predicate OutcomeOk(ctx: Context, known: Positions, cov: Coverage, out: Claude.Outcome) {
    && Counted(cov, out.cov, DetailsOf(out))
    && RecordOk(Draft(ctx, DetailsOf(out)))
    && (forall i :: 0 <= i < |DetailsOf(out)| ==> ResultsFrom(known, DetailsOf(out)[i]))
    && Notes(ctx, known, out.positions, DetailsOf(out))
  }

  predicate NoLifecycle(details: seq<Detail>) {
    forall i :: 0 <= i < |details| ==> !details[i].Lifecycle?
  }

  lemma {:induction false} NoGenerations(details: seq<Detail>)
    requires NoLifecycle(details)
    ensures GenerationsIn(details) == []
  {
    if details != [] {
      NoGenerations(details[..|details| - 1]);
    }
  }

  /** A detail that no counter counts. */
  predicate Plain(d: Detail) {
    DetailShape(d) && PointerOf(d).None? && !d.Forge? && !IsPrimary(d) && !IsUnknown(d)
    && !d.ToolResult? && (d.Lifecycle? ==> d.generation.None?)
  }

  ghost predicate AllPlain(details: seq<Detail>) {
    forall i :: 0 <= i < |details| ==> Plain(details[i])
  }

  lemma {:induction false} PlainCounts(ctx: Context, details: seq<Detail>)
    requires AllPlain(details)
    ensures PointersIn(details) == 0 && PrimaryIn(details) == 0 && UnknownIn(details) == 0
            && GenerationsIn(details) == []
    ensures RecordOk(Draft(ctx, details))
  {
    if details != [] {
      var n := |details| - 1;
      PlainCounts(ctx, details[..n]);
      hide RecordOk;
      FollowKeeps(ctx, details[..n], details[n]);
      assert details[..n] + [details[n]] == details;
    }
  }

  lemma CountedPlain(cov: Coverage, after: Coverage, details: seq<Detail>)
    requires PointersIn(details) == 0 && PrimaryIn(details) == 0 && UnknownIn(details) == 0 && Counted(cov, after, [])
    ensures Counted(cov, after, details)
  {
    NothingCounted();
    hide PointersIn, PrimaryIn, UnknownIn;
  }

  lemma PlainOk(ctx: Context, details: seq<Detail>, positions: Positions, cov: Coverage, after: Coverage)
    requires AllPlain(details) && Counted(cov, after, [])
    ensures OutcomeOk(ctx, positions, cov, Claude.Outcome.Outcome(Some(details), None, positions, after))
    ensures GenerationsIn(details) == []
  {
    PlainCounts(ctx, details);
    CountedPlain(cov, after, details);
    hide RecordOk, Counted, PointersIn, PrimaryIn, UnknownIn, GenerationsIn;
  }

  lemma PlainRead(ctx: Context, details: seq<Detail>, positions: Positions, cov: Coverage, after: Coverage)
    requires AllPlain(details) && NoLifecycle(details) && Counted(cov, after, [])
    ensures Read(ctx, true, Message([], positions, cov), Message(details, positions, after))
  {
    PlainCounts(ctx, details);
    CountedPlain(cov, after, details);
    hide RecordOk, Counted, PointersIn, PrimaryIn, UnknownIn, GenerationsIn;
    assert details[0..] == details;
  }

  lemma MetadataPlain(env: Env, message: Object, cov: Coverage)
    ensures var (details, after) := Metadata(env, message, cov);
            AllPlain(details) && NoLifecycle(details) && Counted(cov, after, [])
  {
    NothingCounted();
    hide TokenCounts, TokensInvalid, PointersIn, PrimaryIn, UnknownIn;
  }

  lemma MetadataRead(env: Env, ctx: Context, message: Object, positions: Positions, cov: Coverage)
    ensures var (details, after) := Metadata(env, message, cov);
            Read(ctx, true, Message([], positions, cov), Message(details, positions, after))
  {
    hide Metadata, Read, AllPlain, NoLifecycle, Counted;
    MetadataPlain(env, message, cov);
    var (details, after) := Metadata(env, message, cov);
    PlainRead(ctx, details, positions, cov, after);
  }

  /** One detail, or none, of a block that was counted. */
  lemma OneRead(ctx: Context, m: Message, d: Detail)
    requires MayFollow(ctx, m.details, d) && !d.Lifecycle? && !d.ToolResult?
    ensures var after := Emit(m.(cov := m.cov.(blocksSeen := m.cov.blocksSeen + 1)), d);
            Read(ctx, true, m, after) && after.positions == m.positions
  {
    EmitOne(ctx, m, d);
    hide Extends;
  }

  lemma NoneRead(ctx: Context, m: Message)
    ensures var after := Unsupported(m.(cov := m.cov.(blocksSeen := m.cov.blocksSeen + 1)));
            Read(ctx, true, m, after) && after.positions == m.positions
  {
    EmitNone(ctx, m);
    hide Extends;
  }

  lemma NothingCounted()
    ensures PointersIn([]) == 0 && PrimaryIn([]) == 0 && UnknownIn([]) == 0
  {
  }

  lemma {:induction false} RenotedNotes(ctx: Context, details: seq<Detail>, ids: seq<Json>, positions: Positions,
                                        all: seq<Detail>)
    requires details <= all
    ensures var after := Renoted(ctx, details, ids, positions);
            forall id :: id in after ==>
              (id in positions && after[id] == positions[id])
              || (after[id].0 == ctx.record && after[id].1 < |all| && all[after[id].1].ToolCall?)
  {
    if details != [] {
      RenotedNotes(ctx, details[..|details| - 1], ids, positions, all);
    }
  }

  lemma StartsRead(ctx: Context, assistant: bool, positions: Positions, cov: Coverage, after: Coverage)
    requires Counted(cov, after, [])
    ensures Read(ctx, assistant, Message([], positions, cov), Message([], positions, after))
  {
  }

  /** A message that was read gives an outcome that may be added. */
  lemma ReadOutcome(ctx: Context, assistant: bool, positions: Positions, cov: Coverage, m: Message, ids: seq<Json>,
                    at: Option<int>)
    requires Read(ctx, assistant, Message([], positions, cov), m)
    ensures var out := Claude.Outcome.Outcome(Some(m.details), at, Renoted(ctx, m.details, ids, m.positions), m.cov);
            OutcomeOk(ctx, positions, cov, out) && NoLifecycle(DetailsOf(out))
  {
    RenotedNotes(ctx, m.details, ids, m.positions, m.details);
    assert m.details[0..] == m.details;
    assert RecordOk(Draft(ctx, []));
  }

  lemma UnparsedOk(ctx: Context, positions: Positions, cov: Coverage, after: Coverage)
    requires Counted(cov, after, [])
    ensures OutcomeOk(ctx, positions, cov, Unparsed(positions, after))
            && NoLifecycle(DetailsOf(Unparsed(positions, after)))
  {
  }

  lemma CountedInvalid(cov: Coverage, bad: bool)
    ensures Counted(cov, Invalid(cov, bad), [])
  {
  }

  lemma CountedTwice(a: Coverage, b: Coverage, c: Coverage)
    requires Counted(a, b, []) && Counted(b, c, [])
    ensures Counted(a, c, [])
  {
  }

  lemma MessageOk(env: Env, ctx: Context, v: Object, generation: Option<nat>, positions: Positions, cov: Coverage)
    ensures var out := MessageOutcome(env, ctx, v, generation, positions, cov);
            && OutcomeOk(ctx, positions, cov, out) && NoLifecycle(DetailsOf(out))
            && (out.details.None? ==> out.positions == positions)
  {
    hide OutcomeOk, Read, Counted, Metadata, Renoted, BlockStep, Blocks, AllText, ToolUseIds, Invalid, NoLifecycle;
    var message := Get(v, "message");
    var c1 := Invalid(cov, generation.Some?);
    CountedInvalid(cov, generation.Some?);
    SameCounted(cov);
    UnparsedOk(ctx, positions, cov, cov);
    UnparsedOk(ctx, positions, cov, c1);
    if IsMessage(v) && message.JObj? {
      var content := Get(message.fields, "content");
      if Get(message.fields, "role") == Get(v, "type") && (content.JStr? || content.JArr?) {
        var assistant := Get(v, "type") == JStr("assistant");
        var c2 := Invalid(c1, StampInvalid(env, v));
        CountedInvalid(c1, StampInvalid(env, v));
        CountedTwice(cov, c1, c2);
        var first := Message([], positions, cov);
        StartsRead(ctx, assistant, positions, cov, c2);
        var start := Message([], positions, c2);
        if assistant {
          MetadataRead(env, ctx, message.fields, positions, c2);
          var (metadata, c3) := Metadata(env, message.fields, c2);
          start := Message(metadata, positions, c3);
          ReadThen(ctx, assistant, first, Message([], positions, c2), start);
        }
        var m := if content.JStr? then BlockStep(env, ctx, assistant, true, start, None, TextOf(content))
                 else Blocks(env, ctx, assistant, AllText(content.items), start, content.items);
        if content.JStr? {
          BlockIsRead(env, ctx, assistant, true, start, None, TextOf(content));
        } else {
          BlocksRead(env, ctx, assistant, AllText(content.items), start, content.items);
        }
        ReadThen(ctx, assistant, first, start, m);
        var ids := if content.JStr? then [] else ToolUseIds(content.items);
        ReadOutcome(ctx, assistant, positions, cov, m, ids, env.instant(Get(v, "timestamp")));
      }
    }
  }

  lemma SameCounted(cov: Coverage)
    ensures Counted(cov, cov, [])
  {
  }

  lemma BlockIsRead(env: Env, ctx: Context, assistant: bool, textOnly: bool, m: Message, block: Option<nat>, b: Json)
    ensures Read(ctx, assistant, m, BlockStep(env, ctx, assistant, textOnly, m, block, b))
  {
    BlockExtends(env, ctx, assistant, textOnly, m, block, b);
  }

  lemma UnknownBlockRead(env: Env, ctx: Context, m: Message, b: Json)
    ensures Read(ctx, true, m, UnknownBlock(env, m, b)) && UnknownBlock(env, m, b).positions == m.positions
  {
    EmitNone(ctx, m);
    if b.JObj? {
      EmitOne(ctx, m, Pasted(env.shape(Get(b.fields, "text"))));
      EmitOne(ctx, m, Pasted(env.shape(Get(b.fields, "content"))));
    }
  }

  lemma {:induction false} UnknownBlocksRead(env: Env, ctx: Context, m: Message, blocks: seq<Json>)
    ensures Read(ctx, true, m, UnknownBlocks(env, m, blocks)) && UnknownBlocks(env, m, blocks).positions == m.positions
  {
    hide UnknownBlock, Read;
    if blocks == [] {
      NothingRead(ctx, m);
    } else {
      UnknownBlocksRead(env, ctx, m, blocks[..|blocks| - 1]);
      var before := UnknownBlocks(env, m, blocks[..|blocks| - 1]);
      UnknownBlockRead(env, ctx, before, blocks[|blocks| - 1]);
      ReadThen(ctx, true, m, before, UnknownBlocks(env, m, blocks));
    }
  }

  lemma NothingRead(ctx: Context, m: Message)
    ensures Read(ctx, true, m, m)
  {
    EmitNone(ctx, m);
  }

  lemma UnknownOk(env: Env, ctx: Context, v: Object, positions: Positions, cov: Coverage)
    ensures var out := UnknownOutcome(env, v, positions, cov);
            OutcomeOk(ctx, positions, cov, out) && NoLifecycle(DetailsOf(out))
  {
    hide OutcomeOk, Read, Counted, Renoted, UnknownBlocks, Invalid, NoLifecycle;
    SameCounted(cov);
    UnparsedOk(ctx, positions, cov, cov);
    var message := Get(v, "message");
    if message.JObj? {
      var content := Get(message.fields, "content");
      if content.JStr? || content.JArr? {
        var blocks := if content.JStr? then [TextOf(content)] else content.items;
        var c := Invalid(cov, StampInvalid(env, v));
        CountedInvalid(cov, StampInvalid(env, v));
        var start := Message([], positions, c);
        StartsRead(ctx, true, positions, cov, c);
        UnknownBlocksRead(env, ctx, start, blocks);
        var m := UnknownBlocks(env, start, blocks);
        ReadThen(ctx, true, Message([], positions, cov), start, m);
        ReadAnyway(ctx, positions, cov, m, env.instant(Get(v, "timestamp")));
      }
    }
  }

  lemma ReadAnyway(ctx: Context, positions: Positions, cov: Coverage, m: Message, at: Option<int>)
    requires Read(ctx, true, Message([], positions, cov), m) && m.positions == positions
    ensures var out := Claude.Outcome.Outcome(Some(m.details), at, positions, m.cov);
            OutcomeOk(ctx, positions, cov, out) && NoLifecycle(DetailsOf(out))
    ensures m.details == [] ==>
              && OutcomeOk(ctx, positions, cov, Unparsed(positions, m.cov))
              && NoLifecycle(DetailsOf(Unparsed(positions, m.cov)))
  {
    assert m.details[0..] == m.details;
    assert RecordOk(Draft(ctx, []));
  }

  lemma LifecycleOk(env: Env, ctx: Context, v: Object, generation: Option<nat>, observed: Option<nat>,
                    positions: Positions, cov: Coverage)
    ensures var out := LifecycleOutcome(env, v, generation, observed, positions, cov);
            && OutcomeOk(ctx, positions, cov, out) && out.positions == positions
            && GenerationsIn(DetailsOf(out)) ==
               (if observed.Some? && Get(v, "type") == JStr("system")
                && Get(v, "subtype") == JStr("compact_boundary") then [observed.value] else [])
  {
    var out := LifecycleOutcome(env, v, generation, observed, positions, cov);
    if out.details.Some? {
      LifecycleAlone(ctx, positions, cov, out);
    }
  }

  lemma LifecycleAlone(ctx: Context, positions: Positions, cov: Coverage, out: Claude.Outcome)
    requires out.details.Some? && |out.details.value| == 1 && out.details.value[0].Lifecycle?
             && out.positions == positions
    requires out.details.value[0].generation.Some? ==> out.details.value[0].marker == ContextBoundary
    requires Counted(cov, out.cov, [])
    ensures OutcomeOk(ctx, positions, cov, out)
    ensures var d := out.details.value[0];
            GenerationsIn(DetailsOf(out)) == if d.generation.Some? then [d.generation.value] else []
  {
    var d := out.details.value[0];
    CountOne(d);
    assert RecordOk(Draft(ctx, []));
    FollowKeeps(ctx, [], d);
    assert [] + [d] == [d] == out.details.value;
    assert [d][..0] == [];
  }

  // ---- The record loop -------------------------------------------------------

  function RecordContext(sc: SessionContext, i: nat): Context
    requires i < |sc.session.records|
  {
    Context(i, sc.session.records[i].commitment, sc.session.repo, sc.sidechain, sc.objects)
  }

  /** A generation the record adds is the newest so far. */
  predicate Raises(last: Option<nat>, generations: seq<nat>, next: Option<nat>) {
    (generations == [] && next == last)
    || (|generations| == 1 && next == Some(generations[0]) && (last.Some? ==> last.value < generations[0]))
  }

  lemma InvalidOk(ctx: Context, positions: Positions, cov: Coverage, middle: Coverage, out: Claude.Outcome)
    requires Counted(cov, middle, []) && OutcomeOk(ctx, positions, middle, out)
    ensures OutcomeOk(ctx, positions, cov, out)
  {
    CountedThen(cov, middle, out.cov, [], DetailsOf(out));
    assert [] + DetailsOf(out) == DetailsOf(out);
  }

  lemma SubjectOk(env: Env, sc: SessionContext, i: nat, v: Object, p: Progress)
    requires i < |sc.session.records|
    ensures var out := SubjectOutcome(env, sc, i, v, p);
            var r := sc.session.records[i];
            var first := MessageOutcome(env, RecordContext(sc, i), v, r.generation, p.positions, p.cov);
            var raised := first.details.None? && RaisesGeneration(v, r.generation, p.last);
            && OutcomeOk(RecordContext(sc, i), p.positions, p.cov, out)
            && Raises(p.last, GenerationsIn(DetailsOf(out)), if raised then r.generation else p.last)
  {
    hide OutcomeOk, Counted, MessageOutcome, LifecycleOutcome, Invalid;
    var r := sc.session.records[i];
    var ctx := RecordContext(sc, i);
    var first := MessageOutcome(env, ctx, v, r.generation, p.positions, p.cov);
    MessageOk(env, ctx, v, r.generation, p.positions, p.cov);
    NoGenerations(DetailsOf(first));
    if first.details.None? {
      var cov := Invalid(first.cov, StaleGeneration(v, r.generation, p.last));
      CountedInvalid(first.cov, StaleGeneration(v, r.generation, p.last));
      OutcomeCounted(ctx, p.positions, p.cov, first);
      CountedTwice(p.cov, first.cov, cov);
      var observed := if RaisesGeneration(v, r.generation, p.last) then r.generation else None;
      LifecycleOk(env, ctx, v, r.generation, observed, first.positions, cov);
      var second := LifecycleOutcome(env, v, r.generation, observed, first.positions, cov);
      InvalidOk(ctx, p.positions, p.cov, cov, second);
      LifecycleParses(env, v, r.generation, observed, first.positions, cov);
      if second.details.None? {
        EmptyOk(ctx, p.positions, p.cov, second);
      }
    }
  }

  lemma LifecycleParses(env: Env, v: Object, generation: Option<nat>, observed: Option<nat>, positions: Positions,
                        cov: Coverage)
    ensures Get(v, "type") == JStr("system") && Get(v, "subtype") == JStr("compact_boundary") ==>
              LifecycleOutcome(env, v, generation, observed, positions, cov).details.Some?
  {
  }

  lemma OutcomeCounted(ctx: Context, positions: Positions, cov: Coverage, out: Claude.Outcome)
    requires OutcomeOk(ctx, positions, cov, out) && out.details.None?
    ensures Counted(cov, out.cov, [])
  {
  }

  lemma EmptyOk(ctx: Context, positions: Positions, cov: Coverage, out: Claude.Outcome)
    requires OutcomeOk(ctx, positions, cov, out) && out.details.None?
    ensures OutcomeOk(ctx, positions, cov, Claude.Outcome.Outcome(Some([]), None, out.positions, out.cov))
    ensures GenerationsIn(DetailsOf(Claude.Outcome.Outcome(Some([]), None, out.positions, out.cov))) == []
  {
  }

  lemma {:induction false} HoldersBelow(objects: seq<Option<Object>>, uuid: Json)
    ensures forall h :: h in Holders(objects, uuid) ==> h < |objects|
  {
    if objects != [] {
      HoldersBelow(objects[..|objects| - 1], uuid);
    }
  }

  /** A linked parent is an earlier record: source order and normalized order agree. */
  lemma ParentEarlier(env: Env, sc: SessionContext, i: nat, v: Object)
    requires SessionChecked(sc.session) && i < |sc.session.records| == |sc.objects|
    ensures ParentFor(env, sc, i, v).LinkedParent? ==> ParentFor(env, sc, i, v).record < i
  {
    if ParentFor(env, sc, i, v).LinkedParent? {
      var raw := Get(sc.objects[i].value, "parentUuid");
      HoldersBelow(sc.objects, raw);
      var h := Holders(sc.objects, raw)[0];
      assert h in Holders(sc.objects, raw);
    }
  }

  ghost predicate PositionsFit(events: seq<Event>, session: nat, positions: Positions) {
    forall id :: id in positions ==> CallAt(events, session, positions[id].0, positions[id].1)
  }

  ghost predicate GenerationsUpTo(events: seq<Event>, session: nat, last: Option<nat>) {
    forall g :: g in GenerationsOf(events, session) ==> last.Some? && g <= last.value
  }

  /** Events so far are of earlier sessions, or of this one's first `n` records and in its episode. */
  predicate EventBefore(e: Event, session: nat, episode: Option<EpisodeId>, n: nat) {
    e.session < session || (e.session == session && e.record < n && e.episode == episode)
  }

  /** Where the record loop stands before record `n`. */
  ghost predicate Going(sc: SessionContext, p: Progress, n: nat, records: nat) {
    && Growing(p.events) && Tallied(p.cov, p.events, records + n)
    && PositionsFit(p.events, sc.session.id, p.positions)
    && GenerationsUpTo(p.events, sc.session.id, p.last)
    && (forall e :: e in p.events ==> EventBefore(e, sc.session.id, sc.episode, n))
  }

  lemma OutcomeFits(sc: SessionContext, p: Progress, n: nat, records: nat, parsed: Parsed, out: Claude.Outcome,
                    next: Option<nat>)
    requires Going(sc, p, n, records) && n < |sc.session.records|
    requires OutcomeOk(RecordContext(sc, n), p.positions, p.cov, out) && out.details.Some?
    requires parsed.record == n && parsed.commitment == sc.session.records[n].commitment
             && parsed.details == out.details.value
    requires parsed.parent.LinkedParent? ==> parsed.parent.record < n
    requires Raises(p.last, GenerationsIn(out.details.value), next)
    ensures RecordOk(parsed) && Fits(p.events, sc.session.id, parsed)
  {
    var draft := Draft(RecordContext(sc, n), parsed.details);
    assert RecordOk(draft);
    forall i | 0 <= i < |parsed.details|
      ensures DetailOk(parsed, i) && ResultFits(p.events, sc.session.id, parsed.details[i])
    {
      assert DetailOk(draft, i);
      assert ResultsFrom(p.positions, DetailsOf(out)[i]);
    }
    hide DetailOk, ResultFits, Growing, Tallied, CoverageHolds, PositionsFit;
    assert forall i, j :: 0 <= i < j < |draft.details| && draft.details[i].Forge? && draft.details[j].Forge? ==>
             draft.details[i].call != draft.details[j].call;
    assert Ascending(GenerationsIn(parsed.details));
  }

  lemma CallStays(events: seq<Event>, more: seq<Event>, session: nat, record: nat, sub: nat)
    requires CallAt(events, session, record, sub)
    ensures CallAt(events + more, session, record, sub)
  {
    var e :| e in events && e.session == session && e.record == record && e.sub == sub && e.detail.ToolCall?;
    assert e in events + more;
  }

  lemma PositionsStillFit(sc: SessionContext, p: Progress, n: nat, parsed: Parsed, after: Positions)
    requires n < |sc.session.records| && parsed.record == n
    requires PositionsFit(p.events, sc.session.id, p.positions)
    requires Notes(RecordContext(sc, n), p.positions, after, parsed.details)
    ensures PositionsFit(p.events + RecordEvents(sc.session.id, sc.episode, parsed), sc.session.id, after)
  {
    var added := RecordEvents(sc.session.id, sc.episode, parsed);
    RecordEventsHold(sc.session.id, sc.episode, parsed);
    forall id | id in after
      ensures CallAt(p.events + added, sc.session.id, after[id].0, after[id].1)
    {
      if id in p.positions && after[id] == p.positions[id] {
        CallStays(p.events, added, sc.session.id, after[id].0, after[id].1);
      } else {
        assert added[after[id].1] in p.events + added;
      }
    }
  }

  lemma GenerationsStillUpTo(sc: SessionContext, p: Progress, parsed: Parsed, next: Option<nat>)
    requires GenerationsUpTo(p.events, sc.session.id, p.last) && Raises(p.last, GenerationsIn(parsed.details), next)
    ensures GenerationsUpTo(p.events + RecordEvents(sc.session.id, sc.episode, parsed), sc.session.id, next)
  {
    var added := RecordEvents(sc.session.id, sc.episode, parsed);
    GenerationsConcat(p.events, added, sc.session.id);
    GenerationsOfRecord(sc.session.id, sc.episode, parsed, sc.session.id);
    hide GenerationsOf, GenerationsIn, RecordEvents;
    forall g | g in GenerationsOf(p.events + added, sc.session.id)
      ensures next.Some? && g <= next.value
    {
      assert g in GenerationsOf(p.events, sc.session.id) || g in GenerationsIn(parsed.details);
    }
  }

  /** The counters the record loop leaves alone. */
  predicate SameFrame(a: Coverage, b: Coverage) {
    a.sessionsAdmitted == b.sessionsAdmitted && a.recordsSeen == b.recordsSeen
    && a.recordsAmbiguous == b.recordsAmbiguous && a.lineageUnresolved == b.lineageUnresolved
  }

  /** Finishing a record with an acceptable outcome keeps the loop where it should be. */
  lemma FinishKeeps(sc: SessionContext, p: Progress, n: nat, records: nat, parent: ParentLink, out: Claude.Outcome,
                    next: Option<nat>)
    requires Going(sc, p, n, records) && n < |sc.session.records|
    requires OutcomeOk(RecordContext(sc, n), p.positions, p.cov, out)
    requires parent.LinkedParent? ==> parent.record < n
    requires Raises(p.last, GenerationsIn(DetailsOf(out)), next)
    ensures Going(sc, Finish(p, sc, n, parent, out, next), n + 1, records)
    ensures SameFrame(p.cov, Finish(p, sc, n, parent, out, next).cov)
  {
    hide Growing, Tallied, PositionsFit, GenerationsUpTo, OutcomeOk, Raises, Going;
    if out.details.None? {
      FinishUnparsed(sc, p, n, records, out, next);
    } else {
      FinishParsed(sc, p, n, records, parent, out, next);
    }
  }

  lemma FinishUnparsed(sc: SessionContext, p: Progress, n: nat, records: nat, out: Claude.Outcome, next: Option<nat>)
    requires Going(sc, p, n, records) && n < |sc.session.records| && out.details.None?
    requires OutcomeOk(RecordContext(sc, n), p.positions, p.cov, out)
             && Raises(p.last, GenerationsIn(DetailsOf(out)), next)
    ensures var after := Progress(p.events, out.cov.(recordsUnsupported := out.cov.recordsUnsupported + 1),
                                  out.positions, next);
            Going(sc, after, n + 1, records) && SameFrame(p.cov, after.cov)
  {
    assert GenerationsIn([]) == [];
    hide Growing, Tallied, PositionsFit, GenerationsUpTo, RecordOk, ResultsFrom;
    TallyUnparsed(p.cov, out.cov, p.events, records + n);
    NothingNoted(sc, p, n, out.positions);
    StillBefore(sc, p, n);
  }

  lemma StillBefore(sc: SessionContext, p: Progress, n: nat)
    requires forall e :: e in p.events ==> EventBefore(e, sc.session.id, sc.episode, n)
    ensures forall e :: e in p.events ==> EventBefore(e, sc.session.id, sc.episode, n + 1)
  {
    forall e | e in p.events
      ensures EventBefore(e, sc.session.id, sc.episode, n + 1)
    {
      assert EventBefore(e, sc.session.id, sc.episode, n);
    }
  }

  lemma FinishParsed(sc: SessionContext, p: Progress, n: nat, records: nat, parent: ParentLink, out: Claude.Outcome,
                     next: Option<nat>)
    requires Going(sc, p, n, records) && n < |sc.session.records| && out.details.Some?
    requires OutcomeOk(RecordContext(sc, n), p.positions, p.cov, out)
             && Raises(p.last, GenerationsIn(DetailsOf(out)), next)
    requires parent.LinkedParent? ==> parent.record < n
    ensures Going(sc, Finish(p, sc, n, parent, out, next), n + 1, records)
    ensures SameFrame(p.cov, Finish(p, sc, n, parent, out, next).cov)
  {
    var parsed := Parsed(n, parent, out.observedAt, sc.session.records[n].commitment, out.details.value);
    OutcomeFits(sc, p, n, records, parsed, out, next);
    hide Growing, Tallied, PositionsFit, GenerationsUpTo, Raises, RecordOk, Fits, ResultsFrom, RecordEvents;
    AppendGrows(p.events, sc.session.id, sc.episode, parsed);
    TallyParsed(p.cov, out.cov, p.events, records + n, sc.session.id, sc.episode, parsed);
    PositionsStillFit(sc, p, n, parsed, out.positions);
    GenerationsStillUpTo(sc, p, parsed, next);
    RecordEventsHold(sc.session.id, sc.episode, parsed);
    StillBefore(sc, p, n);
  }

  lemma NothingNoted(sc: SessionContext, p: Progress, n: nat, after: Positions)
    requires n < |sc.session.records| && PositionsFit(p.events, sc.session.id, p.positions)
    requires Notes(RecordContext(sc, n), p.positions, after, [])
    ensures PositionsFit(p.events, sc.session.id, after)
  {
  }

  /** One record keeps it. */
  lemma RecordKeeps(env: Env, sc: SessionContext, p: Progress, n: nat, records: nat)
    requires Going(sc, p, n, records) && n < |sc.session.records| == |sc.objects| && SessionChecked(sc.session)
    ensures Going(sc, RecordStep(env, sc, p, n), n + 1, records)
    ensures SameFrame(p.cov, RecordStep(env, sc, p, n).cov)
  {
    hide OutcomeOk, Growing, Tallied, MessageOutcome, SubjectOutcome, UnknownOutcome, ParentFor, Raises, PositionsFit,
        GenerationsUpTo, Finish, SessionChecked;
    var r := sc.session.records[n];
    SkipKeeps(sc, p, n, records);
    match env.decode(r.raw) {
      case None =>
      case Some(v) =>
        ParentEarlier(env, sc, n, v);
        if r.attribution == UnknownAuthor {
          var out := UnknownOutcome(env, v, p.positions, p.cov);
          UnknownOk(env, RecordContext(sc, n), v, p.positions, p.cov);
          NoGenerations(DetailsOf(out));
          NoneRaised(p.last);
          FinishKeeps(sc, p, n, records, ParentFor(env, sc, n, v), out, p.last);
        } else if !sc.inconsistent {
          var out := SubjectOutcome(env, sc, n, v, p);
          SubjectOk(env, sc, n, v, p);
          var first := MessageOutcome(env, RecordContext(sc, n), v, r.generation, p.positions, p.cov);
          var raised := first.details.None? && RaisesGeneration(v, r.generation, p.last);
          FinishKeeps(sc, p, n, records, ParentFor(env, sc, n, v), out, if raised then r.generation else p.last);
        }
    }
  }

  lemma NoneRaised(last: Option<nat>)
    ensures Raises(last, [], last)
  {
  }

  /** A record that yields nothing is malformed or unsupported, once. */
  lemma SkipKeeps(sc: SessionContext, p: Progress, n: nat, records: nat)
    requires Going(sc, p, n, records)
    ensures Going(sc, p.(cov := p.cov.(recordsMalformed := p.cov.recordsMalformed + 1)), n + 1, records)
    ensures Going(sc, p.(cov := p.cov.(recordsUnsupported := p.cov.recordsUnsupported + 1)), n + 1, records)
  {
    hide Growing, PositionsFit, GenerationsUpTo;
    forall e | e in p.events
      ensures EventBefore(e, sc.session.id, sc.episode, n + 1)
    {
      assert EventBefore(e, sc.session.id, sc.episode, n);
    }
  }

  lemma {:induction false} RecordsKeep(env: Env, sc: SessionContext, p: Progress, n: nat, records: nat)
    requires Going(sc, p, 0, records) && n <= |sc.session.records| == |sc.objects| && SessionChecked(sc.session)
    ensures Going(sc, RecordsUpTo(env, sc, p, n), n, records)
    ensures SameFrame(p.cov, RecordsUpTo(env, sc, p, n).cov)
  {
    hide Going, RecordStep, SessionChecked;
    if n > 0 {
      RecordsKeep(env, sc, p, n - 1, records);
      RecordKeeps(env, sc, RecordsUpTo(env, sc, p, n - 1), n - 1, records);
    }
  }

  // ---- The session loop ------------------------------------------------------

  /** Where the session loop stands after these sessions. */
  ghost predicate Gathered(st: Stitched, sessions: seq<VerifiedSession>, c: Growth) {
    && Growing(c.events) && Tallied(c.cov, c.events, AdmittedTotal(c.sessions))
    && (forall e :: e in c.events ==> Placed(c.sessions, e))
    && |c.sessions| == |sessions|
    && (forall k :: 0 <= k < |sessions| ==> Stated(st, sessions[k], c.sessions[k]))
    && c.cov.sessionsAdmitted == |c.sessions| && c.cov.recordsSeen == AdmittedTotal(c.sessions)
    && c.cov.recordsAmbiguous <= c.cov.recordsSeen && c.cov.lineageUnresolved == st.unresolvedCount
  }

  predicate Stated(st: Stitched, s: VerifiedSession, m: ManifestSession) {
    m.id == s.id && m.admitted == |s.records| && m.parent == s.parent
    && m.episode == Lookup(st.ids, s.id) && m.predecessor == Lookup(st.inferred, s.id)
  }

  lemma {:induction false} AmbiguousBounded(records: seq<VerifiedRecord>)
    ensures AmbiguousIn(records) <= |records|
  {
    if records != [] {
      AmbiguousBounded(records[..|records| - 1]);
    }
  }

  /** Before the next session's records. */
  lemma SessionStarts(st: Stitched, sessions: seq<VerifiedSession>, c: Growth, sc: SessionContext)
    requires Gathered(st, sessions, c) && forall o :: o in sessions ==> o.id < sc.session.id
    ensures Going(sc, Progress(c.events, Started(c.cov, sc.session), map[], None), 0, AdmittedTotal(c.sessions))
  {
    hide Growing, CoverageHolds;
    forall e | e in c.events
      ensures e.session < sc.session.id
    {
      var m :| m in c.sessions && m.id == e.session;
      var k :| 0 <= k < |c.sessions| && c.sessions[k] == m;
      assert Stated(st, sessions[k], m);
    }
    NoGenerationsYet(c.events, sc.session.id);
    StartedTallies(c.cov, sc.session, c.events, AdmittedTotal(c.sessions));
  }

  lemma StartedTallies(cov: Coverage, s: VerifiedSession, events: seq<Event>, records: nat)
    requires Tallied(cov, events, records)
    ensures Tallied(Started(cov, s), events, records)
  {
  }

  lemma {:induction false} NoGenerationsYet(events: seq<Event>, session: nat)
    requires forall e :: e in events ==> e.session < session
    ensures GenerationsOf(events, session) == []
  {
    if events != [] {
      assert events[|events| - 1] in events;
      NoGenerationsYet(events[..|events| - 1], session);
    }
  }

  /** After them, whichever producer read them. */
  lemma SessionGathers(st: Stitched, sessions: seq<VerifiedSession>, c: Growth, sc: SessionContext, p: Progress,
                       m: ManifestSession)
    requires Gathered(st, sessions, c) && Stated(st, sc.session, m) && sc.episode == m.episode
    requires Going(sc, p, |sc.session.records|, AdmittedTotal(c.sessions))
             && SameFrame(Started(c.cov, sc.session), p.cov)
    requires forall e :: e in p.events && e !in c.events ==> e.session == sc.session.id
    ensures Gathered(st, sessions + [sc.session], Growth(p.events, p.cov, c.sessions + [m]))
  {
    AmbiguousBounded(sc.session.records);
    var more := c.sessions + [m];
    assert more[..|more| - 1] == c.sessions;
    GrowingParents(p.events);
    hide Growing, Tallied, PositionsFit, GenerationsUpTo;
    forall e | e in p.events
      ensures Placed(more, e)
    {
      PlacedAfter(sc, c, m, e);
    }
  }

  lemma SessionKeeps(env: Env, st: Stitched, sessions: seq<VerifiedSession>, c: Growth, s: VerifiedSession)
    requires Gathered(st, sessions, c) && SessionChecked(s) && forall o :: o in sessions ==> o.id < s.id
    ensures Gathered(st, sessions + [s], SessionStep(env, st, c, s))
  {
    hide SessionChecked, Gathered, Going, RecordsUpTo, ContextOf;
    var sc := ContextOf(env, s, Lookup(st.ids, s.id));
    ContextHas(env, s, Lookup(st.ids, s.id));
    var start := Progress(c.events, Started(c.cov, s), map[], None);
    SessionStarts(st, sessions, c, sc);
    RecordsKeep(env, sc, start, |s.records|, AdmittedTotal(c.sessions));
    RecordsExtend(env, sc, start, |s.records|);
    SessionGathers(st, sessions, c, sc, RecordsUpTo(env, sc, start, |s.records|), ManifestOf(sc, st));
  }

  lemma ContextHas(env: Env, s: VerifiedSession, episode: Option<EpisodeId>)
    ensures var sc := ContextOf(env, s, episode);
            sc.session == s && sc.episode == episode && |sc.objects| == |s.records|
  {
  }

  lemma {:induction false} RecordsExtend(env: Env, sc: SessionContext, p: Progress, n: nat)
    requires n <= |sc.session.records| == |sc.objects|
    ensures p.events <= RecordsUpTo(env, sc, p, n).events
    ensures forall e :: e in RecordsUpTo(env, sc, p, n).events && e !in p.events ==> e.session == sc.session.id
  {
    if n > 0 {
      RecordsExtend(env, sc, p, n - 1);
      var before := RecordsUpTo(env, sc, p, n - 1);
      StepExtends(env, sc, before, n - 1);
    }
  }

  lemma StepExtends(env: Env, sc: SessionContext, p: Progress, n: nat)
    requires n < |sc.session.records| == |sc.objects|
    ensures p.events <= RecordStep(env, sc, p, n).events
    ensures forall e :: e in RecordStep(env, sc, p, n).events && e !in p.events ==> e.session == sc.session.id
  {
    hide MessageOutcome, SubjectOutcome, UnknownOutcome, ParentFor;
  }

  lemma PlacedAfter(sc: SessionContext, c: Growth, m: ManifestSession, e: Event)
    requires m.id == sc.session.id && m.admitted == |sc.session.records| && m.episode == sc.episode
    requires forall x :: x in c.events ==> Placed(c.sessions, x)
    requires e in c.events || e.session == sc.session.id
    requires EventBefore(e, sc.session.id, sc.episode, |sc.session.records|) && ParentPrecedes(e)
    ensures Placed(c.sessions + [m], e)
  {
    if e in c.events {
      var s :| s in c.sessions && s.id == e.session && e.record < s.admitted && e.episode == s.episode;
      assert s in c.sessions + [m];
    } else {
      assert m in c.sessions + [m];
    }
  }

  lemma GrowingParents(events: seq<Event>)
    requires Growing(events)
    ensures forall e :: e in events ==> ParentPrecedes(e)
  {
  }

  lemma NothingGathered(st: Stitched)
    ensures Gathered(st, [], Growth([], NO_COVERAGE.(lineageUnresolved := st.unresolvedCount), []))
  {
    hide Growing, Tallied;
    NothingTallied();
    TallyUnresolved(NO_COVERAGE, st.unresolvedCount);
  }

  lemma TallyUnresolved(cov: Coverage, n: nat)
    requires Tallied(cov, [], 0)
    ensures Tallied(cov.(lineageUnresolved := n), [], 0)
  {
  }

  lemma CheckedPrefix(sessions: seq<VerifiedSession>)
    requires Checked(sessions) && sessions != []
    ensures Checked(sessions[..|sessions| - 1]) && SessionChecked(sessions[|sessions| - 1])
    ensures forall s :: s in sessions[..|sessions| - 1] ==> s.id < sessions[|sessions| - 1].id
  {
    assert forall s :: s in sessions[..|sessions| - 1] ==> s in sessions;
  }

  lemma {:induction false} SessionsKeep(env: Env, st: Stitched, sessions: seq<VerifiedSession>)
    requires Checked(sessions)
    ensures Gathered(st, sessions, SessionsUpTo(env, st, sessions))
  {
    hide Gathered, SessionStep, Checked, SessionChecked;
    if sessions == [] {
      NothingGathered(st);
    } else {
      var n := |sessions| - 1;
      assert sessions == sessions[..n] + [sessions[n]];
      CheckedPrefix(sessions);
      SessionsKeep(env, st, sessions[..n]);
      SessionKeeps(env, st, sessions[..n], SessionsUpTo(env, st, sessions[..n]), sessions[n]);
    }
  }

  // ---- The theorem -----------------------------------------------------------

  lemma GatheredStates(sessions: seq<VerifiedSession>, st: Stitched, c: Growth)
    requires Checked(sessions) && Gathered(st, sessions, c)
    ensures States(c.sessions, Nodes(sessions), st) && SessionsSorted(c.sessions)
  {
    hide Growing, Tallied, Placed;
    var nodes := Nodes(sessions);
    forall i | 0 <= i < |nodes|
      ensures c.sessions[i].id == nodes[i].id && c.sessions[i].parent == nodes[i].parent
      ensures c.sessions[i].episode == Lookup(st.ids, nodes[i].id)
              && c.sessions[i].predecessor == Lookup(st.inferred, nodes[i].id)
    {
      assert Stated(st, sessions[i], c.sessions[i]);
    }
    forall i, j | 0 <= i < j < |c.sessions|
      ensures c.sessions[i].id < c.sessions[j].id
    {
      assert Stated(st, sessions[i], c.sessions[i]) && Stated(st, sessions[j], c.sessions[j]);
    }
  }

  lemma GatheredEvents(sessions: seq<VerifiedSession>, st: Stitched, c: Growth)
    requires Gathered(st, sessions, c)
    ensures EventsHold(c.sessions, Rejoin(c.events)) && CoverageHolds(c.cov, Rejoin(c.events))
    ensures c.cov.recordsParsed + c.cov.recordsMalformed + c.cov.recordsUnsupported == AdmittedTotal(c.sessions)
  {
    hide Growing, Rejoin, EventsHold, CoverageHolds, Placed;
    RejoinedHold(c.sessions, c.events);
    TallyRejoined(c.cov, c.events, AdmittedTotal(c.sessions));
  }

  /** What was gathered, with the stitcher's answer, is accepted once written. */
  lemma WrittenAccepted(env: Env, sessions: seq<VerifiedSession>, st: Stitched, edges: LineageGraph.Edges, c: Growth)
    requires Checked(sessions) && Stitching(Nodes(sessions), st, edges) && Gathered(st, sessions, c)
    ensures Accepts(env.rules, Written(env, c))
  {
    hide *;
    CheckedNodes(sessions);
    GatheredStates(sessions, st, c);
    StitchedLineageHolds(c.sessions, Nodes(sessions), st, edges);
    GatheredEvents(sessions, st, c);
    GatheredCounts(sessions, st, c);
    Assembled(env, c);
  }

  lemma Assembled(env: Env, c: Growth)
    requires SessionsSorted(c.sessions) && LineageHolds(c.sessions) && EpisodesHold(c.sessions)
    requires c.cov.lineageUnresolved == UnresolvedParents(c.sessions, Keys(c.sessions))
    requires EventsHold(c.sessions, Rejoin(c.events)) && CoverageHolds(c.cov, Rejoin(c.events))
    requires c.cov.sessionsAdmitted == |c.sessions| && c.cov.recordsSeen == AdmittedTotal(c.sessions)
    requires c.cov.recordsParsed + c.cov.recordsMalformed + c.cov.recordsUnsupported == AdmittedTotal(c.sessions)
    requires c.cov.recordsAmbiguous <= c.cov.recordsSeen
    ensures Accepts(env.rules, Written(env, c))
  {
    EpisodeTables.TableHolds(env.rules, c.sessions, Rejoin(c.events));
    hide SessionsSorted, LineageHolds, EpisodesHold, EventsHold, CoverageHolds, UnresolvedParents, AdmittedTotal,
        Rejoin, Keys, IdsRising, EpisodeTable;
  }

  lemma GatheredCounts(sessions: seq<VerifiedSession>, st: Stitched, c: Growth)
    requires Gathered(st, sessions, c)
    ensures c.cov.sessionsAdmitted == |c.sessions| && c.cov.recordsSeen == AdmittedTotal(c.sessions)
    ensures c.cov.recordsAmbiguous <= c.cov.recordsSeen && c.cov.lineageUnresolved == st.unresolvedCount
  {
  }

  /** Producer and checker agree: for every list of checked sessions the producer does not refuse,
      the validator accepts what it writes. */
  lemma ClaudeAccepted(env: Env, sessions: seq<VerifiedSession>, st: Stitched, edges: LineageGraph.Edges)
    requires Checked(sessions) && Stitching(Nodes(sessions), st, edges)
    ensures Accepts(env.rules, Normalized(env, sessions, st))
  {
    SessionsKeep(env, st, sessions);
    hide Gathered, Accepts, SessionsUpTo, Written, Stitching, Checked;
    WrittenAccepted(env, sessions, st, edges, SessionsUpTo(env, st, sessions));
  }
}
