/** What each record adds to the first producer's coverage counters. */
module ClaudeCoverage {
  import opened Records
  import opened Episodes
  import opened Corpus
  import opened CorpusBuild
  import opened CorpusLineage
  import opened Transcripts
  import opened Claude
  import opened Readings
  import opened ClaudeReadings
  import opened CoverageLaws

  // ---- What a record adds ----------------------------------------------------

  /** A text off the assistant in a session whose markers do not agree. */
  predicate Nobodys(env: Env, s: VerifiedSession, assistant: bool, b: Json) {
    !assistant && IsText(b) && Get(b.fields, "text").JStr? && !AllMarked(env, s, true) && !AllMarked(env, s, false)
  }

  /** A block is seen; one that says nothing is unsupported, or nobody's turn. */
  function BlockTally(env: Env, s: VerifiedSession, assistant: bool, b: Json): Tally {
    if Nobodys(env, s, assistant, b) then NOTHING.(blocks := 1, turns := 1, unknown := 1)
    else NOTHING.(blocks := 1, blocksUnsupported := Count(BlockFacts(env, s, assistant, true, b) == []))
  }

  function BlocksTally(env: Env, s: VerifiedSession, assistant: bool, blocks: seq<Json>): Tally {
    if blocks == [] then NOTHING
    else
      Plus(BlocksTally(env, s, assistant, blocks[..|blocks| - 1]),
           BlockTally(env, s, assistant, blocks[|blocks| - 1]))
  }

  /** A string content counts as one text block. */
  function ContentTally(env: Env, s: VerifiedSession, assistant: bool, content: Json): Tally {
    if content.JArr? then BlocksTally(env, s, assistant, content.items)
    else BlockTally(env, s, assistant, JObj(map["type" := JStr("text"), "text" := content]))
  }

  function BadMetadata(env: Env, m: Object): nat {
    BadLabel(Get(m, "model"), env.modelName) + BadLabel(Get(m, "provider"), env.provider)
    + BadLabel(Get(m, "effort"), env.effort) + Count(BadUsage(Get(m, "usage"), TOKEN_NAMES))
  }

  function MessageFaults(env: Env, s: VerifiedSession, i: nat, v: Object): nat
    requires i < |s.records|
  {
    Count(s.records[i].generation.Some?)
    + (if IsMessageOf(v, "assistant") then Count(BadTime(env, v)) + BadMetadata(env, Get(v, "message").fields)
       else if IsMessageOf(v, "user") then Count(BadTime(env, v))
       else 0)
  }

  function MarkerFaults(env: Env, s: VerifiedSession, i: nat, v: Object): nat
    requires i < |s.records|
  {
    Count(BadTime(env, v))
    + Count(s.records[i].generation.Some?
            && (Get(v, "subtype") == JStr("compact_boundary") ==> !Newest(s, Boundaries(env), i)))
  }

  predicate NamesSpeaker(v: Object) {
    (Get(v, "type") == JStr("user") || Get(v, "type") == JStr("assistant")) && Get(v, "message").JObj?
  }

  function SubjectTally(env: Env, s: VerifiedSession, i: nat, v: Object): Tally
    requires i < |s.records|
  {
    if NamesSpeaker(v) then
      (if IsMessageOf(v, "assistant") || IsMessageOf(v, "user")
       then Plus(ContentTally(env, s, IsMessageOf(v, "assistant"), Get(Get(v, "message").fields, "content")),
                 Faults(MessageFaults(env, s, i, v)))
       else Faults(MessageFaults(env, s, i, v)))
    else if Get(v, "type") == JStr("system") && MarkerFor(env, s, i, Get(v, "subtype")) != [] then
        Faults(MarkerFaults(env, s, i, v))
    else NOTHING
  }

  function ShapesTally(blocks: seq<Json>): Tally {
    if blocks == [] then NOTHING
    else
      Plus(ShapesTally(blocks[..|blocks| - 1]),
           NOTHING.(blocks := 1, blocksUnsupported := Count(ShapeFacts(blocks[|blocks| - 1]) == [])))
  }

  function UnknownTally(env: Env, v: Object): Tally {
    if !Get(v, "message").JObj? then NOTHING
    else
      var content := Get(Get(v, "message").fields, "content");
      if content.JStr? then NOTHING.(blocks := 1, invalid := Count(BadTime(env, v)))
      else if content.JArr? then Plus(ShapesTally(content.items), Faults(Count(BadTime(env, v))))
      else NOTHING
  }

  function RecordTally(env: Env, s: VerifiedSession, i: nat): Tally
    requires i < |s.records|
  {
    match env.decode(s.records[i].raw)
    case None => NOTHING.(malformed := 1)
    case Some(v) =>
      if s.records[i].attribution == UnknownAuthor then Plus(UnknownTally(env, v), Judged(RecordFacts(env, s, i, v)))
      else if Conflicting(env, s) then NOTHING.(unsupported := 1)
      else Plus(SubjectTally(env, s, i, v), Judged(RecordFacts(env, s, i, v)))
  }

  function Tallies(env: Env, s: VerifiedSession): (r: seq<Tally>)
    ensures |r| == |s.records| && forall i :: 0 <= i < |r| ==> r[i] == RecordTally(env, s, i)
  {
    seq(|s.records|, i requires 0 <= i < |s.records| => RecordTally(env, s, i))
  }

  // ---- Blocks ----------------------------------------------------------------

  /** A text that is no string, one that is nobody's, and one that says something. */
  lemma TextShifts(env: Env, ctx: Context, s: VerifiedSession, assistant: bool, textOnly: bool, m: Message,
                   block: Option<nat>, text: Json)
    requires assistant || ModeOf(env, s, ctx.sidechain)
    ensures var seen := m.(cov := m.cov.(blocksSeen := m.cov.blocksSeen + 1));
            var b := JObj(map["type" := JStr("text"), "text" := text]);
            Shifts(m, TextBlock(env, ctx, assistant, textOnly, seen, block, text), BlockTally(env, s, assistant, b))
  {
    hide Shifts, AllMarked, Moved;
    var seen := m.(cov := m.cov.(blocksSeen := m.cov.blocksSeen + 1));
    var b := JObj(map["type" := JStr("text"), "text" := text]);
    var after := TextBlock(env, ctx, assistant, textOnly, seen, block, text);
    assert IsText(b) && Get(b.fields, "text") == text;
    if !text.JStr? {
      SeenShifts(m, after, true);
    } else if !assistant && ctx.sidechain.None? {
      NobodysShifts(m, after);
    } else {
      if !assistant {
        EitherMode(ctx.sidechain);
      }
      assert !Nobodys(env, s, assistant, b) && TextFacts(env, s, assistant, true, text) != [];
      TextEmits(env, ctx, assistant, textOnly, seen, block, text);
      SeenThen(m, seen, after);
    }
  }

  lemma NobodysShifts(m: Message, after: Message)
    requires after.details == m.details
    requires after.cov == m.cov.(blocksSeen := m.cov.blocksSeen + 1, turnsAmbiguous := m.cov.turnsAmbiguous + 1,
                                 contentUnknown := m.cov.contentUnknown + 1)
    ensures Shifts(m, after, NOTHING.(blocks := 1, turns := 1, unknown := 1))
  {
    hide Shifts;
    ShiftsCounted(m, after, NOTHING.(blocks := 1, turns := 1, unknown := 1));
  }

  lemma TextEmits(env: Env, ctx: Context, assistant: bool, textOnly: bool, seen: Message, block: Option<nat>,
                  text: Json)
    requires text.JStr? && (assistant || ctx.sidechain.Some?)
    ensures Shifts(seen, TextBlock(env, ctx, assistant, textOnly, seen, block, text), NOTHING)
  {
    hide Shifts, Emit;
    var author := if assistant || ctx.sidechain == Some(true) then Agent else Human;
    var pointer := if assistant && textOnly && text.s != "" then
        Some(TextPointer(block, 0, |text.s|, ctx.commitment))
                   else None;
    ShiftsOne(seen, Pasted(env.shape(text)));
    ShiftsOne(seen, Turn(author, env.shape(text), pointer));
  }

  lemma UseShifts(env: Env, ctx: Context, m: Message, k: nat, b: Object)
    ensures Shifts(m, ToolUse(env, ctx, m, Some(k), b), NOTHING)
  {
    hide Shifts, WithTest, WithReference, WithForge, Emit, Plus, GivenOut;
    var name, pointer := Get(b, "name"), InputPointerOf(ctx, Some(k), b);
    var called := Called(env, ctx, m, Some(k), b);
    ShiftsOne(m, ToolCall(env.family(name), pointer));
    PlusLaws(NOTHING, NOTHING, NOTHING);
    if pointer.Some? {
      FoundShifts(env, ctx, called, |m.details|, name, Get(b, "input"), pointer.value);
      ShiftsThen(m, called, Derived(env, ctx, m, Some(k), b), NOTHING, NOTHING);
    }
    PositionsShift(m, Derived(env, ctx, m, Some(k), b), ToolUse(env, ctx, m, Some(k), b));
  }

  lemma PositionsShift(m: Message, a: Message, b: Message)
    requires Shifts(m, a, NOTHING) && a.details == b.details && a.cov == b.cov
    ensures Shifts(m, b, NOTHING)
  {
  }

  lemma BlockShifts(env: Env, ctx: Context, s: VerifiedSession, assistant: bool, textOnly: bool, m: Message, k: nat,
                    b: Json)
    requires assistant || ModeOf(env, s, ctx.sidechain)
    ensures Shifts(m, BlockStep(env, ctx, assistant, textOnly, m, Some(k), b), BlockTally(env, s, assistant, b))
  {
    hide Shifts, ToolUse, FoundIn, TextBlock, RelationOf, GivenOut, AllMarked, ModeOf;
    var seen := m.(cov := m.cov.(blocksSeen := m.cov.blocksSeen + 1));
    var after := BlockStep(env, ctx, assistant, textOnly, m, Some(k), b);
    if IsText(b) {
      TextShifts(env, ctx, s, assistant, textOnly, m, Some(k), Get(b.fields, "text"));
      SameText(env, s, assistant, b);
      hide BlockTally;
    } else if b.JObj? && assistant && Get(b.fields, "type") == JStr("tool_use") {
      UseShifts(env, ctx, seen, k, b.fields);
      SeenThen(m, seen, after);
    } else if b.JObj? && !assistant && Get(b.fields, "type") == JStr("tool_result") {
      ResultShifts(env, ctx, seen, b.fields);
      hide ResultBlock;
      SeenThen(m, seen, after);
    } else {
      SeenShifts(m, after, true);
    }
  }

  lemma ResultShifts(env: Env, ctx: Context, m: Message, b: Object)
    ensures Shifts(m, ResultBlock(env, ctx, m, b), NOTHING)
  {
    hide Shifts, RelationOf, GivenOut;
    var d := ResultBlock(env, ctx, m, b).details[|m.details|];
    ShiftsOne(m, d);
    assert ResultBlock(env, ctx, m, b) == Emit(m, d);
  }

  lemma SameText(env: Env, s: VerifiedSession, assistant: bool, b: Json)
    requires IsText(b)
    ensures BlockTally(env, s, assistant, JObj(map["type" := JStr("text"), "text" := Get(b.fields, "text")]))
            == BlockTally(env, s, assistant, b)
  {
    var c := JObj(map["type" := JStr("text"), "text" := Get(b.fields, "text")]);
    assert IsText(c) && Get(c.fields, "text") == Get(b.fields, "text");
    hide AllMarked;
  }

  lemma {:induction false} BlocksShift(env: Env, ctx: Context, s: VerifiedSession, assistant: bool, textOnly: bool,
                                       m: Message, blocks: seq<Json>)
    requires assistant || ModeOf(env, s, ctx.sidechain)
    ensures Shifts(m, Blocks(env, ctx, assistant, textOnly, m, blocks), BlocksTally(env, s, assistant, blocks))
  {
    hide Shifts, BlockStep, BlockTally, ModeOf, Plus;
    if blocks == [] {
      ShiftsNothing(m);
    } else {
      var n := |blocks| - 1;
      var before := Blocks(env, ctx, assistant, textOnly, m, blocks[..n]);
      BlocksShift(env, ctx, s, assistant, textOnly, m, blocks[..n]);
      BlockShifts(env, ctx, s, assistant, textOnly, before, n, blocks[n]);
      ShiftsThen(m, before, Blocks(env, ctx, assistant, textOnly, m, blocks),
                 BlocksTally(env, s, assistant, blocks[..n]), BlockTally(env, s, assistant, blocks[n]));
    }
  }

  lemma ContentShifts(env: Env, ctx: Context, s: VerifiedSession, assistant: bool, start: Message, content: Json)
    requires (assistant || ModeOf(env, s, ctx.sidechain)) && (content.JStr? || content.JArr?)
    ensures Shifts(start, ContentMessage(env, ctx, assistant, start, content), ContentTally(env, s, assistant, content))
  {
    hide Shifts, BlockTally, BlocksTally, ModeOf, AllText;
    if content.JStr? {
      TextShifts(env, ctx, s, assistant, true, start, None, content);
      assert Get(TextOf(content).fields, "text") == content;
    } else {
      BlocksShift(env, ctx, s, assistant, AllText(content.items), start, content.items);
    }
  }

  // ---- Messages --------------------------------------------------------------

  lemma UsageIs(m: Object)
    ensures TokensInvalid(m) == BadUsage(Get(m, "usage"), TOKEN_NAMES)
  {
    var usage := Get(m, "usage");
    if usage.JObj? {
      CountsUpTo(usage.fields, 4);
      AllCountsIs(usage.fields);
      hide TokenCounts, AllCounts, IsCount, CountsRead;
    }
  }

  lemma MetadataMoves(env: Env, m: Object, c: Coverage)
    ensures Moved(c, Metadata(env, m, c).1, Faults(BadMetadata(env, m)))
  {
    hide Moved, Invalid, Faults, Label, BadLabel, TokensInvalid, BadUsage, ModelDetails, TokenDetails;
    var model, provider, effort := Get(m, "model"), Get(m, "provider"), Get(m, "effort");
    LabelBad(model, env.modelName);
    LabelBad(provider, env.provider);
    LabelBad(effort, env.effort);
    UsageIs(m);
    var b1, b2 := model != JNull && Label(model, env.modelName).None?, provider != JNull
        && Label(provider, env.provider).None?;
    var b3 := effort != JNull && Label(effort, env.effort).None?;
    InvalidMoves(c, b1);
    InvalidThen(c, Invalid(c, b1), Count(b1), b2);
    InvalidThen(c, Invalid(Invalid(c, b1), b2), Count(b1) + Count(b2), b3);
    InvalidThen(c, Invalid(Invalid(Invalid(c, b1), b2), b3), Count(b1) + Count(b2) + Count(b3), TokensInvalid(m));
  }

  lemma PlainShifts(m: Message, after: Message, t: Tally)
    requires m.details == [] && (forall k :: 0 <= k < |after.details| ==> Plain(after.details[k]))
    requires Moved(m.cov, after.cov, t)
    ensures Shifts(m, after, t)
  {
    hide Moved, Plus, DetailsTally, Plain;
    PlainTally(after.details);
    PlusLaws(t, NOTHING, NOTHING);
    assert after.details[0..] == after.details;
  }

  /** The metadata are details that do not count, and faults that do. */
  lemma MetadataShifts(env: Env, m: Object, positions: Positions, c: Coverage)
    ensures Shifts(Message([], positions, c), Message(Metadata(env, m, c).0, positions, Metadata(env, m, c).1),
                   Faults(BadMetadata(env, m)))
  {
    hide *;
    MetadataMoves(env, m, c);
    MetadataPlain(env, m, c);
    PlainShifts(Message([], positions, c), Message(Metadata(env, m, c).0, positions, Metadata(env, m, c).1),
                Faults(BadMetadata(env, m)));
  }

  lemma MetadataPlain(env: Env, m: Object, c: Coverage)
    ensures forall k :: 0 <= k < |Metadata(env, m, c).0| ==> Plain(Metadata(env, m, c).0[k])
  {
    hide Label, TokenCounts, Invalid;
  }

  lemma AssistantMoves(env: Env, ctx: Context, s: VerifiedSession, i: nat, v: Object, positions: Positions,
                       cov: Coverage)
    requires i < |s.records| && IsMessageOf(v, "assistant")
    ensures var out := MessageOutcome(env, ctx, v, s.records[i].generation, positions, cov);
            out.details.Some?
            && Moved(cov, out.cov, Plus(DetailsTally(out.details.value), SubjectTally(env, s, i, v)))
  {
    hide Moved, DetailsTally, Plus, Faults, Metadata, BlockStep, Blocks, Renoted, AllText, Invalid, ContentTally,
        BadMetadata, ToolUseIds, Shifts, Newest;
    var generation := s.records[i].generation;
    var g, bad := Count(generation.Some?), Count(generation.Some?) + Count(StampInvalid(env, v));
    var c1 := Invalid(cov, generation.Some?);
    var c2 := Invalid(c1, StampInvalid(env, v));
    InvalidMoves(cov, generation.Some?);
    InvalidThen(cov, c1, g, StampInvalid(env, v));
    var m := Get(v, "message").fields;
    var first, content := Message([], positions, c2), Get(m, "content");
    var start := Message(Metadata(env, m, c2).0, positions, Metadata(env, m, c2).1);
    var after := ContentMessage(env, ctx, true, start, content);
    MetadataShifts(env, m, positions, c2);
    ContentShifts(env, ctx, s, true, start, content);
    ShiftsThen(first, start, after, Faults(BadMetadata(env, m)), ContentTally(env, s, true, content));
    ReadMoves(cov, c2, first, after, bad, BadMetadata(env, m), ContentTally(env, s, true, content));
  }

  lemma UserMoves(env: Env, ctx: Context, s: VerifiedSession, i: nat, v: Object, positions: Positions, cov: Coverage)
    requires i < |s.records| && IsMessageOf(v, "user") && ModeOf(env, s, ctx.sidechain)
    ensures var out := MessageOutcome(env, ctx, v, s.records[i].generation, positions, cov);
            out.details.Some?
            && Moved(cov, out.cov, Plus(DetailsTally(out.details.value), SubjectTally(env, s, i, v)))
  {
    hide Moved, DetailsTally, Plus, Faults, ModeOf, BlockStep, Blocks, Renoted, AllText, Invalid, ContentTally,
        ToolUseIds, Shifts, Newest;
    var generation := s.records[i].generation;
    var g, bad := Count(generation.Some?), Count(generation.Some?) + Count(StampInvalid(env, v));
    var c1 := Invalid(cov, generation.Some?);
    var c2 := Invalid(c1, StampInvalid(env, v));
    InvalidMoves(cov, generation.Some?);
    InvalidThen(cov, c1, g, StampInvalid(env, v));
    var first, content := Message([], positions, c2), Get(Get(v, "message").fields, "content");
    var after := ContentMessage(env, ctx, false, first, content);
    ContentShifts(env, ctx, s, false, first, content);
    PlainMoves(cov, c2, first, after, bad, ContentTally(env, s, false, content));
  }

  /** What is no message leaves the counters alone, but for a generation it should not have. */
  lemma RejectedMoves(env: Env, ctx: Context, s: VerifiedSession, i: nat, v: Object, positions: Positions,
                      cov: Coverage)
    requires i < |s.records| && !IsMessageOf(v, "assistant") && !IsMessageOf(v, "user")
    ensures var out := MessageOutcome(env, ctx, v, s.records[i].generation, positions, cov);
            && out.details.None?
            && (NamesSpeaker(v) ==> Moved(cov, out.cov, SubjectTally(env, s, i, v)))
            && (!NamesSpeaker(v) ==> out.cov == cov)
  {
    hide Moved, Metadata, BlockStep, Blocks, Renoted, AllText, ContentTally, BadMetadata, ToolUseIds, Newest, Faults;
    InvalidMoves(cov, s.records[i].generation.Some?);
  }

  lemma ReadMoves(cov: Coverage, c: Coverage, first: Message, after: Message, bad: nat, worse: nat, t: Tally)
    requires Moved(cov, c, Faults(bad)) && first.details == [] && first.cov == c
    requires Shifts(first, after, Plus(Faults(worse), t))
    ensures Moved(cov, after.cov, Plus(DetailsTally(after.details), Plus(t, Faults(bad + worse))))
  {
    hide Shifts, DetailsTally;
    ShiftsMoved(first.positions, c, after, Plus(Faults(worse), t));
    MovedThen(cov, c, after.cov, Faults(bad), Plus(DetailsTally(after.details), Plus(Faults(worse), t)));
  }

  // ---- Other records ---------------------------------------------------------

  lemma ShapeShifts(env: Env, m: Message, b: Json)
    ensures Shifts(m, UnknownBlock(env, m, b), NOTHING.(blocks := 1, blocksUnsupported := Count(ShapeFacts(b) == [])))
  {
    hide Shifts, Moved, Emit;
    var seen := m.(cov := m.cov.(blocksSeen := m.cov.blocksSeen + 1));
    var after := UnknownBlock(env, m, b);
    if ShapeFacts(b) == [] {
      SeenShifts(m, after, true);
    } else {
      ShiftsOne(seen, Pasted(env.shape(Get(b.fields, "text"))));
      ShiftsOne(seen, Pasted(env.shape(Get(b.fields, "content"))));
      SeenThen(m, seen, after);
    }
  }

  lemma {:induction false} ShapesShift(env: Env, m: Message, blocks: seq<Json>)
    ensures Shifts(m, UnknownBlocks(env, m, blocks), ShapesTally(blocks))
  {
    hide Shifts, UnknownBlock, ShapeFacts, Plus;
    if blocks == [] {
      ShiftsNothing(m);
    } else {
      var n := |blocks| - 1;
      var before := UnknownBlocks(env, m, blocks[..n]);
      ShapesShift(env, m, blocks[..n]);
      ShapeShifts(env, before, blocks[n]);
      ShiftsThen(m, before, UnknownBlocks(env, m, blocks), ShapesTally(blocks[..n]),
                 NOTHING.(blocks := 1, blocksUnsupported := Count(ShapeFacts(blocks[n]) == [])));
    }
  }

  lemma StringTally(content: Json)
    requires content.JStr?
    ensures ShapesTally([TextOf(content)]) == NOTHING.(blocks := 1)
  {
    var blocks := [TextOf(content)];
    assert blocks[..0] == [] && Get(TextOf(content).fields, "text") == content;
    assert ShapeFacts(blocks[0]) == [PastedText(content)];
  }

  lemma UnknownMoves(env: Env, v: Object, positions: Positions, cov: Coverage)
    ensures var out := UnknownOutcome(env, v, positions, cov);
            Moved(cov, out.cov,
                  Plus(DetailsTally(if out.details.Some? then out.details.value else []), UnknownTally(env, v)))
  {
    hide Moved, Shifts, UnknownBlocks, ShapesTally, StampInvalid, Invalid, Faults, Plus, DetailsTally;
    NoTally([]);
    NothingMoved(cov);
    PlusLaws(NOTHING, NOTHING, NOTHING);
    if Get(v, "message").JObj? {
      var content := Get(Get(v, "message").fields, "content");
      if content.JStr? || content.JArr? {
        var blocks := if content.JStr? then [TextOf(content)] else content.items;
        var start := Message([], positions, Invalid(cov, StampInvalid(env, v)));
        var after := UnknownBlocks(env, start, blocks);
        InvalidMoves(cov, StampInvalid(env, v));
        ShapesShift(env, start, blocks);
        PlainMoves(cov, start.cov, start, after, Count(StampInvalid(env, v)), ShapesTally(blocks));
        StampIs(env, v);
        if content.JStr? {
          StringTally(content);
          OneFault(Count(BadTime(env, v)));
        }
      }
    }
  }

  lemma OneFault(n: nat)
    ensures Plus(NOTHING.(blocks := 1), Faults(n)) == NOTHING.(blocks := 1, invalid := n)
  {
  }

  lemma MarkerCounts(env: Env, s: VerifiedSession, i: nat, v: Object, last: Option<nat>)
    requires i < |s.records| && Spoken(env, s.records[i]) == Some(v) && LastIs(s, Boundaries(env), i, last)
    requires Get(v, "type") == JStr("system") && MarkerFor(env, s, i, Get(v, "subtype")) != []
    ensures var generation, boundary := s.records[i].generation, MarkerOf(Get(v, "subtype")) == Some(ContextBoundary);
            Count(StaleGeneration(v, generation, last)) + Count(StampInvalid(env, v))
            + Count(!boundary && generation.Some?) == MarkerFaults(env, s, i, v)
  {
    if ClaudeReadings.Boundary(env, s.records[i]) {
      LastMoves(s, Boundaries(env), i, last);
    }
    hide LastIs, Newest;
  }

  lemma MarkerIs(env: Env, s: VerifiedSession, i: nat, subtype: Json)
    requires i < |s.records|
    ensures MarkerFor(env, s, i, subtype) != [] <==> MarkerOf(subtype).Some?
  {
    hide Newest;
  }

  lemma LifecycleIs(env: Env, v: Object, generation: Option<nat>, observed: Option<nat>, positions: Positions,
                    cov: Coverage)
    ensures var out := LifecycleOutcome(env, v, generation, observed, positions, cov);
            var marker := MarkerOf(Get(v, "subtype"));
            if Get(v, "type") != JStr("system") || marker.None? then out.details.None? && out.cov == cov
            else
              && out.details.Some? && |out.details.value| == 1 && Plain(out.details.value[0])
              && out.cov == Invalid(Invalid(cov, StampInvalid(env, v)),
                                    marker != Some(ContextBoundary) && generation.Some?)
  {
    hide MarkerOf, Invalid, StampInvalid;
  }

  lemma MarkerMoves(env: Env, s: VerifiedSession, i: nat, v: Object, last: Option<nat>, observed: Option<nat>,
                    positions: Positions, cov: Coverage)
    requires i < |s.records| && Spoken(env, s.records[i]) == Some(v) && LastIs(s, Boundaries(env), i, last)
    requires Get(v, "type") == JStr("system") && MarkerOf(Get(v, "subtype")).Some?
    ensures var generation := s.records[i].generation;
            var out := LifecycleOutcome(env, v, generation, observed, positions,
                                        Invalid(cov, StaleGeneration(v, generation, last)));
            && out.details.Some?
            && Moved(cov, out.cov, Plus(DetailsTally(out.details.value), Faults(MarkerFaults(env, s, i, v))))
  {
    hide *;
    MarkerIs(env, s, i, Get(v, "subtype"));
    MarkerCounts(env, s, i, v, last);
    var generation := s.records[i].generation;
    var stale, other := StaleGeneration(v, generation, last), MarkerOf(Get(v, "subtype")) != Some(ContextBoundary);
    var c1 := Invalid(cov, stale);
    var out := LifecycleOutcome(env, v, generation, observed, positions, c1);
    LifecycleIs(env, v, generation, observed, positions, c1);
    InvalidMoves(cov, stale);
    InvalidThen(cov, c1, Count(stale), StampInvalid(env, v));
    InvalidThen(cov, Invalid(c1, StampInvalid(env, v)), Count(stale) + Count(StampInvalid(env, v)),
                other && generation.Some?);
    PlainTally(out.details.value);
    PlusLaws(Faults(MarkerFaults(env, s, i, v)), NOTHING, NOTHING);
  }

  lemma OtherTally(env: Env, s: VerifiedSession, i: nat, v: Object)
    requires i < |s.records| && !NamesSpeaker(v)
    ensures SubjectTally(env, s, i, v)
            == if Get(v, "type") == JStr("system") && MarkerOf(Get(v, "subtype")).Some?
               then Faults(MarkerFaults(env, s, i, v)) else NOTHING
  {
    MarkerIs(env, s, i, Get(v, "subtype"));
    hide NamesSpeaker, MarkerOf, MarkerFor, MarkerFaults, MessageFaults, ContentTally;
  }

  /** The message path having declined, the counters are those of the lifecycle path. */
  lemma OtherOutcome(env: Env, sc: SessionContext, i: nat, v: Object, p: Progress)
    requires i < |sc.session.records|
    requires var first := MessageOutcome(env, ContextAt(sc, i), v, sc.session.records[i].generation, p.positions,
                                         p.cov);
             first.details.None? && first.cov == p.cov && first.positions == p.positions
    ensures var generation := sc.session.records[i].generation;
            var observed := if RaisesGeneration(v, generation, p.last) then generation else None;
            var second := LifecycleOutcome(env, v, generation, observed, p.positions,
                                           Invalid(p.cov, StaleGeneration(v, generation, p.last)));
            var out := SubjectOutcome(env, sc, i, v, p);
            && out.cov == second.cov && (second.details.Some? ==> out.details == second.details)
            && (second.details.None? ==> out.details.None? || out.details == Some([]))
  {
    hide MessageOutcome, Invalid, LifecycleOutcome, RaisesGeneration, StaleGeneration;
  }

  lemma OtherMoves(env: Env, sc: SessionContext, i: nat, v: Object, p: Progress)
    requires i < |sc.session.records| && !NamesSpeaker(v) && Spoken(env, sc.session.records[i]) == Some(v)
    requires LastIs(sc.session, Boundaries(env), i, p.last)
    requires var first := MessageOutcome(env, ContextAt(sc, i), v, sc.session.records[i].generation, p.positions,
                                         p.cov);
             first.details.None? && first.cov == p.cov && first.positions == p.positions
    ensures var out := SubjectOutcome(env, sc, i, v, p);
            Moved(p.cov, out.cov, Plus(DetailsTally(if out.details.Some? then out.details.value else []),
                                       SubjectTally(env, sc.session, i, v)))
  {
    hide *;
    var s, generation := sc.session, sc.session.records[i].generation;
    var observed := if RaisesGeneration(v, generation, p.last) then generation else None;
    var stale := StaleGeneration(v, generation, p.last);
    OtherTally(env, s, i, v);
    OtherOutcome(env, sc, i, v, p);
    LifecycleIs(env, v, generation, observed, p.positions, Invalid(p.cov, stale));
    if Get(v, "type") == JStr("system") && MarkerOf(Get(v, "subtype")).Some? {
      MarkerMoves(env, s, i, v, p.last, observed, p.positions, p.cov);
    } else {
      NothingMoved(p.cov);
      NoTally([]);
      PlusLaws(NOTHING, NOTHING, NOTHING);
      NoFault(p.cov);
      NotStale(v, generation, p.last);
    }
  }

  lemma NotStale(v: Object, generation: Option<nat>, last: Option<nat>)
    requires Get(v, "type") != JStr("system") || MarkerOf(Get(v, "subtype")).None?
    ensures !StaleGeneration(v, generation, last)
  {
  }

  // ---- The record loop -------------------------------------------------------

  lemma SubjectMoves(env: Env, sc: SessionContext, i: nat, v: Object, p: Progress)
    requires ContextFor(env, sc) && i < |sc.session.records| && Spoken(env, sc.session.records[i]) == Some(v)
    requires LastIs(sc.session, Boundaries(env), i, p.last)
    ensures var out := SubjectOutcome(env, sc, i, v, p);
            Moved(p.cov, out.cov, Plus(DetailsTally(if out.details.Some? then out.details.value else []),
                                       SubjectTally(env, sc.session, i, v)))
  {
    var s, ctx := sc.session, ContextAt(sc, i);
    hide ContextFor, LastIs, Moved, DetailsTally, SubjectTally, MessageOutcome, ModeOf, LifecycleOutcome, Invalid,
        Plus, Spoken, Newest;
    if IsMessageOf(v, "assistant") {
      AssistantMoves(env, ctx, s, i, v, p.positions, p.cov);
    } else if IsMessageOf(v, "user") {
      SidechainIs(env, sc, i);
      UserMoves(env, ctx, s, i, v, p.positions, p.cov);
    } else {
      RejectedMoves(env, ctx, s, i, v, p.positions, p.cov);
      MessageParses(env, sc, i, v, p);
      if NamesSpeaker(v) {
        SpeakerDeclined(env, sc, i, v, p);
        NoTally([]);
        PlusLaws(SubjectTally(env, s, i, v), NOTHING, NOTHING);
      } else {
        OtherMoves(env, sc, i, v, p);
      }
    }
  }

  lemma SpeakerDeclined(env: Env, sc: SessionContext, i: nat, v: Object, p: Progress)
    requires i < |sc.session.records| && NamesSpeaker(v)
    requires MessageOutcome(env, ContextAt(sc, i), v, sc.session.records[i].generation, p.positions,
                            p.cov).details.None?
    ensures var out := SubjectOutcome(env, sc, i, v, p);
            && out.details.None?
            && out.cov == MessageOutcome(env, ContextAt(sc, i), v, sc.session.records[i].generation, p.positions,
                                         p.cov).cov
  {
    hide MessageOutcome;
  }

  lemma SaidIs(env: Env, s: VerifiedSession, i: nat, v: Object)
    requires i < |s.records| && env.decode(s.records[i].raw) == Some(v)
    ensures var said, facts := Sayings(env, s)[i], RecordFacts(env, s, i, v);
            && (said.Some? <==> facts.Some?) && (said.Some? ==> said.value.facts == facts.value)
  {
    hide RecordFacts, ParentSaid;
  }

  lemma Conveyed(r: Reader, said: Option<Saying>, parent: ParentLink, out: Claude.Outcome)
    requires Conveys(r, said, parent, out)
    ensures (said.Some? <==> out.details.Some?) && (said.Some? ==> AllRead(r, out.details.value, said.value.facts))
  {
  }

  function LastAfter(env: Env, sc: SessionContext, n: nat, v: Object, p: Progress): Option<nat>
    requires n < |sc.session.records|
  {
    var generation := sc.session.records[n].generation;
    var first := MessageOutcome(env, ContextAt(sc, n), v, generation, p.positions, p.cov);
    if first.details.None? && RaisesGeneration(v, generation, p.last) then generation else p.last
  }

  lemma StepIs(env: Env, sc: SessionContext, n: nat, v: Object, p: Progress)
    requires n < |sc.session.records| == |sc.objects| && sc.session.records[n].attribution == Subject
    requires env.decode(sc.session.records[n].raw) == Some(v) && !sc.inconsistent
    ensures RecordStep(env, sc, p, n)
            == Finish(p, sc, n, ParentFor(env, sc, n, v), SubjectOutcome(env, sc, n, v, p),
                      LastAfter(env, sc, n, v, p))
  {
    hide ParentFor, SubjectOutcome, Finish, MessageOutcome, RaisesGeneration;
  }

  lemma TallyIs(env: Env, s: VerifiedSession, n: nat, v: Object)
    requires n < |s.records| && s.records[n].attribution == Subject && env.decode(s.records[n].raw) == Some(v)
    requires !Conflicting(env, s)
    ensures RecordTally(env, s, n) == Plus(SubjectTally(env, s, n, v), Judged(RecordFacts(env, s, n, v)))
  {
    hide SubjectTally, Judged, RecordFacts, Plus, Conflicting;
  }

  lemma LastHere(env: Env, sc: SessionContext, n: nat, v: Object, before: seq<Event>, p: Progress)
    requires n < |sc.session.records| && Following(env, sc, n, before, p) && !Conflicting(env, sc.session)
    requires env.decode(sc.session.records[n].raw) == Some(v) && sc.session.records[n].attribution == Subject
    ensures Spoken(env, sc.session.records[n]) == Some(v) && LastIs(sc.session, Boundaries(env), n, p.last)
  {
    hide LastIs, Heard, Noted, Conflicting;
  }

  lemma SubjectStep(env: Env, sc: SessionContext, n: nat, v: Object, before: seq<Event>, p: Progress)
    requires ContextFor(env, sc) && n < |sc.session.records| == |sc.objects|
    requires sc.session.records[n].attribution == Subject && !Conflicting(env, sc.session)
    requires env.decode(sc.session.records[n].raw) == Some(v) && Following(env, sc, n, before, p)
    ensures Moved(p.cov, RecordStep(env, sc, p, n).cov, RecordTally(env, sc.session, n))
  {
    hide *;
    var s, out, parent := sc.session, SubjectOutcome(env, sc, n, v, p), ParentFor(env, sc, n, v);
    ConflictIs(env, sc);
    StepIs(env, sc, n, v, p);
    TallyIs(env, s, n, v);
    LastHere(env, sc, n, v, before, p);
    SubjectMoves(env, sc, n, v, p);
    SubjectConveys(env, sc, n, v, before, p);
    SaidIs(env, s, n, v);
    FinishCounts(p, sc, n, parent, out, LastAfter(env, sc, n, v, p));
    Conveyed(RecordReader(env, s, n), Sayings(env, s)[n], parent, out);
    JudgedMoves(RecordReader(env, s, n), out, p.cov, RecordStep(env, sc, p, n).cov, RecordFacts(env, s, n, v),
                SubjectTally(env, s, n, v));
  }

  lemma UnknownStep(env: Env, sc: SessionContext, n: nat, v: Object, p: Progress)
    requires n < |sc.session.records| == |sc.objects| && sc.session.records[n].attribution == UnknownAuthor
    requires env.decode(sc.session.records[n].raw) == Some(v)
    ensures Moved(p.cov, RecordStep(env, sc, p, n).cov, RecordTally(env, sc.session, n))
  {
    var s, r := sc.session, RecordReader(env, sc.session, n);
    var out := UnknownOutcome(env, v, p.positions, p.cov);
    var facts := RecordFacts(env, s, n, v);
    UnknownReads(r, v, p.positions, p.cov);
    UnknownMoves(env, v, p.positions, p.cov);
    FinishCounts(p, sc, n, ParentFor(env, sc, n, v), out, p.last);
    assert RecordStep(env, sc, p, n) == Finish(p, sc, n, ParentFor(env, sc, n, v), out, p.last) by {
      hide ParentFor, UnknownOutcome, Finish;
    }
    assert RecordTally(env, s, n) == Plus(UnknownTally(env, v), Judged(facts)) by {
      hide UnknownTally, Judged, RecordFacts, Plus;
    }
    assert facts == if UnknownFacts(v) == [] then None else Some(UnknownFacts(v)) by {
      hide UnknownFacts;
    }
    hide *;
    JudgedMoves(r, out, p.cov, RecordStep(env, sc, p, n).cov, facts, UnknownTally(env, v));
  }

  lemma StepCounts(env: Env, sc: SessionContext, n: nat, before: seq<Event>, p: Progress)
    requires ContextFor(env, sc) && n < |sc.session.records| == |sc.objects| && Following(env, sc, n, before, p)
    ensures Moved(p.cov, RecordStep(env, sc, p, n).cov, RecordTally(env, sc.session, n))
  {
    var r := sc.session.records[n];
    assert r in sc.session.records && r.attribution != NonSubject;
    ConflictIs(env, sc);
    hide Following, Moved, RecordTally, RecordStep, ContextFor, Conflicting;
    match env.decode(r.raw) {
      case None => SilentCounts(env, sc, n, p);
      case Some(v) =>
        if r.attribution == UnknownAuthor {
          UnknownStep(env, sc, n, v, p);
        } else if Conflicting(env, sc.session) {
          SilentCounts(env, sc, n, p);
        } else {
          SubjectStep(env, sc, n, v, before, p);
        }
    }
  }

  lemma SilentCounts(env: Env, sc: SessionContext, n: nat, p: Progress)
    requires n < |sc.session.records| == |sc.objects| && (sc.inconsistent <==> Conflicting(env, sc.session))
    requires || env.decode(sc.session.records[n].raw).None?
             || (sc.session.records[n].attribution == Subject && Conflicting(env, sc.session))
    ensures Moved(p.cov, RecordStep(env, sc, p, n).cov, RecordTally(env, sc.session, n))
  {
    hide Conflicting, Finish, MessageOutcome, SubjectOutcome, UnknownOutcome, ParentFor, SubjectTally, UnknownTally;
  }

  lemma {:induction false} RecordsCount(env: Env, sc: SessionContext, start: Progress, n: nat)
    requires ContextFor(env, sc) && n <= |sc.session.records| == |sc.objects|
    requires start.positions == map[] && start.last.None?
    ensures Moved(start.cov, RecordsUpTo(env, sc, start, n).cov, Sum(Tallies(env, sc.session), n))
  {
    hide ContextFor, RecordStep, Moved, RecordTally, Plus, Following;
    if n == 0 {
      NothingMoved(start.cov);
    } else {
      var before := RecordsUpTo(env, sc, start, n - 1);
      RecordsCount(env, sc, start, n - 1);
      RecordsFollow(env, sc, start, n - 1);
      StepCounts(env, sc, n - 1, start.events, before);
      MovedThen(start.cov, before.cov, RecordsUpTo(env, sc, start, n).cov, Sum(Tallies(env, sc.session), n - 1),
                RecordTally(env, sc.session, n - 1));
    }
  }

  // ---- The corpus ------------------------------------------------------------

  function AllTallies(env: Env, sessions: seq<VerifiedSession>): (r: seq<seq<Tally>>)
    ensures |r| == |sessions| && forall k :: 0 <= k < |r| ==> r[k] == Tallies(env, sessions[k])
  {
    seq(|sessions|, k requires 0 <= k < |sessions| => Tallies(env, sessions[k]))
  }

  lemma {:induction false} SessionsCount(env: Env, st: Stitched, sessions: seq<VerifiedSession>)
    requires forall s :: s in sessions ==> SessionChecked(s)
    ensures Covers(sessions, AllTallies(env, sessions), st.unresolvedCount, SessionsUpTo(env, st, sessions).cov)
  {
    hide Covers, RecordsUpTo, SessionChecked, Inconsistent, Sidechain, SubjectObjects, Tallies, Started, Moved;
    if sessions == [] {
      CoversNothing(st.unresolvedCount);
    } else {
      var n := |sessions| - 1;
      var s := sessions[n];
      assert s in sessions && sessions == sessions[..n] + [s];
      SessionsCount(env, st, sessions[..n]);
      var c := SessionsUpTo(env, st, sessions[..n]);
      var sc := ContextOf(env, s, Lookup(st.ids, s.id));
      var start := Progress(c.events, Started(c.cov, s), map[], None);
      RecordsCount(env, sc, start, |s.records|);
      assert AllTallies(env, sessions) == AllTallies(env, sessions[..n]) + [Tallies(env, s)];
      CoversMore(sessions[..n], AllTallies(env, sessions[..n]), st.unresolvedCount, c.cov, s, Tallies(env, s),
                 SessionsUpTo(env, st, sessions).cov);
    }
  }

  /** The coverage of the artifact is the sum of what its records add. */
  lemma ClaudeCounts(env: Env, sessions: seq<VerifiedSession>, st: Stitched)
    requires Checked(sessions)
    ensures Covers(sessions, AllTallies(env, sessions), st.unresolvedCount,
                   Normalized(env, sessions, st).manifest.coverage)
  {
    hide SessionChecked;
    SessionsCount(env, st, sessions);
    hide Covers, SessionsUpTo, EpisodeTable, Rejoin, AllTallies;
  }
}
