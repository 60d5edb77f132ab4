/** What each record adds to the second producer's coverage counters. */
module CodexCoverage {
  import opened Records
  import opened Episodes
  import opened Corpus
  import opened CorpusBuild
  import opened CorpusLineage
  import opened Transcripts
  import opened Claude
  import opened Codex
  import opened Readings
  import opened CodexReadings
  import opened CoverageLaws

  // ---- What a record adds ----------------------------------------------------

  /** Every block is seen; one that says nothing is unsupported. */
  function TextsTally(env: Env, assistant: bool, blocks: seq<Json>): Tally {
    if blocks == [] then NOTHING
    else
      Plus(TextsTally(env, assistant, blocks[..|blocks| - 1]),
           NOTHING.(blocks := 1,
                    blocksUnsupported := Count(TextFacts(env, assistant, blocks[|blocks| - 1]) == [])))
  }

  function ShapesTally(blocks: seq<Json>): Tally {
    if blocks == [] then NOTHING
    else
      Plus(ShapesTally(blocks[..|blocks| - 1]),
           NOTHING.(blocks := 1, blocksUnsupported := Count(ShapeFacts(blocks[|blocks| - 1]) == [])))
  }

  function UnknownTally(v: Object): Tally {
    if Member(v, "type") == JStr("message") && Member(v, "content").JArr? then ShapesTally(Member(v, "content").items)
    else if OutputKind(Member(v, "type")) then
      NOTHING.(blocks := 1, blocksUnsupported := Count(UnknownFacts(v) == []))
    else NOTHING
  }

  function BadNames(env: Env, n: Named): nat {
    BadLabel(n.model, env.modelName) + BadLabel(n.provider, env.provider) + BadLabel(n.effort, env.effort)
  }

  /** The blocks of an item: those of its message, or the one call or output it is. */
  function ItemTally(t: Tools, v: Object): Tally {
    if ItemFacts(t, v).None? then NOTHING
    else if Member(v, "type") == JStr("message") then
      TextsTally(t.env, Member(v, "role") == JStr("assistant"), Member(v, "content").items)
    else NOTHING.(blocks := Count(CallIn(v).Some? || OutputKind(Member(v, "type"))))
  }

  predicate BadCount(info: Json) {
    && info != JNull
    && (info.JObj? ==> BadUsage(Get(info.fields, "last_token_usage"), CODEX_TOKEN_NAMES))
  }

  /** A compaction may come with the summary it leaves, which is content nobody points at. */
  function CompactionTally(s: VerifiedSession, env: Env, i: nat, v: Object): Tally
    requires i < |s.records|
  {
    var summary := Count(IsOf(v, "compacted") && Member(v, "message").JStr?);
    NOTHING.(blocks := summary, unknown := summary,
             invalid := Count(s.records[i].generation.Some? && !Newest(s, Boundaries(env), i)))
  }

  function SubjectTally(t: Tools, s: VerifiedSession, i: nat, v: Object): Tally
    requires i < |s.records|
  {
    var generation := Count(s.records[i].generation.Some?);
    if !Get(v, "payload").JObj? then NOTHING
    else if Compacts(v) then CompactionTally(s, t.env, i, v)
    else if SettingsIn(v).Some? then Faults(BadNames(t.env, SettingsIn(v).value) + generation)
    else if IsOf(v, "response_item") then Plus(ItemTally(t, v), Faults(generation))
    else if IsOf(v, "event_msg") then
        Faults(Count(Member(v, "type") == JStr("token_count") && BadCount(Member(v, "info"))) + generation)
    else NOTHING
  }

  function RecordTally(t: Tools, s: VerifiedSession, i: nat): Tally
    requires i < |s.records|
  {
    match t.env.decode(s.records[i].raw)
    case None => NOTHING.(malformed := 1)
    case Some(v) =>
      var own := if s.records[i].attribution == UnknownAuthor then UnknownTally(v) else SubjectTally(t, s, i, v);
      var facts := RecordFacts(t, s, i, v);
      Plus(Plus(own, Faults(Count(facts.Some? && BadTime(t.env, v)))), Judged(facts))
  }

  function Tallies(t: Tools, s: VerifiedSession): (r: seq<Tally>)
    ensures |r| == |s.records| && forall i :: 0 <= i < |r| ==> r[i] == RecordTally(t, s, i)
  {
    seq(|s.records|, i requires 0 <= i < |s.records| => RecordTally(t, s, i))
  }

  // ---- Messages, calls and outputs -------------------------------------------

  lemma TextShifts(t: Tools, ctx: Context, assistant: bool, m: Message, index: nat, b: Json)
    requires MessageBlock(t, ctx, assistant, m, index, b).Done?
    ensures Shifts(m, MessageBlock(t, ctx, assistant, m, index, b).value,
                   NOTHING.(blocks := 1, blocksUnsupported := Count(TextFacts(t.env, assistant, b) == [])))
  {
    hide Shifts, Moved, Emit;
    var seen := m.(cov := m.cov.(blocksSeen := m.cov.blocksSeen + 1));
    var after := MessageBlock(t, ctx, assistant, m, index, b).value;
    if TextFacts(t.env, assistant, b) == [] {
      SeenShifts(m, after, true);
    } else {
      var text := Get(b.fields, "text");
      var pointer := if assistant && text.s != "" then Some(TextPointer(Some(index), 0, |text.s|, ctx.commitment))
                     else None;
      ShiftsOne(seen, Pasted(t.env.shape(text)));
      ShiftsOne(seen, Turn(if assistant then Agent else Human, t.env.shape(text), pointer));
      SeenThen(m, seen, after);
    }
  }

  lemma {:induction false} TextsShift(t: Tools, ctx: Context, assistant: bool, m: Message, blocks: seq<Json>)
    requires MessageBlocks(t, ctx, assistant, m, blocks).Done?
    ensures Shifts(m, MessageBlocks(t, ctx, assistant, m, blocks).value, TextsTally(t.env, assistant, blocks))
  {
    hide Shifts, MessageBlock, TextFacts, Plus;
    if blocks == [] {
      ShiftsNothing(m);
    } else {
      var n := |blocks| - 1;
      TextsShift(t, ctx, assistant, m, blocks[..n]);
      var before := MessageBlocks(t, ctx, assistant, m, blocks[..n]).value;
      TextShifts(t, ctx, assistant, before, n, blocks[n]);
      ShiftsThen(m, before, MessageBlocks(t, ctx, assistant, m, blocks).value,
                 TextsTally(t.env, assistant, blocks[..n]),
                 NOTHING.(blocks := 1, blocksUnsupported := Count(TextFacts(t.env, assistant, blocks[n]) == [])));
    }
  }

  lemma ShapeShifts(t: Tools, m: Message, b: Json)
    requires UnknownPart(t, m, b).Done?
    ensures Shifts(m, UnknownPart(t, m, b).value,
                   NOTHING.(blocks := 1, blocksUnsupported := Count(ShapeFacts(b) == [])))
  {
    hide Shifts, Moved, Emit;
    var seen := m.(cov := m.cov.(blocksSeen := m.cov.blocksSeen + 1));
    var after := UnknownPart(t, m, b).value;
    if ShapeFacts(b) == [] {
      SeenShifts(m, after, true);
    } else {
      ShiftsOne(seen, Pasted(t.env.shape(Get(b.fields, "text"))));
      SeenThen(m, seen, after);
    }
  }

  lemma {:induction false} ShapesShift(t: Tools, m: Message, blocks: seq<Json>)
    requires UnknownParts(t, m, blocks).Done?
    ensures Shifts(m, UnknownParts(t, m, blocks).value, ShapesTally(blocks))
  {
    hide Shifts, UnknownPart, ShapeFacts, Plus;
    if blocks == [] {
      ShiftsNothing(m);
    } else {
      var n := |blocks| - 1;
      ShapesShift(t, m, blocks[..n]);
      var before := UnknownParts(t, m, blocks[..n]).value;
      ShapeShifts(t, before, blocks[n]);
      ShiftsThen(m, before, UnknownParts(t, m, blocks).value, ShapesTally(blocks[..n]),
                 NOTHING.(blocks := 1, blocksUnsupported := Count(ShapeFacts(blocks[n]) == [])));
    }
  }

  lemma CallShifts(t: Tools, ctx: Context, call: CallDetails, positions: Positions, cov: Coverage)
    requires CallPartials(t, ctx, call, positions, cov).Done?
    ensures Shifts(Message([], positions, cov), CallPartials(t, ctx, call, positions, cov).value, NOTHING.(blocks := 1))
  {
    hide Shifts, WithTest, WithReference, WithForge, Emit, Plus, CallsGiven, Moved;
    var start := Message([], positions, cov);
    var seen := start.(cov := cov.(blocksSeen := cov.blocksSeen + 1));
    var noted := CallNoted(t, ctx, call, positions, cov);
    var found := CallFound(t, ctx, call, noted);
    var after := CallPartials(t, ctx, call, positions, cov).value;
    ShiftsOne(seen, ToolCall(t.env.family(call.name), CallPointer(ctx, call)));
    SeenThen(start, seen, noted);
    ShiftsNothing(noted);
    if CallPointer(ctx, call).Some? {
      FoundShifts(t.env, ctx, noted, 0, call.name, t.classified(call.name, call.input), CallPointer(ctx, call).value);
    }
    ShiftsThen(start, noted, found, NOTHING.(blocks := 1), NOTHING);
    PlusLaws(NOTHING.(blocks := 1), NOTHING, NOTHING);
    SameShifts(start, found, after, NOTHING.(blocks := 1));
  }

  lemma SameShifts(m: Message, a: Message, b: Message, t: Tally)
    requires Shifts(m, a, t) && a.details == b.details && a.cov == b.cov
    ensures Shifts(m, b, t)
  {
  }

  lemma OutputShifts(t: Tools, ctx: Context, payload: Object, positions: Positions, cov: Coverage)
    requires OutputPartials(t, ctx, payload, positions, cov).Done?
    ensures Shifts(Message([], positions, cov), OutputPartials(t, ctx, payload, positions, cov).value,
                   NOTHING.(blocks := 1))
  {
    hide Shifts, RelationOf, CallsGiven, Moved;
    var start := Message([], positions, cov);
    var seen := start.(cov := cov.(blocksSeen := cov.blocksSeen + 1));
    var after := OutputPartials(t, ctx, payload, positions, cov).value;
    var d := after.details[0];
    ShiftsOne(seen, d);
    assert after == Emit(seen, d);
    hide Emit;
    SeenThen(start, seen, after);
  }

  // ---- One record ------------------------------------------------------------

  /** The counters have moved by the details of the outcome and the tally. */
  ghost predicate OutMoved(cov: Coverage, out: Claude.Outcome, t: Tally) {
    Moved(cov, out.cov, Plus(DetailsTally(if out.details.Some? then out.details.value else []), t))
  }

  lemma ShiftedOut(positions: Positions, cov: Coverage, m: Message, t: Tally, bad: bool)
    requires Shifts(Message([], positions, cov), m, t)
    ensures OutMoved(cov, Given(m.details, m.positions, Invalid(m.cov, bad)), Plus(t, Faults(Count(bad))))
  {
    hide Shifts, DetailsTally;
    ShiftsMoved(positions, cov, m, t);
    InvalidMoves(m.cov, bad);
    MovedThen(cov, m.cov, Invalid(m.cov, bad), Plus(DetailsTally(m.details), t), Faults(Count(bad)));
    hide Moved, Invalid, Faults;
    PlusLaws(DetailsTally(m.details), t, Faults(Count(bad)));
  }

  lemma EmptyOut(positions: Positions, cov: Coverage, after: Coverage, n: nat)
    requires Moved(cov, after, Faults(n))
    ensures OutMoved(cov, Given([], positions, after), Faults(n))
            && OutMoved(cov, Unparsed(positions, after), Faults(n))
  {
    hide Moved, Plus, DetailsTally, Faults;
    NoTally([]);
    PlusLaws(Faults(n), NOTHING, NOTHING);
  }

  ghost predicate ItemMoved(t: Tools, ctx: Context, v: Object, generation: Option<nat>, positions: Positions,
                            cov: Coverage)
    requires ItemOutcome(t, ctx, v, generation, positions, cov).Done?
  {
    OutMoved(cov, ItemOutcome(t, ctx, v, generation, positions, cov).value,
             Plus(ItemTally(t, v), Faults(Count(generation.Some?))))
  }

  lemma MessageItem(t: Tools, ctx: Context, v: Object, generation: Option<nat>, positions: Positions, cov: Coverage)
    requires Get(v, "payload").JObj? && ItemOutcome(t, ctx, v, generation, positions, cov).Done?
    requires Member(v, "type") == JStr("message") && ItemFacts(t, v).Some?
    ensures Member(v, "content").JArr?
    ensures var assistant, blocks := Member(v, "role") == JStr("assistant"), Member(v, "content").items;
            var tried := MessageBlocks(t, ctx, assistant, Message([], positions, cov), blocks);
            && ItemTally(t, v) == TextsTally(t.env, assistant, blocks)
            && tried.Done? && ItemOutcome(t, ctx, v, generation, positions, cov).value
                == Given(tried.value.details, tried.value.positions, Invalid(tried.value.cov, generation.Some?))
  {
    PayloadIs(v, "type");
    PayloadIs(v, "role");
    PayloadIs(v, "content");
    hide PayloadOf, Member, MessageBlocks, CallPartials, TextsFacts, OutputPartials, DetailsOfCall, Invalid, CallIn,
        TextsTally;
  }

  lemma MessageMoves(t: Tools, ctx: Context, v: Object, generation: Option<nat>, positions: Positions, cov: Coverage)
    requires Get(v, "payload").JObj? && ItemOutcome(t, ctx, v, generation, positions, cov).Done?
    requires Member(v, "type") == JStr("message") && ItemFacts(t, v).Some?
    ensures ItemMoved(t, ctx, v, generation, positions, cov)
  {
    hide ItemOutcome, ItemFacts, ItemTally, Member, MessageBlocks, Invalid, OutMoved, Plus, Faults, TextsTally, Shifts;
    MessageItem(t, ctx, v, generation, positions, cov);
    var assistant, blocks := Member(v, "role") == JStr("assistant"), Member(v, "content").items;
    var start := Message([], positions, cov);
    TextsShift(t, ctx, assistant, start, blocks);
    ShiftedOut(positions, cov, MessageBlocks(t, ctx, assistant, start, blocks).value,
               TextsTally(t.env, assistant, blocks), generation.Some?);
  }

  lemma CallItem(t: Tools, ctx: Context, v: Object, generation: Option<nat>, positions: Positions, cov: Coverage)
    requires Get(v, "payload").JObj? && ItemOutcome(t, ctx, v, generation, positions, cov).Done? && CallIn(v).Some?
    ensures ItemTally(t, v) == NOTHING.(blocks := 1)
    ensures var tried := CallPartials(t, ctx, CallIn(v).value, positions, cov);
            tried.Done? && ItemOutcome(t, ctx, v, generation, positions, cov).value
                == Given(tried.value.details, tried.value.positions, Invalid(tried.value.cov, generation.Some?))
  {
    PayloadIs(v, "type");
    CallIs(v);
    if Member(v, "type") == JStr("message") {
      NoCallMessage(v);
    }
    hide PayloadOf, Member, MessagePartials, CallPartials, OutputPartials, DetailsOfCall, Invalid, CallIn, CallFacts,
        TextsFacts, TextsTally, OutputKind;
  }

  lemma CallMoves(t: Tools, ctx: Context, v: Object, generation: Option<nat>, positions: Positions, cov: Coverage)
    requires Get(v, "payload").JObj? && ItemOutcome(t, ctx, v, generation, positions, cov).Done? && CallIn(v).Some?
    ensures ItemMoved(t, ctx, v, generation, positions, cov)
  {
    CallItem(t, ctx, v, generation, positions, cov);
    hide ItemOutcome, CallPartials, Invalid, CallIn, OutMoved, Plus, Faults, Shifts, ItemTally;
    CallShifts(t, ctx, CallIn(v).value, positions, cov);
    ShiftedOut(positions, cov, CallPartials(t, ctx, CallIn(v).value, positions, cov).value, NOTHING.(blocks := 1),
               generation.Some?);
  }

  lemma OutputItem(t: Tools, ctx: Context, v: Object, generation: Option<nat>, positions: Positions, cov: Coverage)
    requires Get(v, "payload").JObj? && ItemOutcome(t, ctx, v, generation, positions, cov).Done?
    requires CallIn(v).None? && OutputKind(Member(v, "type"))
    ensures ItemTally(t, v) == NOTHING.(blocks := 1)
    ensures var tried := OutputPartials(t, ctx, PayloadOf(v), positions, cov);
            tried.Done? && ItemOutcome(t, ctx, v, generation, positions, cov).value
                == Given(tried.value.details, tried.value.positions, Invalid(tried.value.cov, generation.Some?))
  {
    PayloadIs(v, "type");
    CallIs(v);
    hide PayloadOf, Member, MessagePartials, CallPartials, OutputPartials, DetailsOfCall, Invalid, CallIn, CallFacts,
        TextsFacts, TextsTally;
  }

  lemma OutputMoves(t: Tools, ctx: Context, v: Object, generation: Option<nat>, positions: Positions, cov: Coverage)
    requires Get(v, "payload").JObj? && ItemOutcome(t, ctx, v, generation, positions, cov).Done?
    requires CallIn(v).None? && OutputKind(Member(v, "type"))
    ensures ItemMoved(t, ctx, v, generation, positions, cov)
  {
    OutputItem(t, ctx, v, generation, positions, cov);
    hide ItemOutcome, OutputPartials, Invalid, PayloadOf, OutMoved, Plus, Faults, Shifts, ItemTally;
    OutputShifts(t, ctx, PayloadOf(v), positions, cov);
    ShiftedOut(positions, cov, OutputPartials(t, ctx, PayloadOf(v), positions, cov).value, NOTHING.(blocks := 1),
               generation.Some?);
  }

  predicate Silent(t: Tools, v: Object) {
    ItemFacts(t, v).None?
    || (Member(v, "type") != JStr("message") && CallIn(v).None? && !OutputKind(Member(v, "type")))
  }

  lemma SilentIs(t: Tools, ctx: Context, v: Object, generation: Option<nat>, positions: Positions, cov: Coverage)
    requires Get(v, "payload").JObj? && ItemOutcome(t, ctx, v, generation, positions, cov).Done? && Silent(t, v)
    ensures ItemTally(t, v) == NOTHING
    ensures var out := ItemOutcome(t, ctx, v, generation, positions, cov).value;
            out == Given([], positions, Invalid(cov, generation.Some?))
            || out == Unparsed(positions, Invalid(cov, generation.Some?))
  {
    PayloadIs(v, "type");
    PayloadIs(v, "role");
    PayloadIs(v, "content");
    CallIs(v);
    hide PayloadOf, Member, MessageBlocks, CallPartials, OutputPartials, DetailsOfCall, Invalid, CallIn, CallFacts,
        TextsFacts, TextsTally;
  }

  /** An item that is read says nothing, or is not supported. */
  lemma SilentItem(t: Tools, ctx: Context, v: Object, generation: Option<nat>, positions: Positions, cov: Coverage)
    requires Get(v, "payload").JObj? && ItemOutcome(t, ctx, v, generation, positions, cov).Done? && Silent(t, v)
    ensures ItemMoved(t, ctx, v, generation, positions, cov)
  {
    hide ItemOutcome, Invalid, OutMoved, Plus, Faults, Moved, ItemTally, Given, Unparsed, Count, Silent, Get;
    SilentIs(t, ctx, v, generation, positions, cov);
    InvalidMoves(cov, generation.Some?);
    EmptyOut(positions, cov, Invalid(cov, generation.Some?), Count(generation.Some?));
    PlusLaws(Faults(Count(generation.Some?)), NOTHING, NOTHING);
  }

  lemma ItemMoves(t: Tools, ctx: Context, v: Object, generation: Option<nat>, positions: Positions, cov: Coverage)
    requires Get(v, "payload").JObj? && ItemOutcome(t, ctx, v, generation, positions, cov).Done?
    ensures ItemMoved(t, ctx, v, generation, positions, cov)
  {
    hide ItemMoved, ItemOutcome, Member, CallIn, OutputKind, ItemFacts;
    if Silent(t, v) {
      SilentItem(t, ctx, v, generation, positions, cov);
    } else if Member(v, "type") == JStr("message") {
      MessageMoves(t, ctx, v, generation, positions, cov);
    } else if CallIn(v).Some? {
      CallMoves(t, ctx, v, generation, positions, cov);
    } else {
      OutputMoves(t, ctx, v, generation, positions, cov);
    }
  }

  // ---- Settings, tokens, compactions -----------------------------------------

  lemma NamesMove(t: Tools, settings: Settings, named: Named, cov: Coverage)
    requires SameNames(settings, named)
    ensures Moved(cov, SettingsInvalid(t, settings, cov), Faults(BadNames(t.env, named)))
  {
    hide Moved, Invalid, Faults, Label, BadLabel;
    LabelBad(named.model, t.env.modelName);
    LabelBad(named.provider, t.env.provider);
    LabelBad(named.effort, t.env.effort);
    var b1 := named.model != JNull && Label(named.model, t.env.modelName).None?;
    var b2 := named.provider != JNull && Label(named.provider, t.env.provider).None?;
    var b3 := named.effort != JNull && Label(named.effort, t.env.effort).None?;
    InvalidMoves(cov, b1);
    InvalidThen(cov, Invalid(cov, b1), Count(b1), b2);
    InvalidThen(cov, Invalid(Invalid(cov, b1), b2), Count(b1) + Count(b2), b3);
  }

  lemma SettingsPlain(t: Tools, v: Object, s: Settings, lastModel: Option<string>)
    ensures forall k :: 0 <= k < |SettingsDetails(t, v, s, lastModel)| ==> Plain(SettingsDetails(t, v, s, lastModel)[k])
  {
    hide ModelChanges, Label;
  }

  lemma PlainOut(positions: Positions, cov: Coverage, details: seq<Detail>, after: Coverage, t: Tally)
    requires (forall k :: 0 <= k < |details| ==> Plain(details[k])) && Moved(cov, after, t)
    ensures OutMoved(cov, Given(details, positions, after), t)
  {
    hide Moved, Plus, DetailsTally, Plain;
    PlainTally(details);
    PlusLaws(t, NOTHING, NOTHING);
  }

  lemma UsageIs(v: Object)
    requires Get(v, "payload").JObj?
    ensures TokenPartial(PayloadOf(v)).1 == BadCount(Member(v, "info"))
    ensures forall k :: 0 <= k < |TokenPartial(PayloadOf(v)).0| ==> Plain(TokenPartial(PayloadOf(v)).0[k])
  {
    PayloadIs(v, "info");
    var info := Member(v, "info");
    hide TokensUpTo, AllCounts, CodexReadings.IsCount, CodexReadings.CountsRead;
    if info.JObj? && Get(info.fields, "last_token_usage").JObj? {
      CountsUpTo(Get(info.fields, "last_token_usage").fields, 3);
      AllCountsIs(Get(info.fields, "last_token_usage").fields);
    }
  }

  lemma EventIs(v: Object, generation: Option<nat>, positions: Positions, cov: Coverage)
    requires Get(v, "payload").JObj?
    ensures var out := EventOutcome(v, generation, positions, cov);
            if Member(v, "type") == JStr("token_count") then
              out == Given(TokenPartial(PayloadOf(v)).0, positions,
                           Invalid(Invalid(cov, TokenPartial(PayloadOf(v)).1), generation.Some?))
            else
              || out == Given([], positions, Invalid(cov, generation.Some?))
              || out == Unparsed(positions, Invalid(cov, generation.Some?))
  {
    PayloadIs(v, "type");
    hide PayloadOf, Member, TokenPartial, Invalid;
  }

  lemma EventMoves(v: Object, generation: Option<nat>, positions: Positions, cov: Coverage)
    requires Get(v, "payload").JObj?
    ensures OutMoved(cov, EventOutcome(v, generation, positions, cov),
                     Faults(Count(Member(v, "type") == JStr("token_count") && BadCount(Member(v, "info")))
                            + Count(generation.Some?)))
  {
    hide *;
    EventIs(v, generation, positions, cov);
    UsageIs(v);
    var bad, n := BadCount(Member(v, "info")), Count(generation.Some?);
    InvalidMoves(cov, bad);
    InvalidThen(cov, Invalid(cov, bad), Count(bad), generation.Some?);
    PlainOut(positions, cov, TokenPartial(PayloadOf(v)).0, Invalid(Invalid(cov, bad), generation.Some?),
             Faults(Count(bad) + n));
    InvalidMoves(cov, generation.Some?);
    EmptyOut(positions, cov, Invalid(cov, generation.Some?), n);
    CountNone();
  }

  lemma CountNone()
    ensures Count(false) == 0
  {
  }

  // ---- A record --------------------------------------------------------------

  lemma CompactionIs(t: Tools, ctx: Context, v: Object, generation: Option<nat>, lastModel: Option<string>,
                     last: Option<nat>, positions: Positions, cov: Coverage)
    requires Compacts(v)
    ensures var step := RecordPartials(t, ctx, v, false, generation, lastModel, last, positions, cov);
            && step.Done?
            && step.value.out.cov
                == Invalid(CompactionSeen(v, cov), generation.Some? && !NewGeneration(generation, last))
  {
    PayloadIs(v, "type");
    hide PayloadOf, Member, Invalid, CompactionSeen, UnknownPartials, SettingsRecord, ItemOutcome, EventOutcome,
        NewGeneration;
  }

  lemma SummaryMoves(v: Object, cov: Coverage)
    requires Get(v, "payload").JObj?
    ensures var n := Count(IsOf(v, "compacted") && Member(v, "message").JStr?);
            Moved(cov, CompactionSeen(v, cov), NOTHING.(blocks := n, unknown := n))
  {
    PayloadIs(v, "message");
    hide PayloadOf, Member;
  }

  lemma SummaryFaults(n: nat, bad: nat)
    ensures Plus(NOTHING.(blocks := n, unknown := n), Faults(bad))
            == NOTHING.(blocks := n, unknown := n, invalid := bad)
  {
  }

  lemma CompactionTallyIs(t: Tools, s: VerifiedSession, i: nat, v: Object, last: Option<nat>)
    requires i < |s.records| && Spoken(t.env, s.records[i]) == Some(v) && Compacts(v)
    requires LastIs(s, Boundaries(t.env), i, last)
    ensures var n := Count(IsOf(v, "compacted") && Member(v, "message").JStr?);
            var stale := s.records[i].generation.Some? && !NewGeneration(s.records[i].generation, last);
            CompactionTally(s, t.env, i, v) == NOTHING.(blocks := n, unknown := n, invalid := Count(stale))
  {
    LastMoves(s, Boundaries(t.env), i, last);
    hide LastIs, Member, IsOf, Newest, Compacts, Spoken;
  }

  lemma BoundaryPlain(t: Tools, ctx: Context, v: Object, generation: Option<nat>, lastModel: Option<string>,
                      last: Option<nat>, positions: Positions, cov: Coverage)
    requires Compacts(v)
    ensures var step := RecordPartials(t, ctx, v, false, generation, lastModel, last, positions, cov);
            && step.Done? && step.value.out.details.Some?
            && forall k :: 0 <= k < |step.value.out.details.value| ==> Plain(step.value.out.details.value[k])
  {
    CompactionStep(t, ctx, v, generation, lastModel, last, positions, cov);
    hide RecordPartials, Compacts;
  }

  lemma CompactionMoves(t: Tools, ctx: Context, s: VerifiedSession, i: nat, v: Object, lastModel: Option<string>,
                        last: Option<nat>, positions: Positions, cov: Coverage)
    requires i < |s.records| && Spoken(t.env, s.records[i]) == Some(v) && Compacts(v)
    requires LastIs(s, Boundaries(t.env), i, last)
    ensures var step := RecordPartials(t, ctx, v, false, s.records[i].generation, lastModel, last, positions, cov);
            step.Done? && OutMoved(cov, step.value.out, CompactionTally(s, t.env, i, v))
  {
    hide *;
    var generation := s.records[i].generation;
    BoundaryPlain(t, ctx, v, generation, lastModel, last, positions, cov);
    CompactionIs(t, ctx, v, generation, lastModel, last, positions, cov);
    CompactionTallyIs(t, s, i, v, last);
    CompactsPayload(v);
    SummaryMoves(v, cov);
    var n := Count(IsOf(v, "compacted") && Member(v, "message").JStr?);
    var stale := generation.Some? && !NewGeneration(generation, last);
    var seen := CompactionSeen(v, cov);
    InvalidMoves(seen, stale);
    MovedThen(cov, seen, Invalid(seen, stale), NOTHING.(blocks := n, unknown := n), Faults(Count(stale)));
    SummaryFaults(n, Count(stale));
    var step := RecordPartials(t, ctx, v, false, generation, lastModel, last, positions, cov);
    PlainMoved(cov, step.value.out, CompactionTally(s, t.env, i, v));
  }

  lemma PlainMoved(cov: Coverage, out: Claude.Outcome, t: Tally)
    requires out.details.Some? && (forall k :: 0 <= k < |out.details.value| ==> Plain(out.details.value[k]))
    requires Moved(cov, out.cov, t)
    ensures OutMoved(cov, out, t)
  {
    hide Moved, Plus, DetailsTally, Plain;
    PlainTally(out.details.value);
    PlusLaws(t, NOTHING, NOTHING);
  }

  lemma SettingsMove(t: Tools, ctx: Context, s: VerifiedSession, i: nat, v: Object, lastModel: Option<string>,
                     last: Option<nat>, positions: Positions, cov: Coverage)
    requires i < |s.records| && Get(v, "payload").JObj? && !Compacts(v) && SettingsIn(v).Some?
    requires RecordPartials(t, ctx, v, false, s.records[i].generation, lastModel, last, positions, cov).Done?
    ensures var step := RecordPartials(t, ctx, v, false, s.records[i].generation, lastModel, last, positions,
                                       cov).value;
            OutMoved(cov, step.out,
                     Faults(BadNames(t.env, SettingsIn(v).value) + Count(s.records[i].generation.Some?)))
  {
    var generation := s.records[i].generation;
    SettingsStep(t, ctx, v, generation, lastModel, last, positions, cov);
    SettingsAre(v);
    var settings, named := SettingsRecord(v).value.value, SettingsIn(v).value;
    hide *;
    NamesMove(t, settings, named, cov);
    InvalidThen(cov, SettingsInvalid(t, settings, cov), BadNames(t.env, named), generation.Some?);
    SettingsPlain(t, v, settings, lastModel);
    PlainOut(positions, cov, SettingsDetails(t, v, settings, lastModel),
             Invalid(SettingsInvalid(t, settings, cov), generation.Some?),
             Faults(BadNames(t.env, named) + Count(generation.Some?)));
  }

  lemma SettingsStep(t: Tools, ctx: Context, v: Object, generation: Option<nat>, lastModel: Option<string>,
                     last: Option<nat>, positions: Positions, cov: Coverage)
    requires Get(v, "payload").JObj? && !Compacts(v) && SettingsIn(v).Some?
    requires RecordPartials(t, ctx, v, false, generation, lastModel, last, positions, cov).Done?
    ensures SettingsRecord(v).Done? && SettingsRecord(v).value.Some?
    ensures var settings := SettingsRecord(v).value.value;
            RecordPartials(t, ctx, v, false, generation, lastModel, last, positions, cov).value.out
            == Given(SettingsDetails(t, v, settings, lastModel), positions,
                     Invalid(SettingsInvalid(t, settings, cov), generation.Some?))
  {
    PayloadIs(v, "type");
    assert !IsCompaction(v);
    SettingsAre(v);
    hide SettingsIn, SettingsRecord, PayloadOf, Member, SettingsDetails, SettingsInvalid, Invalid, IsCompaction,
        Compacts, UnknownPartials, ItemOutcome, EventOutcome;
  }

  lemma PlainStep(t: Tools, ctx: Context, v: Object, generation: Option<nat>, lastModel: Option<string>,
                  last: Option<nat>, positions: Positions, cov: Coverage)
    requires !Compacts(v) && (!Get(v, "payload").JObj? || SettingsIn(v).None?)
    requires RecordPartials(t, ctx, v, false, generation, lastModel, last, positions, cov).Done?
    ensures var out := RecordPartials(t, ctx, v, false, generation, lastModel, last, positions, cov).value.out;
            if !Get(v, "payload").JObj? then out == Unparsed(positions, cov)
            else if IsOf(v, "response_item") then
              var item := ItemOutcome(t, ctx, v, generation, positions, cov);
              item.Done? && out == item.value
            else if IsOf(v, "event_msg") then out == EventOutcome(v, generation, positions, cov)
            else out == Unparsed(positions, cov)
  {
    if Get(v, "payload").JObj? {
      PayloadIs(v, "type");
      assert !IsCompaction(v);
      SettingsAre(v);
    }
    hide SettingsIn, SettingsRecord, PayloadOf, Member, ItemOutcome, EventOutcome, IsCompaction, Compacts,
        UnknownPartials;
  }

  lemma NoneMoved(positions: Positions, cov: Coverage)
    ensures OutMoved(cov, Unparsed(positions, cov), NOTHING)
  {
    hide Moved, Plus, DetailsTally;
    NothingMoved(cov);
    NoTally([]);
    PlusLaws(NOTHING, NOTHING, NOTHING);
  }

  lemma SubjectMoves(t: Tools, ctx: Context, s: VerifiedSession, i: nat, v: Object, lastModel: Option<string>,
                     last: Option<nat>, positions: Positions, cov: Coverage)
    requires i < |s.records| && Spoken(t.env, s.records[i]) == Some(v) && LastIs(s, Boundaries(t.env), i, last)
    requires RecordPartials(t, ctx, v, false, s.records[i].generation, lastModel, last, positions, cov).Done?
    ensures var step := RecordPartials(t, ctx, v, false, s.records[i].generation, lastModel, last, positions,
                                       cov).value;
            OutMoved(cov, step.out, SubjectTally(t, s, i, v))
  {
    hide RecordPartials, SettingsIn, Compacts, LastIs, OutMoved, Member, ItemTally, Faults, Plus, CompactionTally,
        BadNames,
        Spoken, BadCount, ItemOutcome, EventOutcome;
    var generation := s.records[i].generation;
    if Compacts(v) {
      CompactsPayload(v);
      CompactionMoves(t, ctx, s, i, v, lastModel, last, positions, cov);
    } else if Get(v, "payload").JObj? && SettingsIn(v).Some? {
      SettingsMove(t, ctx, s, i, v, lastModel, last, positions, cov);
    } else {
      PlainStep(t, ctx, v, generation, lastModel, last, positions, cov);
      NoneMoved(positions, cov);
      if Get(v, "payload").JObj? {
        if IsOf(v, "response_item") {
          ItemMoves(t, ctx, v, generation, positions, cov);
        } else if IsOf(v, "event_msg") {
          EventMoves(v, generation, positions, cov);
        }
      }
    }
  }

  lemma CompactsPayload(v: Object)
    requires Compacts(v)
    ensures Get(v, "payload").JObj?
  {
  }

  ghost predicate UnknownMoved(t: Tools, v: Object, positions: Positions, cov: Coverage)
    requires UnknownPartials(t, PayloadOf(v), positions, cov).Done?
  {
    var m := UnknownPartials(t, PayloadOf(v), positions, cov).value;
    && (m.Some? ==> Shifts(Message([], positions, cov), m.value, UnknownTally(v)))
    && (m.None? ==> UnknownTally(v) == NOTHING)
  }

  predicate ListsBlocks(v: Object) {
    Member(v, "type") == JStr("message") && Member(v, "content").JArr?
  }

  lemma UnknownList(t: Tools, v: Object, positions: Positions, cov: Coverage)
    requires Get(v, "payload").JObj? && UnknownPartials(t, PayloadOf(v), positions, cov).Done? && ListsBlocks(v)
    ensures UnknownMoved(t, v, positions, cov)
  {
    PayloadIs(v, "type");
    PayloadIs(v, "content");
    hide PayloadOf, Member, UnknownParts, ShapesTally, Shifts, UnknownFacts, OutputText, UnknownCandidate, OutputKind;
    ShapesShift(t, Message([], positions, cov), Member(v, "content").items);
  }

  lemma OtherUnknown(t: Tools, v: Object, positions: Positions, cov: Coverage)
    requires Get(v, "payload").JObj? && UnknownPartials(t, PayloadOf(v), positions, cov).Done? && !ListsBlocks(v)
    ensures var m := UnknownPartials(t, PayloadOf(v), positions, cov).value;
            var start := Message([], positions, cov.(blocksSeen := cov.blocksSeen + 1));
            if OutputKind(Member(v, "type")) then
              && m == Some(UnknownCandidate(t.env, start, OutputText(Get(PayloadOf(v), "output"))))
              && UnknownTally(v) == NOTHING.(blocks := 1, blocksUnsupported := Count(UnknownFacts(v) == []))
            else m == None && UnknownTally(v) == NOTHING
  {
    PayloadIs(v, "type");
    PayloadIs(v, "content");
    hide PayloadOf, Member, UnknownCandidate, UnknownFacts, OutputText, UnknownParts, ShapesTally;
  }

  lemma UnknownOther(t: Tools, v: Object, positions: Positions, cov: Coverage)
    requires Get(v, "payload").JObj? && UnknownPartials(t, PayloadOf(v), positions, cov).Done? && !ListsBlocks(v)
    ensures UnknownMoved(t, v, positions, cov)
  {
    hide Get, PayloadOf, Member, Shifts, UnknownCandidate, UnknownFacts, OutputText, UnknownPartials, UnknownTally,
        OutputKind, ListsBlocks, Count;
    OtherUnknown(t, v, positions, cov);
    if OutputKind(Member(v, "type")) {
      UnknownOutput(t, v, positions, cov);
    }
  }

  lemma UnknownMoves(t: Tools, v: Object, positions: Positions, cov: Coverage)
    requires Get(v, "payload").JObj? && UnknownPartials(t, PayloadOf(v), positions, cov).Done?
    ensures UnknownMoved(t, v, positions, cov)
  {
    hide *;
    if ListsBlocks(v) {
      UnknownList(t, v, positions, cov);
    } else {
      UnknownOther(t, v, positions, cov);
    }
  }

  lemma UnknownOutput(t: Tools, v: Object, positions: Positions, cov: Coverage)
    requires Get(v, "payload").JObj? && OutputKind(Member(v, "type"))
    ensures Shifts(Message([], positions, cov),
                   UnknownCandidate(t.env, Message([], positions, cov.(blocksSeen := cov.blocksSeen + 1)),
                                    OutputText(Get(PayloadOf(v), "output"))),
                   NOTHING.(blocks := 1, blocksUnsupported := Count(UnknownFacts(v) == [])))
  {
    PayloadIs(v, "output");
    hide PayloadOf, Shifts, Moved;
    var start := Message([], positions, cov);
    var seen := Message([], positions, cov.(blocksSeen := cov.blocksSeen + 1));
    var text := OutputText(Member(v, "output"));
    var after := UnknownCandidate(t.env, seen, text);
    assert UnknownFacts(v) == [] <==> !text.JStr?;
    hide UnknownFacts, OutputText, Member;
    if text.JStr? {
      ShiftsOne(seen, Pasted(t.env.shape(text)));
      hide Emit;
      SeenThen(start, seen, after);
    } else {
      SeenShifts(start, after, true);
    }
  }

  /** The counters of a record of unknown authorship. */
  lemma UnknownRecord(t: Tools, ctx: Context, v: Object, generation: Option<nat>, lastModel: Option<string>,
                      last: Option<nat>, positions: Positions, cov: Coverage)
    requires RecordPartials(t, ctx, v, true, generation, lastModel, last, positions, cov).Done?
    ensures OutMoved(cov, RecordPartials(t, ctx, v, true, generation, lastModel, last, positions, cov).value.out,
                     UnknownTally(v))
  {
    hide OutMoved, UnknownPartials, UnknownTally, Shifts, PayloadOf, IsCompaction, SettingsRecord, ItemOutcome,
        EventOutcome;
    NoneMoved(positions, cov);
    if Get(v, "payload").JObj? {
      UnknownMoves(t, v, positions, cov);
      var m := UnknownPartials(t, PayloadOf(v), positions, cov).value;
      if m.Some? {
        MovedAnyway(positions, cov, m.value, UnknownTally(v));
      }
    } else {
      WithoutPayload(v);
    }
  }

  lemma WithoutPayload(v: Object)
    requires !Get(v, "payload").JObj?
    ensures UnknownTally(v) == NOTHING
  {
  }

  lemma MovedAnyway(positions: Positions, cov: Coverage, m: Message, t: Tally)
    requires Shifts(Message([], positions, cov), m, t)
    ensures OutMoved(cov, Given(m.details, m.positions, m.cov), t)
    ensures m.details == [] ==> OutMoved(cov, Unparsed(positions, m.cov), t)
  {
    hide Shifts, Moved, DetailsTally, Plus;
    ShiftsMoved(positions, cov, m, t);
  }

  // ---- The record loop -------------------------------------------------------

  lemma StampMoves(t: Tools, v: Object, out: Claude.Outcome, cov: Coverage, own: Tally)
    requires OutMoved(cov, out, own)
    ensures OutMoved(cov, Stamped(t, v, out), Plus(own, Faults(Count(out.details.Some? && BadTime(t.env, v)))))
  {
    hide DetailsTally, StampInvalid, BadTime;
    StampIs(t.env, v);
    if out.details.Some? {
      InvalidMoves(out.cov, StampInvalid(t.env, v));
    }
  }

  function OwnTally(t: Tools, s: VerifiedSession, i: nat, v: Object): Tally
    requires i < |s.records|
  {
    if s.records[i].attribution == UnknownAuthor then UnknownTally(v) else SubjectTally(t, s, i, v)
  }

  lemma OwnMoves(t: Tools, sc: SessionContext, n: nat, v: Object, before: seq<Event>, w: Walk)
    requires ContextFor(t, sc) && n < |sc.session.records| && Following(t, sc, n, before, w)
    requires t.env.decode(sc.session.records[n].raw) == Some(v) && StepOf(t, sc, n, v, w).Done?
    ensures OutMoved(w.progress.cov, StepOf(t, sc, n, v, w).value.out, OwnTally(t, sc.session, n, v))
    ensures StepTells(t, sc, n, v, w, StepOf(t, sc, n, v, w).value)
  {
    var s, p, r := sc.session, w.progress, sc.session.records[n];
    SubjectChecked(t, sc, n);
    hide ContextFor, RecordPartials, UnknownTally, SubjectTally, OutMoved, StepTells, LastIs, ModelIs, Noted, Heard,
        Sayings;
    if r.attribution == UnknownAuthor {
      UnknownStep(t, sc, n, v, before, w);
      UnknownRecord(t, ContextAt(sc, n), v, r.generation, w.lastModel, p.last, p.positions, p.cov);
    } else {
      SubjectStep(t, sc, n, v, before, w);
      SubjectMoves(t, ContextAt(sc, n), s, n, v, w.lastModel, p.last, p.positions, p.cov);
    }
  }

  lemma StepCounts(t: Tools, sc: SessionContext, n: nat, before: seq<Event>, w: Walk)
    requires ContextFor(t, sc) && n < |sc.session.records| && Following(t, sc, n, before, w)
    requires WalkStep(t, sc, w, n).Done?
    ensures Moved(w.progress.cov, WalkStep(t, sc, w, n).value.progress.cov, RecordTally(t, sc.session, n))
  {
    match t.env.decode(sc.session.records[n].raw) {
      case None =>
        hide Following, ContextFor, RecordPartials, CodexReadings.RecordFacts;
      case Some(v) =>
        assert StepOf(t, sc, n, v, w).Done? by {
          hide RecordPartials, Finish, Stamped, Following, ContextFor;
        }
        hide *;
        OwnMoves(t, sc, n, v, before, w);
        ReadStepCounts(t, sc, n, v, w);
    }
  }

  lemma ReadStepCounts(t: Tools, sc: SessionContext, n: nat, v: Object, w: Walk)
    requires n < |sc.session.records| && t.env.decode(sc.session.records[n].raw) == Some(v)
    requires StepOf(t, sc, n, v, w).Done? && StepTells(t, sc, n, v, w, StepOf(t, sc, n, v, w).value)
    requires OutMoved(w.progress.cov, StepOf(t, sc, n, v, w).value.out, OwnTally(t, sc.session, n, v))
    ensures WalkStep(t, sc, w, n).Done?
    ensures Moved(w.progress.cov, WalkStep(t, sc, w, n).value.progress.cov, RecordTally(t, sc.session, n))
  {
    var s, p, step := sc.session, w.progress, StepOf(t, sc, n, v, w).value;
    var out, facts := Stamped(t, v, step.out), CodexReadings.RecordFacts(t, s, n, v);
    var own := Plus(OwnTally(t, s, n, v), Faults(Count(facts.Some? && BadTime(t.env, v))));
    hide Noted, LastIs, ModelIs, RecordPartials, Finish, Stamped, AllRead, Moved, DetailsTally, Plus, Faults, OwnTally,
        CodexReadings.RecordFacts, Sayings, BadTime;
    StampMoves(t, v, step.out, p.cov, OwnTally(t, s, n, v));
    StampKeeps(t, v, step.out);
    FinishCounts(p, sc, n, ChainParent(n), out, step.last);
    JudgedMoves(RecordReader(t, s, n), out, p.cov, WalkStep(t, sc, w, n).value.progress.cov, facts, own);
    TallyIs(t, s, n, v);
  }

  lemma TallyIs(t: Tools, s: VerifiedSession, n: nat, v: Object)
    requires n < |s.records| && t.env.decode(s.records[n].raw) == Some(v)
    ensures var facts := CodexReadings.RecordFacts(t, s, n, v);
            RecordTally(t, s, n)
            == Plus(Plus(OwnTally(t, s, n, v), Faults(Count(facts.Some? && BadTime(t.env, v)))), Judged(facts))
  {
    hide Plus, UnknownTally, SubjectTally, CodexReadings.RecordFacts, BadTime, Faults, Judged;
  }

  lemma {:induction false} WalksCount(t: Tools, sc: SessionContext, w: Walk, n: nat)
    requires ContextFor(t, sc) && n <= |sc.session.records| && WalkUpTo(t, sc, w, n).Done?
    requires w.progress.positions == map[] && w.progress.last.None? && w.lastModel.None?
    ensures Moved(w.progress.cov, WalkUpTo(t, sc, w, n).value.progress.cov, Sum(Tallies(t, sc.session), n))
  {
    hide ContextFor, WalkStep, Moved, RecordTally, Plus, Following;
    if n == 0 {
      NothingMoved(w.progress.cov);
    } else {
      var before := WalkUpTo(t, sc, w, n - 1).value;
      WalksCount(t, sc, w, n - 1);
      WalksFollow(t, sc, w, n - 1);
      StepCounts(t, sc, n - 1, w.progress.events, before);
      MovedThen(w.progress.cov, before.progress.cov, WalkUpTo(t, sc, w, n).value.progress.cov,
                Sum(Tallies(t, sc.session), n - 1), RecordTally(t, sc.session, n - 1));
    }
  }

  // ---- The corpus ------------------------------------------------------------

  function AllTallies(t: Tools, sessions: seq<VerifiedSession>): (r: seq<seq<Tally>>)
    ensures |r| == |sessions| && forall k :: 0 <= k < |r| ==> r[k] == Tallies(t, sessions[k])
  {
    seq(|sessions|, k requires 0 <= k < |sessions| => Tallies(t, sessions[k]))
  }

  lemma {:induction false} SessionsCount(t: Tools, st: Stitched, sessions: seq<VerifiedSession>)
    requires (forall s :: s in sessions ==> SessionChecked(s)) && CodexSessions(t, st, sessions).Done?
    ensures Covers(sessions, AllTallies(t, sessions), st.unresolvedCount, CodexSessions(t, st, sessions).value.cov)
  {
    hide Covers, WalkUpTo, SessionChecked, SubjectObjects, Tallies, Started, Moved;
    if sessions == [] {
      CoversNothing(st.unresolvedCount);
    } else {
      var n := |sessions| - 1;
      var s := sessions[n];
      assert s in sessions && sessions == sessions[..n] + [s];
      SessionsCount(t, st, sessions[..n]);
      var c := CodexSessions(t, st, sessions[..n]).value;
      var sc := CodexContext(t, s, Lookup(st.ids, s.id));
      var start := Walk(Progress(c.events, Started(c.cov, s), map[], None), None);
      WalksCount(t, sc, start, |s.records|);
      assert AllTallies(t, sessions) == AllTallies(t, sessions[..n]) + [Tallies(t, s)];
      CoversMore(sessions[..n], AllTallies(t, sessions[..n]), st.unresolvedCount, c.cov, s, Tallies(t, s),
                 CodexSessions(t, st, sessions).value.cov);
    }
  }

  /** The coverage of the artifact, if there is one, is the sum of what its records add. */
  lemma CodexCounts(t: Tools, sessions: seq<VerifiedSession>, st: Stitched)
    requires Checked(sessions) && CodexNormalized(t, sessions, st).Done?
    ensures Covers(sessions, AllTallies(t, sessions), st.unresolvedCount,
                   CodexNormalized(t, sessions, st).value.manifest.coverage)
  {
    hide SessionChecked;
    SessionsCount(t, st, sessions);
    hide Covers, CodexSessions, EpisodeTable, Rejoin, AllTallies;
  }
}
