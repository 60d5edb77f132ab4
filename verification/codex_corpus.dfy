/** Everything the Codex producer writes passes the same validator. */
module CodexCorpus {
  import opened Records
  import opened LineageGraph
  import opened Episodes
  import opened Corpus
  import opened CorpusBuild
  import opened CorpusLineage
  import opened Transcripts
  import opened Claude
  import opened ClaudeCorpus
  import opened Codex

  // ---- Messages, calls and outputs -------------------------------------------

  lemma MessageBlockRead(t: Tools, ctx: Context, assistant: bool, m: Message, index: nat, b: Json)
    ensures var after := MessageBlock(t, ctx, assistant, m, index, b);
            && (after.Raised? <==> OddBlock(b))
            && (after.Done? ==> Read(ctx, true, m, after.value) && after.value.positions == m.positions)
  {
    hide Read, Emit, Unsupported;
    NoneRead(ctx, m);
    if IsMessageBlock(b) {
      var text := Get(b.fields, "text");
      if text.JStr? {
        var pointer := if assistant && text.s != "" then Some(TextPointer(Some(index), 0, |text.s|, ctx.commitment))
                       else None;
        OneRead(ctx, m, Pasted(t.env.shape(text)));
        OneRead(ctx, m, Turn(if assistant then Agent else Human, t.env.shape(text), pointer));
      }
    }
  }

  lemma {:induction false} MessageBlocksRead(t: Tools, ctx: Context, assistant: bool, m: Message, blocks: seq<Json>)
    ensures var after := MessageBlocks(t, ctx, assistant, m, blocks);
            && (after.Raised? <==> exists k :: 0 <= k < |blocks| && OddBlock(blocks[k]))
            && (after.Done? ==> Read(ctx, true, m, after.value) && after.value.positions == m.positions)
  {
    hide MessageBlock, Read, OddBlock;
    if blocks == [] {
      NothingRead(ctx, m);
    } else {
      var n := |blocks| - 1;
      MessageBlocksRead(t, ctx, assistant, m, blocks[..n]);
      var before, after := MessageBlocks(t, ctx, assistant, m, blocks[..n]),
          MessageBlocks(t, ctx, assistant, m, blocks);
      OddPrefix(blocks);
      if before.Done? {
        MessageBlockRead(t, ctx, assistant, before.value, n, blocks[n]);
        if after.Done? {
          ReadThen(ctx, true, m, before.value, after.value);
        }
      }
    }
  }

  lemma OddPrefix(blocks: seq<Json>)
    requires blocks != []
    ensures var n := |blocks| - 1;
            (exists k :: 0 <= k < |blocks| && OddBlock(blocks[k])) <==>
              (exists k :: 0 <= k < n && OddBlock(blocks[..n][k])) || OddBlock(blocks[n])
  {
    hide OddBlock;
    var n := |blocks| - 1;
    if k :| 0 <= k < n && OddBlock(blocks[k]) {
      assert OddBlock(blocks[..n][k]);
    }
    if k :| 0 <= k < n && OddBlock(blocks[..n][k]) {
      assert OddBlock(blocks[k]);
    }
  }

  /** A message that was read, as an outcome. */
  lemma GivenOk(ctx: Context, assistant: bool, known: Positions, cov: Coverage, m: Message, after: Coverage)
    requires Read(ctx, assistant, Message([], known, cov), m) && Counted(m.cov, after, [])
    ensures OutcomeOk(ctx, known, cov, Given(m.details, m.positions, after)) && NoLifecycle(m.details)
  {
    assert m.details[0..] == m.details;
    assert RecordOk(Draft(ctx, []));
    CountedThen(cov, m.cov, after, m.details, []);
    assert m.details + [] == m.details;
  }

  lemma NotedOk(t: Tools, ctx: Context, call: CallDetails, positions: Positions, cov: Coverage)
    ensures AfterCall(ctx, Message([], positions, cov), CallNoted(t, ctx, call, positions, cov), 0,
                      CallPointer(ctx, call))
    ensures |CallNoted(t, ctx, call, positions, cov).details| == 1
  {
    EmitOne(ctx, Message([], positions, cov), ToolCall(t.env.family(call.name), CallPointer(ctx, call)));
  }

  lemma FoundOk(t: Tools, ctx: Context, call: CallDetails, m: Message, noted: Message)
    requires m.details == [] && |noted.details| == 1 && AfterCall(ctx, m, noted, 0, CallPointer(ctx, call))
    ensures AfterCall(ctx, m, CallFound(t, ctx, call, noted), 0, CallPointer(ctx, call))
  {
    hide AfterCall;
    if CallPointer(ctx, call).Some? {
      var pointer := CallPointer(ctx, call).value;
      var input := t.classified(call.name, call.input);
      ForgeFollowsCall(t.env, ctx, m, noted, call.name, input, pointer);
      var m1 := WithForge(t.env, ctx, noted, 0, call.name, input, pointer);
      ReferenceOk(t, ctx, m, m1, call, input, pointer);
      var m2 := WithReference(t.env, m1, call.name, input, pointer);
      TestOk(t, ctx, m, m2, call, input, pointer);
    }
  }

  lemma ReferenceOk(t: Tools, ctx: Context, m: Message, m1: Message, call: CallDetails, input: Json, pointer: Pointer)
    requires AfterCall(ctx, m, m1, 0, Some(pointer)) && pointer == InputPointer(0, ctx.commitment)
    ensures AfterCall(ctx, m, WithReference(t.env, m1, call.name, input, pointer), 0, Some(pointer))
  {
    if t.env.reference(call.name, input).Some? {
      AfterCallEmits(ctx, m, m1, 0, Some(pointer), Reference(t.env.reference(call.name, input).value, pointer));
    }
  }

  lemma TestOk(t: Tools, ctx: Context, m: Message, m2: Message, call: CallDetails, input: Json, pointer: Pointer)
    requires AfterCall(ctx, m, m2, 0, Some(pointer)) && pointer == InputPointer(0, ctx.commitment)
    ensures AfterCall(ctx, m, WithTest(t.env, m2, call.name, input, pointer), 0, Some(pointer))
  {
    if t.env.test(call.name, input) {
      AfterCallEmits(ctx, m, m2, 0, Some(pointer), Test(pointer));
    }
  }

  lemma CallRead(t: Tools, ctx: Context, call: CallDetails, positions: Positions, cov: Coverage)
    ensures var after := CallPartials(t, ctx, call, positions, cov);
            && (after.Raised? <==> OddInput(t, call.input))
            && (after.Done? ==> Read(ctx, true, Message([], positions, cov), after.value))
  {
    var start := Message([], positions, cov);
    NotedOk(t, ctx, call, positions, cov);
    FoundOk(t, ctx, call, start, CallNoted(t, ctx, call, positions, cov));
    hide CallFound, CallNoted, Counted, RecordOk;
    var found := CallFound(t, ctx, call, CallNoted(t, ctx, call, positions, cov));
    assert Extends(ctx, start, found);
  }

  lemma OutputRead(t: Tools, ctx: Context, payload: Object, positions: Positions, cov: Coverage)
    ensures var after := OutputPartials(t, ctx, payload, positions, cov);
            && (after.Raised? <==> Unhashable(Get(payload, "status")))
            && (after.Done? ==> Read(ctx, false, Message([], positions, cov), after.value))
  {
    var id := Get(payload, "call_id");
    var d := ToolResult(t.env.shape(OutputText(Get(payload, "output"))), RelationOf(id, CallsGiven(ctx, id), positions),
                        ResultOf(Get(payload, "status")));
    hide RecordOk, Counted;
    EmitOne(ctx, Message([], positions, cov), d);
    var after := OutputPartials(t, ctx, payload, positions, cov);
    assert after.Done? ==> after.value.details == [d];
  }

  lemma CountedInvalids(cov: Coverage, a: bool, b: bool, c: bool, d: bool)
    ensures Counted(cov, Invalid(Invalid(Invalid(Invalid(cov, a), b), c), d), [])
    ensures Counted(cov, Invalid(Invalid(cov, a), b), []) && Counted(cov, Invalid(cov, a), [])
  {
  }

  // ---- One record ------------------------------------------------------------

  lemma ItemOk(t: Tools, ctx: Context, v: Object, generation: Option<nat>, positions: Positions, cov: Coverage)
    ensures var out := ItemOutcome(t, ctx, v, generation, positions, cov);
            && (out.Raised? <==> ItemTrips(t, PayloadOf(v)))
            && (out.Done? ==> OutcomeOk(ctx, positions, cov, out.value) && GenerationsIn(DetailsOf(out.value)) == [])
  {
    hide OutcomeOk, Counted, Read, MessageBlocks, CallPartials, OutputPartials, Invalid, DetailsOfCall, OddBlock,
        OddInput;
    var payload := PayloadOf(v);
    CountedInvalid(cov, generation.Some?);
    UnparsedOk(ctx, positions, cov, Invalid(cov, generation.Some?));
    PlainOk(ctx, [], positions, cov, Invalid(cov, generation.Some?));
    if Get(payload, "type") == JStr("message") {
      MessagePartialsOk(t, ctx, payload, generation, positions, cov);
    } else if DetailsOfCall(payload).Some? {
      var call := DetailsOfCall(payload).value;
      CallIsHashable(payload);
      CallRead(t, ctx, call, positions, cov);
      if CallPartials(t, ctx, call, positions, cov).Done? {
        ReadOk(ctx, true, generation, positions, cov, CallPartials(t, ctx, call, positions, cov).value);
      }
    } else if IsOutput(Get(payload, "type")) {
      OutputRead(t, ctx, payload, positions, cov);
      if OutputPartials(t, ctx, payload, positions, cov).Done? {
        ReadOk(ctx, false, generation, positions, cov, OutputPartials(t, ctx, payload, positions, cov).value);
      }
    }
  }

  lemma CallIsHashable(payload: Object)
    requires DetailsOfCall(payload).Some?
    ensures !Unhashable(Get(payload, "type")) && !IsOutput(Get(payload, "type"))
  {
  }

  lemma ReadOk(ctx: Context, assistant: bool, generation: Option<nat>, positions: Positions, cov: Coverage, m: Message)
    requires Read(ctx, assistant, Message([], positions, cov), m)
    ensures var out := Given(m.details, m.positions, Invalid(m.cov, generation.Some?));
            OutcomeOk(ctx, positions, cov, out) && GenerationsIn(DetailsOf(out)) == []
  {
    CountedInvalid(m.cov, generation.Some?);
    GivenOk(ctx, assistant, positions, cov, m, Invalid(m.cov, generation.Some?));
    NoGenerations(m.details);
  }

  lemma MessagePartialsOk(t: Tools, ctx: Context, payload: Object, generation: Option<nat>, positions: Positions,
                          cov: Coverage)
    ensures var m := MessagePartials(t, ctx, payload, positions, cov);
            && (m.Raised? <==> MessageTrips(payload))
            && (m.Done? && m.value.Some? ==>
                  var out := Given(m.value.value.details, m.value.value.positions,
                                   Invalid(m.value.value.cov, generation.Some?));
                  OutcomeOk(ctx, positions, cov, out) && GenerationsIn(DetailsOf(out)) == [])
  {
    hide OutcomeOk, Read, MessageBlocks, Invalid, OddBlock;
    var content := Get(payload, "content");
    if content.JArr? {
      var assistant := Get(payload, "role") == JStr("assistant");
      MessageBlocksRead(t, ctx, assistant, Message([], positions, cov), content.items);
      var m := MessagePartials(t, ctx, payload, positions, cov);
      if m.Done? && m.value.Some? {
        ReadOk(ctx, true, generation, positions, cov, m.value.value);
      }
    }
  }

  lemma EventOk(ctx: Context, v: Object, generation: Option<nat>, positions: Positions, cov: Coverage)
    ensures var out := EventOutcome(v, generation, positions, cov);
            OutcomeOk(ctx, positions, cov, out) && GenerationsIn(DetailsOf(out)) == []
  {
    hide OutcomeOk, Counted, Invalid;
    var (details, bad) := TokenPartial(PayloadOf(v));
    CountedInvalids(cov, bad, generation.Some?, false, false);
    CountedInvalids(cov, generation.Some?, false, false, false);
    UnparsedOk(ctx, positions, cov, Invalid(cov, generation.Some?));
    PlainOk(ctx, [], positions, cov, Invalid(cov, generation.Some?));
    PlainOk(ctx, details, positions, cov, Invalid(Invalid(cov, bad), generation.Some?));
  }

  lemma SettingsPlain(t: Tools, v: Object, s: Settings, lastModel: Option<string>)
    ensures AllPlain(SettingsDetails(t, v, s, lastModel))
  {
    var opening := if Get(v, "type") == JStr("session_meta") then [Lifecycle(SessionStarted, None)] else [];
    var changed := if ModelChanges(t, s, lastModel) then [Lifecycle(ModelChanged, None)] else [];
    assert AllPlain(opening) && AllPlain(SettingsModel(t, s)) && AllPlain(changed);
    hide SettingsModel, ModelChanges, Plain;
  }

  lemma SettingsOk(t: Tools, ctx: Context, v: Object, s: Settings, lastModel: Option<string>, generation: Option<nat>,
                   positions: Positions, cov: Coverage)
    ensures var out := Given(SettingsDetails(t, v, s, lastModel), positions,
                             Invalid(SettingsInvalid(t, s, cov), generation.Some?));
            OutcomeOk(ctx, positions, cov, out) && GenerationsIn(DetailsOf(out)) == []
  {
    CountedInvalids(cov, s.model != JNull && Label(s.model, t.env.modelName).None?,
                    s.provider != JNull && Label(s.provider, t.env.provider).None?,
                    s.effort != JNull && Label(s.effort, t.env.effort).None?, generation.Some?);
    SettingsPlain(t, v, s, lastModel);
    hide OutcomeOk, Counted, Invalid, AllPlain, SettingsDetails;
    PlainOk(ctx, SettingsDetails(t, v, s, lastModel), positions, cov,
            Invalid(SettingsInvalid(t, s, cov), generation.Some?));
  }

  lemma CompactionOk(ctx: Context, v: Object, generation: Option<nat>, last: Option<nat>, positions: Positions,
                     cov: Coverage)
    ensures var raised := NewGeneration(generation, last);
            var out := Given([Lifecycle(ContextBoundary, if raised then generation else None)], positions,
                             Invalid(CompactionSeen(v, cov), generation.Some? && !raised));
            OutcomeOk(ctx, positions, cov, out)
                && Raises(last, GenerationsIn(DetailsOf(out)), if raised then generation else last)
  {
    var raised := NewGeneration(generation, last);
    var out := Given([Lifecycle(ContextBoundary, if raised then generation else None)], positions,
                     Invalid(CompactionSeen(v, cov), generation.Some? && !raised));
    NothingCounted();
    assert Counted(cov, out.cov, []);
    LifecycleAlone(ctx, positions, cov, out);
  }

  lemma {:induction false} UnknownPartsRead(t: Tools, ctx: Context, m: Message, blocks: seq<Json>)
    ensures var after := UnknownParts(t, m, blocks);
            && (after.Raised? <==> exists k :: 0 <= k < |blocks| && OddBlock(blocks[k]))
            && (after.Done? ==> Read(ctx, true, m, after.value) && after.value.positions == m.positions)
  {
    hide UnknownPart, Read, OddBlock;
    if blocks == [] {
      NothingRead(ctx, m);
    } else {
      var n := |blocks| - 1;
      UnknownPartsRead(t, ctx, m, blocks[..n]);
      var before, after := UnknownParts(t, m, blocks[..n]), UnknownParts(t, m, blocks);
      OddPrefix(blocks);
      if before.Done? {
        UnknownPartRead(t, ctx, before.value, blocks[n]);
        if after.Done? {
          ReadThen(ctx, true, m, before.value, after.value);
        }
      }
    }
  }

  lemma UnknownPartRead(t: Tools, ctx: Context, m: Message, b: Json)
    ensures var after := UnknownPart(t, m, b);
            && (after.Raised? <==> OddBlock(b))
            && (after.Done? ==> Read(ctx, true, m, after.value) && after.value.positions == m.positions)
  {
    CandidateRead(t, ctx, m, if b.JObj? then Get(b.fields, "text") else JNull);
    EmitNone(ctx, m);
  }

  lemma CandidateRead(t: Tools, ctx: Context, m: Message, candidate: Json)
    ensures var seen := m.(cov := m.cov.(blocksSeen := m.cov.blocksSeen + 1));
            Read(ctx, true, m, UnknownCandidate(t.env, seen, candidate))
                && UnknownCandidate(t.env, seen, candidate).positions == m.positions
  {
    EmitNone(ctx, m);
    EmitOne(ctx, m, Pasted(t.env.shape(candidate)));
  }

  lemma UnknownStepOk(t: Tools, ctx: Context, payload: Object, positions: Positions, cov: Coverage)
    ensures var m := UnknownPartials(t, payload, positions, cov);
            && (m.Raised? <==> UnknownTrips(payload))
            && (m.Done? && m.value.Some? ==>
                  && m.value.value.positions == positions && NoLifecycle(m.value.value.details)
                  && OutcomeOk(ctx, positions, cov, Given(m.value.value.details, positions, m.value.value.cov))
                  && (m.value.value.details == [] ==>
                      OutcomeOk(ctx, positions, cov, Unparsed(positions, m.value.value.cov))))
  {
    hide OutcomeOk, Read, UnknownParts, UnknownCandidate, NoLifecycle, OddBlock;
    var m := UnknownPartials(t, payload, positions, cov);
    var start := Message([], positions, cov);
    if Get(payload, "type") == JStr("message") && Get(payload, "content").JArr? {
      UnknownPartsRead(t, ctx, start, Get(payload, "content").items);
    } else {
      CandidateRead(t, ctx, start, OutputText(Get(payload, "output")));
    }
    if m.Done? && m.value.Some? {
      ReadAnyway(ctx, positions, cov, m.value.value, None);
    }
  }

  /** A record raises exactly when it trips, and gives otherwise an outcome that may be added. */
  lemma RecordPartialsOk(t: Tools, ctx: Context, v: Object, unknown: bool, generation: Option<nat>,
                         lastModel: Option<string>,
                         last: Option<nat>, positions: Positions, cov: Coverage)
    ensures var step := RecordPartials(t, ctx, v, unknown, generation, lastModel, last, positions, cov);
            && (step.Raised? <==> Trips(t, v, unknown))
            && (step.Done? ==>
                  OutcomeOk(ctx, positions, cov, step.value.out)
                  && Raises(last, GenerationsIn(DetailsOf(step.value.out)), step.value.last))
  {
    hide OutcomeOk, Counted, ItemOutcome, EventOutcome, SettingsDetails, SettingsInvalid, Invalid, CompactionSeen,
      UnknownPartials, NoLifecycle, UnknownTrips, ItemTrips;
    SameCounted(cov);
    UnparsedOk(ctx, positions, cov, cov);
    NoGenerations([]);
    if Get(v, "payload").JObj? {
      if unknown {
        UnknownStepOk(t, ctx, PayloadOf(v), positions, cov);
        var m := UnknownPartials(t, PayloadOf(v), positions, cov);
        if m.Done? && m.value.Some? {
          NoGenerations(m.value.value.details);
        }
      } else if IsCompaction(v) {
        CompactionOk(ctx, v, generation, last, positions, cov);
      } else {
        var settings := SettingsRecord(v);
        if settings.Done? && settings.value.Some? {
          SettingsOk(t, ctx, v, settings.value.value, lastModel, generation, positions, cov);
        } else {
          ItemOk(t, ctx, v, generation, positions, cov);
          EventOk(ctx, v, generation, positions, cov);
        }
      }
    }
  }

  lemma StampedOk(t: Tools, ctx: Context, v: Object, positions: Positions, cov: Coverage, out: Claude.Outcome)
    requires OutcomeOk(ctx, positions, cov, out)
    ensures OutcomeOk(ctx, positions, cov, Stamped(t, v, out)) && DetailsOf(Stamped(t, v, out)) == DetailsOf(out)
  {
    CountedInvalid(out.cov, StampInvalid(t.env, v));
    CountedThen(cov, out.cov, Invalid(out.cov, StampInvalid(t.env, v)), DetailsOf(out), []);
    assert DetailsOf(out) + [] == DetailsOf(out);
  }

  // ---- The loops -------------------------------------------------------------

  lemma WalkKeeps(t: Tools, sc: SessionContext, w: Walk, n: nat, records: nat)
    requires Going(sc, w.progress, n, records) && n < |sc.session.records| && sc.sidechain == None
    ensures var after := WalkStep(t, sc, w, n);
            && (after.Raised? <==> RecordTrips(t, sc.session.records[n]))
            && (after.Done? ==>
                  && Going(sc, after.value.progress, n + 1, records)
                  && SameFrame(w.progress.cov, after.value.progress.cov)
                  && forall e :: e in after.value.progress.events && e !in w.progress.events ==>
                     e.session == sc.session.id)
  {
    hide OutcomeOk, Going, RecordPartials, Raises, Stamped, Finish, Trips;
    var r := sc.session.records[n];
    var p := w.progress;
    SkipKeeps(sc, p, n, records);
    match t.env.decode(r.raw) {
      case None =>
      case Some(v) =>
        var ctx := RecordContext(sc, n);
        RecordPartialsOk(t, ctx, v, r.attribution == UnknownAuthor, r.generation, w.lastModel, p.last, p.positions,
                         p.cov);
        var tried := RecordPartials(t, ctx, v, r.attribution == UnknownAuthor, r.generation, w.lastModel, p.last,
                                    p.positions, p.cov);
        if tried.Done? {
          var step := tried.value;
          StampedOk(t, ctx, v, p.positions, p.cov, step.out);
          FinishKeeps(sc, p, n, records, ChainParent(n), Stamped(t, v, step.out), step.last);
          FinishOwn(sc, p, n, ChainParent(n), Stamped(t, v, step.out), step.last);
        }
    }
  }

  lemma FinishOwn(sc: SessionContext, p: Progress, n: nat, parent: ParentLink, out: Claude.Outcome, next: Option<nat>)
    requires n < |sc.session.records|
    ensures forall e :: e in Finish(p, sc, n, parent, out, next).events && e !in p.events ==> e.session == sc.session.id
  {
  }

  predicate TripsBefore(t: Tools, records: seq<VerifiedRecord>, n: nat)
    requires n <= |records|
  {
    exists k :: 0 <= k < n && RecordTrips(t, records[k])
  }

  lemma {:induction false} WalksKeep(t: Tools, sc: SessionContext, w: Walk, n: nat, records: nat)
    requires Going(sc, w.progress, 0, records) && n <= |sc.session.records| && sc.sidechain == None
    ensures var after := WalkUpTo(t, sc, w, n);
            && (after.Raised? <==> TripsBefore(t, sc.session.records, n))
            && (after.Done? ==>
                  && Going(sc, after.value.progress, n, records)
                  && SameFrame(w.progress.cov, after.value.progress.cov)
                  && forall e :: e in after.value.progress.events && e !in w.progress.events ==>
                     e.session == sc.session.id)
  {
    hide Going, WalkStep, RecordTrips;
    if n > 0 {
      WalksKeep(t, sc, w, n - 1, records);
      var before := WalkUpTo(t, sc, w, n - 1);
      if before.Done? {
        WalkKeeps(t, sc, before.value, n - 1, records);
      }
    }
  }

  lemma CodexSessionKeeps(t: Tools, st: Stitched, sessions: seq<VerifiedSession>, c: Growth, s: VerifiedSession)
    requires Gathered(st, sessions, c) && forall o :: o in sessions ==> o.id < s.id
    ensures var after := CodexSession(t, st, c, s);
            && (after.Raised? <==> TripsBefore(t, s.records, |s.records|))
            && (after.Done? ==> Gathered(st, sessions + [s], after.value))
  {
    hide Gathered, Going, WalkUpTo, GitClosure, TripsBefore;
    var sc := CodexContext(t, s, Lookup(st.ids, s.id));
    var start := Progress(c.events, Started(c.cov, s), map[], None);
    SessionStarts(st, sessions, c, sc);
    WalksKeep(t, sc, Walk(start, None), |s.records|, AdmittedTotal(c.sessions));
    var w := WalkUpTo(t, sc, Walk(start, None), |s.records|);
    if w.Done? {
      SessionGathers(st, sessions, c, sc, w.value.progress, CodexManifest(sc, st));
    }
  }

  lemma AnyTripsMore(t: Tools, sessions: seq<VerifiedSession>)
    requires sessions != []
    ensures var n := |sessions| - 1;
            AnyTrips(t, sessions) <==>
                AnyTrips(t, sessions[..n]) || TripsBefore(t, sessions[n].records, |sessions[n].records|)
  {
    hide RecordTrips;
    var n := |sessions| - 1;
    if AnyTrips(t, sessions[..n]) {
      var j, k :| 0 <= j < n && 0 <= k < |sessions[..n][j].records| && RecordTrips(t, sessions[..n][j].records[k]);
      assert RecordTrips(t, sessions[j].records[k]);
    }
    if AnyTrips(t, sessions) {
      var j, k :| 0 <= j < |sessions| && 0 <= k < |sessions[j].records| && RecordTrips(t, sessions[j].records[k]);
      if j < n {
        assert RecordTrips(t, sessions[..n][j].records[k]);
      }
    }
  }

  lemma {:induction false} CodexSessionsKeep(t: Tools, st: Stitched, sessions: seq<VerifiedSession>)
    requires Checked(sessions)
    ensures var after := CodexSessions(t, st, sessions);
            && (after.Raised? <==> AnyTrips(t, sessions))
            && (after.Done? ==> Gathered(st, sessions, after.value))
  {
    hide Gathered, CodexSession, Checked, SessionChecked, RecordTrips, TripsBefore;
    if sessions == [] {
      NothingGathered(st);
    } else {
      var n := |sessions| - 1;
      assert sessions == sessions[..n] + [sessions[n]];
      CheckedPrefix(sessions);
      AnyTripsMore(t, sessions);
      CodexSessionsKeep(t, st, sessions[..n]);
      var before := CodexSessions(t, st, sessions[..n]);
      if before.Done? {
        CodexSessionKeeps(t, st, sessions[..n], before.value, sessions[n]);
      }
    }
  }

  /** The second producer raises exactly when an admitted record trips, told from the decoded input
      alone. */
  lemma CodexRaisesIff(t: Tools, sessions: seq<VerifiedSession>, st: Stitched)
    requires Checked(sessions)
    ensures CodexNormalized(t, sessions, st).Raised? <==> AnyTrips(t, sessions)
  {
    CodexSessionsKeep(t, st, sessions);
    hide Gathered, CodexSessions, Written, Checked, AnyTrips;
  }

  /** Whatever it writes the same checker accepts. */
  lemma CodexAccepted(t: Tools, sessions: seq<VerifiedSession>, st: Stitched, edges: Edges)
    requires Checked(sessions) && Stitching(Nodes(sessions), st, edges)
    ensures CodexNormalized(t, sessions, st).Done? ==> Accepts(t.env.rules, CodexNormalized(t, sessions, st).value)
  {
    CodexSessionsKeep(t, st, sessions);
    hide Gathered, Accepts, CodexSessions, Written, Stitching, Checked, AnyTrips;
    if CodexSessions(t, st, sessions).Done? {
      WrittenAccepted(t.env, sessions, st, edges, CodexSessions(t, st, sessions).value);
    }
  }

  // ---- A record that trips ---------------------------------------------------

  /** A subject's message whose role is a list. */
  function ListRole(): Object {
    map["type" := JStr("response_item"),
        "payload" := JObj(map["type" := JStr("message"), "role" := JArr([]), "content" := JArr([])])]
  }

  lemma ListRoleTrips(t: Tools)
    ensures Trips(t, ListRole(), false)
  {
    assert Get(PayloadOf(ListRole()), "role") == JArr([]);
  }

  /** One session without a parent and with this one record passes the input check, and nothing is
      written for it. */
  lemma ListRoleRaises(t: Tools, raw: Bytes, commitment: Digest, st: Stitched)
    requires t.env.decode(raw) == Some(ListRole())
    ensures var r := VerifiedRecord(0, raw, commitment, Subject, None);
            var s := VerifiedSession(1, [r], None, None, None, None, None, None, [], None, None);
            Checked([s]) && CodexNormalized(t, [s], st).Raised?
  {
    var r := VerifiedRecord(0, raw, commitment, Subject, None);
    var s := VerifiedSession(1, [r], None, None, None, None, None, None, [], None, None);
    ListRoleTrips(t);
    hide Trips, ListRole, CodexNormalized;
    assert RecordTrips(t, [s][0].records[0]);
    CodexRaisesIff(t, [s], st);
  }
}
