/** `normalize_codex` as the loops it is; its pointers resolve, and what its input leaves out cannot
influence what it writes.
*/
module CodexNormalizer {
  import opened Records
  import opened LineageGraph
  import opened Episodes
  import opened Corpus
  import opened CorpusBuild
  import opened CorpusLineage
  import opened Transcripts
  import opened Claude
  import opened Codex
  import opened Admission
  import opened AdmissionLaws
  import opened Pointers
  import CodexCorpus
  import Noninterference

  method CodexRecords(t: Tools, sc: SessionContext, start: Progress) returns (r: Tried<Progress>)
    ensures var walked := WalkUpTo(t, sc, Walk(start, None), |sc.session.records|);
            r == if walked.Raised? then Raised else Done(walked.value.progress)
  {
    hide RecordPartials, Finish, Stamped;
    var p := start;
    var lastModel: Option<string> := None;
    for i := 0 to |sc.session.records|
      invariant WalkUpTo(t, sc, Walk(start, None), i) == Done(Walk(p, lastModel))
    {
      var r := sc.session.records[i];
      var value := t.env.decode(r.raw);
      if value.None? {
        p := p.(cov := p.cov.(recordsMalformed := p.cov.recordsMalformed + 1));
        continue;
      }
      var ctx := Context(i, r.commitment, sc.session.repo, None, sc.objects);
      var tried := RecordPartials(t, ctx, value.value, r.attribution == UnknownAuthor, r.generation, lastModel, p.last,
                                  p.positions, p.cov);
      if tried.Raised? {
        WalkStuck(t, sc, Walk(start, None), i + 1);
        return Raised;
      }
      var step := tried.value;
      lastModel := step.lastModel;
      p := Finish(p, sc, i, ChainParent(i), Stamped(t, value.value, step.out), step.last);
    }
    r := Done(p);
  }

  /** What is raised is not caught: the rest of the loop does not happen. */
  lemma {:induction false} WalkStuck(t: Tools, sc: SessionContext, w: Walk, n: nat)
    requires n <= |sc.session.records| && WalkUpTo(t, sc, w, n).Raised?
    ensures WalkUpTo(t, sc, w, |sc.session.records|).Raised?
    decreases |sc.session.records| - n
  {
    hide WalkStep;
    if n < |sc.session.records| {
      WalkStuck(t, sc, w, n + 1);
    }
  }

  lemma {:induction false} SessionsStuck(t: Tools, st: Stitched, sessions: seq<VerifiedSession>, n: nat)
    requires n <= |sessions| && CodexSessions(t, st, sessions[..n]).Raised?
    ensures CodexSessions(t, st, sessions).Raised?
    decreases |sessions| - n
  {
    hide CodexSession;
    if n < |sessions| {
      assert sessions[..n + 1][..n] == sessions[..n];
      SessionsStuck(t, st, sessions, n + 1);
    } else {
      assert sessions[..n] == sessions;
    }
  }

  /** One session more, as the loop reads it. */
  lemma SessionNext(t: Tools, st: Stitched, sessions: seq<VerifiedSession>, k: nat, c: Growth, sc: SessionContext,
                    p: Tried<Progress>)
    requires k < |sessions| && CodexSessions(t, st, sessions[..k]) == Done(c)
    requires sc == CodexContext(t, sessions[k], Lookup(st.ids, sessions[k].id))
    requires var start := Progress(c.events, Started(c.cov, sessions[k]), map[], None);
             var walked := WalkUpTo(t, sc, Walk(start, None), |sc.session.records|);
             p == if walked.Raised? then Raised else Done(walked.value.progress)
    ensures CodexSessions(t, st, sessions[..k + 1])
            == if p.Raised? then Raised
               else Done(Growth(p.value.events, p.value.cov, c.sessions + [CodexManifest(sc, st)]))
  {
    assert sessions[..k + 1][..k] == sessions[..k];
    hide WalkUpTo, Started, SubjectObjects, GitClosure;
  }

  /** The whole producer.  It refuses exactly a cycle of recorded parents and an admitted record that
      trips, and whatever it writes the validator accepts. */
  method NormalizeCodex(t: Tools, sessions: seq<VerifiedSession>)
      returns (r: Option<Artifact>, ghost st: Stitched, ghost edges: Edges)
    requires Checked(sessions)
    ensures r.None? <==> !Acyclic(ParentEdges(Recorded(Nodes(sessions)))) || AnyTrips(t, sessions)
    ensures r.Some? ==> && Stitching(Nodes(sessions), st, edges)
                        && Done(r.value) == CodexNormalized(t, sessions, st)
                        && Accepts(t.env.rules, r.value)
  {
    hide Accepts, Stitching, WalkUpTo, Acyclic, Rejoin, Checked, Recorded, Nodes, GitClosure, AnyTrips, Started,
        CodexSession, CodexManifest, SubjectObjects, EpisodeTable;
    CheckedNodes(sessions);
    var stitched: Option<Stitched>;
    stitched, edges := EpisodeMap(Nodes(sessions));
    st := Stitched(map[], {}, map[], 0);
    if stitched.None? {
      return None, st, edges;
    }
    st := stitched.value;
    var answer := stitched.value;
    CodexCorpus.CodexRaisesIff(t, sessions, answer);
    var events: seq<Event> := [];
    var cov := NO_COVERAGE.(lineageUnresolved := answer.unresolvedCount);
    var manifest: seq<ManifestSession> := [];
    for k := 0 to |sessions|
      invariant Done(Growth(events, cov, manifest)) == CodexSessions(t, answer, sessions[..k])
    {
      var s := sessions[k];
      var sc := CodexContext(t, s, Lookup(answer.ids, s.id));
      ghost var before := Growth(events, cov, manifest);
      cov := Started(cov, s);
      manifest := manifest + [CodexManifest(sc, answer)];
      var p := CodexRecords(t, sc, Progress(events, cov, map[], None));
      SessionNext(t, answer, sessions, k, before, sc, p);
      if p.Raised? {
        SessionsStuck(t, answer, sessions, k + 1);
        return None, st, edges;
      }
      events, cov := p.value.events, p.value.cov;
    }
    assert sessions[..|sessions|] == sessions;
    var joined := JoinForgeOutcomes(events);
    r := Some(Artifact(Manifest(manifest, EpisodeTable(t.env.rules, manifest, joined), cov, |joined|), joined));
    CodexCorpus.CodexAccepted(t, sessions, answer, edges);
  }

  // ---- Pointers --------------------------------------------------------------

  /** The environment as this producer uses it: a call's arguments are decoded before they are
      classified. */
  function Reading(t: Tools): Env {
    t.env.(reference := (name, input) => t.env.reference(name, t.classified(name, input)),
           test := (name, input) => t.env.test(name, t.classified(name, input)),
           forge := (name, input) => t.env.forge(name, t.classified(name, input)))
  }

  function OutputOrigin(k: nat, b: Json): Origin {
    if b.JObj? && Get(b.fields, "type") == JStr("output_text") then TextOrigin(Some(k), Get(b.fields, "text"))
    else Elsewhere
  }

  /** How many events one block of an assistant message gives. */
  function OutputYield(b: Json): nat {
    OneIf(b.JObj? && Get(b.fields, "type") == JStr("output_text") && Get(b.fields, "text").JStr?)
  }

  function OutputOrigins(blocks: seq<Json>): seq<Origin> {
    if blocks == [] then []
    else
      var n := |blocks| - 1;
      OutputOrigins(blocks[..n]) + Repeat(OutputOrigin(n, blocks[n]), OutputYield(blocks[n]))
  }

  function CallOrigin(call: CallDetails): Origin {
    if call.input == JNull then Elsewhere else InputOrigin(0, call.name, call.input)
  }

  /** The origin of each event of an assistant message or a call, in the order of the events. */
  function CodexOrigins(t: Tools, v: Object): seq<Origin> {
    var payload := PayloadOf(v);
    if Get(payload, "type") == JStr("message") then
      (if Get(payload, "role") == JStr("assistant") && Get(payload, "content").JArr?
       then OutputOrigins(Get(payload, "content").items) else [])
    else if DetailsOfCall(payload).Some? then
      var o := CallOrigin(DetailsOfCall(payload).value);
      Repeat(o, 1 + Findings(Reading(t), o))
    else []
  }

  /** As for the first producer: the content pointer of the event at this position of its record resolves to
      all of the content the event was emitted for. */
  predicate CodexResolves(t: Tools, raw: Bytes, commitment: Digest, sub: nat, d: Detail) {
    PointerOf(d).Some? ==>
      && t.env.decode(raw).Some? && sub < |CodexOrigins(t, t.env.decode(raw).value)|
      && Resolves(Reading(t), raw, commitment, d, CodexOrigins(t, t.env.decode(raw).value)[sub])
  }

  ghost predicate AllCodexResolve(t: Tools, raw: Bytes, commitment: Digest, details: seq<Detail>) {
    forall i :: 0 <= i < |details| ==> CodexResolves(t, raw, commitment, i, details[i])
  }

  lemma BareCodex(t: Tools, raw: Bytes, commitment: Digest, details: seq<Detail>)
    requires Bare(details)
    ensures AllCodexResolve(t, raw, commitment, details)
  {
  }

  lemma OutputPoints(t: Tools, ctx: Context, m: Message, k: nat, b: Json, origins: seq<Origin>)
    requires AllPoint(Reading(t), ctx.commitment, true, m.details, origins) && !OddBlock(b)
    ensures AllPoint(Reading(t), ctx.commitment, true, MessageBlock(t, ctx, true, m, k, b).value.details,
                     origins + Repeat(OutputOrigin(k, b), OutputYield(b)))
  {
    var o := OutputOrigin(k, b);
    var seen := m.(cov := m.cov.(blocksSeen := m.cov.blocksSeen + 1));
    RepeatMore(o, 0, origins);
    if OutputYield(b) == 1 {
      var text := Get(b.fields, "text");
      var pointer := if text.s != "" then Some(TextPointer(Some(k), 0, |text.s|, ctx.commitment)) else None;
      PointsThen(Reading(t), ctx.commitment, true, seen, Turn(Agent, t.env.shape(text), pointer), origins, o);
    }
  }

  lemma {:induction false} OutputsPoint(t: Tools, ctx: Context, m: Message, blocks: seq<Json>)
    requires m.details == [] && MessageBlocks(t, ctx, true, m, blocks).Done?
    ensures AllPoint(Reading(t), ctx.commitment, true, MessageBlocks(t, ctx, true, m, blocks).value.details,
                     OutputOrigins(blocks))
  {
    if blocks != [] {
      hide AllPoint, OutputOrigin, OutputYield, Repeat, Reading;
      var n := |blocks| - 1;
      OutputsPoint(t, ctx, m, blocks[..n]);
      OutputPoints(t, ctx, MessageBlocks(t, ctx, true, m, blocks[..n]).value, n, blocks[n], OutputOrigins(blocks[..n]));
    }
  }

  lemma UserBlockBare(t: Tools, ctx: Context, m: Message, k: nat, b: Json)
    requires Bare(m.details) && MessageBlock(t, ctx, false, m, k, b).Done?
    ensures Bare(MessageBlock(t, ctx, false, m, k, b).value.details)
  {
  }

  lemma {:induction false} UserMessageBare(t: Tools, ctx: Context, m: Message, blocks: seq<Json>)
    requires Bare(m.details) && MessageBlocks(t, ctx, false, m, blocks).Done?
    ensures Bare(MessageBlocks(t, ctx, false, m, blocks).value.details)
  {
    hide Bare, MessageBlock;
    if blocks != [] {
      var n := |blocks| - 1;
      UserMessageBare(t, ctx, m, blocks[..n]);
      UserBlockBare(t, ctx, MessageBlocks(t, ctx, false, m, blocks[..n]).value, n, blocks[n]);
    }
  }

  lemma CallInputPoints(t: Tools, ctx: Context, call: CallDetails, positions: Positions, cov: Coverage)
    requires CallPartials(t, ctx, call, positions, cov).Done?
    ensures var o := CallOrigin(call);
            AllPoint(Reading(t), ctx.commitment, true, CallPartials(t, ctx, call, positions, cov).value.details,
                     Repeat(o, 1 + Findings(Reading(t), o)))
  {
    var o, c, env := CallOrigin(call), ctx.commitment, Reading(t);
    var start := Message([], positions, cov.(blocksSeen := cov.blocksSeen + 1));
    var noted := CallNoted(t, ctx, call, positions, cov);
    PointsThen(env, c, true, start, ToolCall(t.env.family(call.name), CallPointer(ctx, call)), [], o);
    assert [] + [o] == Repeat(o, 1);
    if o.InputOrigin? {
      FindingsPoint(env, ctx, true, noted, 0, Repeat(o, 1), o);
      SameFindings(t, ctx, call, noted);
      hide AllPoint;
      RepeatAdds(o, [], 1, Findings(env, o));
      assert [] + Repeat(o, 1) == Repeat(o, 1)
             && [] + Repeat(o, 1 + Findings(env, o)) == Repeat(o, 1 + Findings(env, o));
    }
  }

  lemma SameFindings(t: Tools, ctx: Context, call: CallDetails, m: Message)
    requires call.input != JNull
    ensures var env, p := Reading(t), InputPointer(0, ctx.commitment);
            CallFound(t, ctx, call, m) ==
            WithTest(env, WithReference(env, WithForge(env, ctx, m, 0, call.name, call.input, p), call.name,
                                        call.input, p),
                     call.name, call.input, p)
  {
  }

  /** A pointer that covers an origin of the record resolves to that origin. */
  lemma OriginResolves(t: Tools, v: Object, raw: Bytes, commitment: Digest, d: Detail, i: nat)
    requires t.env.decode(raw) == Some(v) && Get(v, "type") == JStr("response_item") && Get(v, "payload").JObj?
    requires i < |CodexOrigins(t, v)| && Points(Reading(t), commitment, true, d, CodexOrigins(t, v)[i])
    ensures Resolves(Reading(t), raw, commitment, d, CodexOrigins(t, v)[i])
  {
    var payload := PayloadOf(v);
    if PointerOf(d).Some? {
      var p, o := PointerOf(d).value, CodexOrigins(t, v)[i];
      assert PointerValue(Reading(t), p, raw) == CodexValue(v, p);
      if Get(payload, "type") == JStr("message") {
        var content := Get(payload, "content");
        OutputsAreBlocks(content.items, i);
        var k: nat :| k < |content.items| && o == OutputOrigin(k, content.items[k]);
        assert BlockFields(content, k) == content.items[k].fields;
        WholeText(o.text, p);
      } else {
        assert o == CallOrigin(DetailsOfCall(payload).value);
      }
    }
  }

  lemma {:induction false} OutputsAreBlocks(blocks: seq<Json>, i: nat)
    requires i < |OutputOrigins(blocks)|
    ensures exists k: nat :: k < |blocks| && OutputOrigins(blocks)[i] == OutputOrigin(k, blocks[k])
  {
    var n := |blocks| - 1;
    if i < |OutputOrigins(blocks[..n])| {
      OutputsAreBlocks(blocks[..n], i);
      var k: nat :| k < n && OutputOrigins(blocks[..n])[i] == OutputOrigin(k, blocks[..n][k]);
      assert blocks[k] == blocks[..n][k];
    } else {
      assert OutputOrigins(blocks)[i] == OutputOrigin(n, blocks[n]);
    }
  }

  /** An assistant message or a call gives its events in step with the origins of the record. */
  lemma ItemPoints(t: Tools, ctx: Context, v: Object, generation: Option<nat>, positions: Positions, cov: Coverage)
    requires ItemOutcome(t, ctx, v, generation, positions, cov).Done?
    ensures var out := ItemOutcome(t, ctx, v, generation, positions, cov).value;
            out.details.Some? ==>
              Bare(out.details.value) || AllPoint(Reading(t), ctx.commitment, true, out.details.value,
                                                  CodexOrigins(t, v))
  {
    hide AllPoint, Bare, MessageBlocks, CallPartials, DetailsOfCall, OutputOrigins, Repeat;
    var payload := PayloadOf(v);
    var out := ItemOutcome(t, ctx, v, generation, positions, cov).value;
    OutputBare(t, ctx, payload, positions, cov);
    NothingBare();
    if out.details.Some? {
      if Get(payload, "type") == JStr("message") {
        var start := Message([], positions, cov);
        if Get(payload, "role") == JStr("assistant") {
          OutputsPoint(t, ctx, start, Get(payload, "content").items);
        } else {
          UserMessageBare(t, ctx, start, Get(payload, "content").items);
        }
      } else if DetailsOfCall(payload).Some? {
        CallInputPoints(t, ctx, DetailsOfCall(payload).value, positions, cov);
      }
    }
  }

  lemma OutputBare(t: Tools, ctx: Context, payload: Object, positions: Positions, cov: Coverage)
    ensures var m := OutputPartials(t, ctx, payload, positions, cov); m.Done? ==> Bare(m.value.details)
  {
  }

  lemma ItemResolves(t: Tools, ctx: Context, v: Object, raw: Bytes, generation: Option<nat>, positions: Positions,
                     cov: Coverage)
    requires t.env.decode(raw) == Some(v) && Get(v, "type") == JStr("response_item") && Get(v, "payload").JObj?
    requires ItemOutcome(t, ctx, v, generation, positions, cov).Done?
    ensures var out := ItemOutcome(t, ctx, v, generation, positions, cov).value;
            out.details.Some? ==> AllCodexResolve(t, raw, ctx.commitment, out.details.value)
  {
    ItemPoints(t, ctx, v, generation, positions, cov);
    hide ItemOutcome, Resolves, CodexOrigins, Points, Bare;
    var out := ItemOutcome(t, ctx, v, generation, positions, cov).value;
    if out.details.Some? {
      var details := out.details.value;
      if Bare(details) {
        BareCodex(t, raw, ctx.commitment, details);
      } else {
        forall i | 0 <= i < |details|
          ensures CodexResolves(t, raw, ctx.commitment, i, details[i])
        {
          OriginResolves(t, v, raw, ctx.commitment, details[i], i);
        }
      }
    }
  }

  lemma {:induction false} UnknownPartsBare(t: Tools, m: Message, blocks: seq<Json>)
    requires Bare(m.details) && UnknownParts(t, m, blocks).Done?
    ensures Bare(UnknownParts(t, m, blocks).value.details)
  {
    if blocks != [] {
      UnknownPartsBare(t, m, blocks[..|blocks| - 1]);
    }
  }

  lemma SettingsBare(t: Tools, v: Object, s: Settings, lastModel: Option<string>)
    ensures Bare(SettingsDetails(t, v, s, lastModel))
  {
  }

  lemma EventBare(v: Object, generation: Option<nat>, positions: Positions, cov: Coverage)
    ensures var out := EventOutcome(v, generation, positions, cov); out.details.Some? ==> Bare(out.details.value)
  {
  }

  lemma UnknownPartialsBare(t: Tools, payload: Object, positions: Positions, cov: Coverage)
    ensures var m := UnknownPartials(t, payload, positions, cov); m.Done? && m.value.Some? ==>
            Bare(m.value.value.details)
  {
    hide UnknownParts;
    var content := Get(payload, "content");
    if Get(payload, "type") == JStr("message") && content.JArr?
        && UnknownParts(t, Message([], positions, cov), content.items).Done? {
      UnknownPartsBare(t, Message([], positions, cov), Get(payload, "content").items);
    }
  }

  /** Every pointer a record gives resolves in it to exactly the text or the input of the block or call
      its event was emitted for. */
  lemma RecordResolves(t: Tools, ctx: Context, v: Object, raw: Bytes, unknown: bool, generation: Option<nat>,
                       lastModel: Option<string>,
                       last: Option<nat>, positions: Positions, cov: Coverage)
    requires t.env.decode(raw) == Some(v)
    requires RecordPartials(t, ctx, v, unknown, generation, lastModel, last, positions, cov).Done?
    ensures var out := RecordPartials(t, ctx, v, unknown, generation, lastModel, last, positions, cov).value.out;
            out.details.Some? ==> AllCodexResolve(t, raw, ctx.commitment, out.details.value)
  {
    hide CodexResolves, ItemOutcome, EventOutcome, UnknownPartials, AllCodexResolve, SettingsDetails, SettingsInvalid,
      Invalid, CompactionSeen, NewGeneration, Bare;
    var out := RecordPartials(t, ctx, v, unknown, generation, lastModel, last, positions, cov).value.out;
    if out.details.Some? {
      if unknown {
        UnknownPartialsBare(t, PayloadOf(v), positions, cov);
        BareCodex(t, raw, ctx.commitment, out.details.value);
      } else if IsCompaction(v) {
        BoundaryBare(if NewGeneration(generation, last) then generation else None);
        BareCodex(t, raw, ctx.commitment, out.details.value);
      } else if SettingsRecord(v).value.Some? {
        SettingsBare(t, v, SettingsRecord(v).value.value, lastModel);
        BareCodex(t, raw, ctx.commitment, out.details.value);
      } else if Get(v, "type") == JStr("response_item") {
        ItemResolves(t, ctx, v, raw, generation, positions, cov);
      } else {
        EventBare(v, generation, positions, cov);
        BareCodex(t, raw, ctx.commitment, out.details.value);
      }
    }
  }

  lemma BoundaryBare(generation: Option<nat>)
    ensures Bare([Lifecycle(ContextBoundary, generation)])
  {
  }

  ghost predicate CodexEventResolves(t: Tools, sessions: seq<VerifiedSession>, e: Event) {
    exists s :: s in sessions && s.id == e.session && e.record < |s.records|
                && CodexResolves(t, s.records[e.record].raw, s.records[e.record].commitment, e.sub, e.detail)
  }

  ghost predicate CodexAdded(t: Tools, s: VerifiedSession, before: seq<Event>, after: seq<Event>) {
    forall e :: e in after && e !in before ==>
      && e.session == s.id && e.record < |s.records|
      && CodexResolves(t, s.records[e.record].raw, s.records[e.record].commitment, e.sub, e.detail)
  }

  lemma WalkAdds(t: Tools, sc: SessionContext, w: Walk, i: nat)
    requires i < |sc.session.records| && WalkStep(t, sc, w, i).Done?
    ensures CodexAdded(t, sc.session, w.progress.events, WalkStep(t, sc, w, i).value.progress.events)
  {
    hide RecordPartials, CodexResolves;
    var r := sc.session.records[i];
    if t.env.decode(r.raw).Some? {
      var v := t.env.decode(r.raw).value;
      var p := w.progress;
      var ctx := Context(i, r.commitment, sc.session.repo, None, sc.objects);
      RecordResolves(t, ctx, v, r.raw, r.attribution == UnknownAuthor, r.generation, w.lastModel, p.last, p.positions,
                     p.cov);
      var step := RecordPartials(t, ctx, v, r.attribution == UnknownAuthor, r.generation, w.lastModel, p.last,
                                 p.positions, p.cov).value;
      var out := Stamped(t, v, step.out);
      if out.details.Some? {
        RecordEventsHold(sc.session.id, sc.episode,
                         Parsed(i, ChainParent(i), out.observedAt, r.commitment, out.details.value));
      }
    }
  }

  lemma {:induction false} WalksAdd(t: Tools, sc: SessionContext, w: Walk, n: nat)
    requires n <= |sc.session.records| && WalkUpTo(t, sc, w, n).Done?
    ensures CodexAdded(t, sc.session, w.progress.events, WalkUpTo(t, sc, w, n).value.progress.events)
  {
    hide WalkStep, CodexResolves;
    if n > 0 {
      WalksAdd(t, sc, w, n - 1);
      WalkAdds(t, sc, WalkUpTo(t, sc, w, n - 1).value, n - 1);
    }
  }

  lemma {:induction false} CodexSessionsResolve(t: Tools, st: Stitched, sessions: seq<VerifiedSession>)
    requires CodexSessions(t, st, sessions).Done?
    ensures forall e :: e in CodexSessions(t, st, sessions).value.events ==> CodexEventResolves(t, sessions, e)
  {
    if sessions != [] {
      var n := |sessions| - 1;
      CodexSessionsResolve(t, st, sessions[..n]);
      var s := sessions[n];
      var c := CodexSessions(t, st, sessions[..n]).value;
      var sc := CodexContext(t, s, Lookup(st.ids, s.id));
      WalksAdd(t, sc, Walk(Progress(c.events, Started(c.cov, s), map[], None), None), |s.records|);
      hide WalkUpTo, CodexResolves;
      assert sessions == sessions[..n] + [s];
      forall e | e in CodexSessions(t, st, sessions).value.events
        ensures CodexEventResolves(t, sessions, e)
      {
        if e in c.events {
          var o :| o in sessions[..n] && o.id == e.session && e.record < |o.records|
                   && CodexResolves(t, o.records[e.record].raw, o.records[e.record].commitment, e.sub, e.detail);
          assert o in sessions;
        } else {
          assert s in sessions;
        }
      }
    }
  }

  /** Every content pointer of the second producer resolves just so. */
  lemma EveryCodexPointerResolves(t: Tools, sessions: seq<VerifiedSession>, st: Stitched)
    requires CodexNormalized(t, sessions, st).Done?
    ensures forall e :: e in CodexNormalized(t, sessions, st).value.events ==> CodexEventResolves(t, sessions, e)
  {
    CodexSessionsResolve(t, st, sessions);
    var events := CodexSessions(t, st, sessions).value.events;
    RejoinAlike(events);
    hide CodexSessions, Rejoin;
    forall e | e in CodexNormalized(t, sessions, st).value.events
      ensures CodexEventResolves(t, sessions, e)
    {
      var o :| o in events && e == Rejoined(events, o);
      CodexRejoinedResolves(t, sessions, events, o);
    }
  }

  lemma CodexRejoinedResolves(t: Tools, sessions: seq<VerifiedSession>, events: seq<Event>, o: Event)
    requires CodexEventResolves(t, sessions, o)
    ensures CodexEventResolves(t, sessions, Rejoined(events, o))
  {
    hide CodexOrigins;
    var s :| s in sessions && s.id == o.session && o.record < |s.records|
             && CodexResolves(t, s.records[o.record].raw, s.records[o.record].commitment, o.sub, o.detail);
    var e := Rejoined(events, o);
    assert CodexResolves(t, s.records[o.record].raw, s.records[o.record].commitment, e.sub, e.detail);
  }

  // ---- Noninterference -------------------------------------------------------

  lemma WalkUnmoved(t: Tools, a: SessionContext, b: SessionContext, w: Walk, i: nat)
    requires b == a.(session := Renumbered(a.session)) && i < |a.session.records|
    ensures WalkStep(t, a, w, i) == WalkStep(t, b, w, i)
  {
    hide RecordPartials, Stamped;
  }

  lemma {:induction false} WalksUnmoved(t: Tools, a: SessionContext, b: SessionContext, w: Walk, n: nat)
    requires b == a.(session := Renumbered(a.session)) && n <= |a.session.records|
    ensures WalkUpTo(t, a, w, n) == WalkUpTo(t, b, w, n)
  {
    hide WalkStep;
    if n > 0 {
      WalksUnmoved(t, a, b, w, n - 1);
      if WalkUpTo(t, a, w, n - 1).Done? {
        WalkUnmoved(t, a, b, WalkUpTo(t, a, w, n - 1).value, n - 1);
      }
    }
  }

  lemma CodexSessionUnmoved(t: Tools, st: Stitched, c: Growth, s: VerifiedSession)
    ensures CodexSession(t, st, c, Renumbered(s)) == CodexSession(t, st, c, s)
  {
    hide WalkUpTo, GitClosure, AmbiguousIn, CodexContext, CodexManifest, Renumbered;
    var episode := Lookup(st.ids, s.id);
    ContextsUnmoved(t, s, episode, st);
    var a, b := CodexContext(t, s, episode), CodexContext(t, Renumbered(s), episode);
    WalksUnmoved(t, a, b, Walk(Progress(c.events, Started(c.cov, s), map[], None), None), |s.records|);
  }

  lemma ContextsUnmoved(t: Tools, s: VerifiedSession, episode: Option<EpisodeId>, st: Stitched)
    ensures var a, b := CodexContext(t, s, episode), CodexContext(t, Renumbered(s), episode);
            && a.session == s && b == a.(session := Renumbered(s)) && CodexManifest(b, st) == CodexManifest(a, st)
    ensures Renumbered(s).id == s.id && |Renumbered(s).records| == |s.records|
    ensures AmbiguousIn(Renumbered(s).records) == AmbiguousIn(s.records)
  {
    assert SubjectObjects(t.env, Renumbered(s).records) == SubjectObjects(t.env, s.records);
    Noninterference.AmbiguousUnmoved(s.records);
    Noninterference.ClosureUnmoved(s);
    hide GitClosure, AmbiguousIn, SubjectObjects;
  }

  lemma {:induction false} CodexSessionsUnmoved(t: Tools, st: Stitched, sessions: seq<VerifiedSession>)
    ensures CodexSessions(t, st, AllRenumbered(sessions)) == CodexSessions(t, st, sessions)
  {
    hide CodexSession, Renumbered;
    if sessions != [] {
      var n := |sessions| - 1;
      assert AllRenumbered(sessions)[..n] == AllRenumbered(sessions[..n]);
      CodexSessionsUnmoved(t, st, sessions[..n]);
      if CodexSessions(t, st, sessions[..n]).Done? {
        CodexSessionUnmoved(t, st, CodexSessions(t, st, sessions[..n]).value, sessions[n]);
      }
    }
  }

  lemma TripsUnmoved(t: Tools, sessions: seq<VerifiedSession>)
    ensures AnyTrips(t, AllRenumbered(sessions)) <==> AnyTrips(t, sessions)
  {
    hide Trips;
    var moved := AllRenumbered(sessions);
    if AnyTrips(t, sessions) {
      var j, k :| 0 <= j < |sessions| && 0 <= k < |sessions[j].records| && RecordTrips(t, sessions[j].records[k]);
      assert RecordTrips(t, moved[j].records[k]);
    }
    if AnyTrips(t, moved) {
      var j, k :| 0 <= j < |moved| && 0 <= k < |moved[j].records| && RecordTrips(t, moved[j].records[k]);
      assert RecordTrips(t, sessions[j].records[k]);
    }
  }

  /** Why checked sessions are not written. */
  ghost predicate CodexRefuses(t: Tools, checked: seq<VerifiedSession>) {
    !Acyclic(ParentEdges(Recorded(Nodes(checked)))) || AnyTrips(t, checked)
  }

  ghost predicate CodexProduces(t: Tools, raw: seq<RawSession>, r: Option<Artifact>) {
    match CheckInput(raw)
    case None => r == None
    case Some(checked) =>
      if CodexRefuses(t, checked) then r == None
      else r.Some? && exists st, edges ::
          Stitching(Nodes(checked), st, edges) && Done(r.value) == CodexNormalized(t, checked, st)
  }

  method NormalizeCodexInput(t: Tools, raw: seq<RawSession>) returns (r: Option<Artifact>)
    ensures CodexProduces(t, raw, r)
    ensures r.None? <==> CheckInput(raw).None? || CodexRefuses(t, CheckInput(raw).value)
    ensures r.Some? ==> Accepts(t.env.rules, r.value)
  {
    hide CheckInput, Stitching, CodexNormalized, Accepts, Acyclic, Checked;
    var checked := CheckInputSessions(raw);
    if checked.None? {
      return None;
    }
    CheckedInput(raw);
    ghost var st, edges;
    r, st, edges := NormalizeCodex(t, checked.value);
  }

  /** What the filter leaves out, the order of sessions and the numbering of records do not reach the
      second producer's artifact either. */
  lemma CodexNoninterference(t: Tools, a: seq<RawSession>, b: seq<RawSession>, x: Option<Artifact>, y: Option<Artifact>)
    requires SameAdmission(a, b) && CodexProduces(t, a, x) && CodexProduces(t, b, y)
    ensures x == y
  {
    hide SameAdmission, CheckInput, Stitching, Acyclic, AllRenumbered, Checked, CodexSessions, Written, Accepted,
        AnyTrips;
    SameAnswer(a, b);
    if CheckInput(a).Some? {
      SameViews(a, b);
      CheckedInput(a);
      CheckedInput(b);
      var v, w := CheckInput(a).value, CheckInput(b).value;
      RenumberedChecked(v);
      RenumberedChecked(w);
      CheckedNodes(v);
      TripsUnmoved(t, v);
      TripsUnmoved(t, w);
      assert CodexRefuses(t, v) <==> CodexRefuses(t, w);
      if !CodexRefuses(t, v) {
        var s, e :| Stitching(Nodes(v), s, e) && Done(x.value) == CodexNormalized(t, v, s);
        var u, f :| Stitching(Nodes(w), u, f) && Done(y.value) == CodexNormalized(t, w, u);
        Noninterference.StitchingUnique(Nodes(v), s, e, u, f);
        CodexSessionsUnmoved(t, s, v);
        CodexSessionsUnmoved(t, s, w);
      }
    }
  }

  /** Nor does a session that is known not to be the subject's, put anywhere among others. */
  lemma ExcludedSessionUnwritten(t: Tools, a: seq<RawSession>, s: RawSession, b: seq<RawSession>, r: Option<Artifact>)
    requires Excluded(s) && a + b != []
    ensures CodexProduces(t, a + [s] + b, r) <==> CodexProduces(t, a + b, r)
  {
    ExcludedSessionUnread(a, s, b);
    hide Excluded, CheckInput, CodexRefuses, Stitching, CodexNormalized;
  }

  lemma ExcludedRecordUnwritten(t: Tools, a: seq<RawSession>, s: RawSession, x: seq<RawRecord>, o: RawRecord,
                                y: seq<RawRecord>, b: seq<RawSession>, r: Option<Artifact>)
    requires s.records == x + y && o.attribution == NonSubject
    ensures CodexProduces(t, a + [s.(records := x + [o] + y)] + b, r) <==> CodexProduces(t, a + [s] + b, r)
  {
    ExcludedRecordUnread(a, s, x, o, y, b);
    hide CheckInput, CodexRefuses, Stitching, CodexNormalized;
  }
}
