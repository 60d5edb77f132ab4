/** `normalize_claude` as the loops it is, tied to the functions of `Claude`. */
module ClaudeNormalizer {
  import opened Records
  import opened LineageGraph
  import opened Episodes
  import opened Corpus
  import opened CorpusBuild
  import opened CorpusLineage
  import opened Transcripts
  import opened Claude
  import ClaudeCorpus

  /** The block loop and the second pass over the tool calls. */
  method MessageEvents(env: Env, ctx: Context, v: Object, generation: Option<nat>, positions: Positions, cov: Coverage)
    returns (out: Claude.Outcome)
    ensures out == MessageOutcome(env, ctx, v, generation, positions, cov)
  {
    hide BlockStep, Metadata, AllText, Renoted, ToolUseIds, Invalid, StampInvalid;
    var message := Get(v, "message");
    if !IsMessage(v) || !message.JObj? {
      return Unparsed(positions, cov);
    }
    var counters := Invalid(cov, generation.Some?);
    if Get(message.fields, "role") != Get(v, "type") {
      return Unparsed(positions, counters);
    }
    var content := Get(message.fields, "content");
    if !content.JStr? && !content.JArr? {
      return Unparsed(positions, counters);
    }
    var assistant := Get(v, "type") == JStr("assistant");
    counters := Invalid(counters, StampInvalid(env, v));
    var m := Message([], positions, counters);
    if assistant {
      var (metadata, after) := Metadata(env, message.fields, counters);
      m := Message(metadata, positions, after);
    }
    var ids: seq<Json> := [];
    if content.JStr? {
      m := BlockStep(env, ctx, assistant, true, m, None, TextOf(content));
    } else {
      ghost var start := m;
      var blocks := content.items;
      for k := 0 to |blocks|
        invariant m == Blocks(env, ctx, assistant, AllText(blocks), start, blocks[..k])
      {
        assert blocks[..k + 1][..k] == blocks[..k];
        m := BlockStep(env, ctx, assistant, AllText(blocks), m, Some(k), blocks[k]);
      }
      assert blocks[..|blocks|] == blocks;
      ids := ToolUseIds(blocks);
    }
    var noted := NoteCalls(ctx, m.details, ids, m.positions);
    out := Claude.Outcome.Outcome(Some(m.details), env.instant(Get(v, "timestamp")), noted, m.cov);
  }

  /** The second pass, over the details: the n-th tool call belongs to the n-th tool-use block. */
  method NoteCalls(ctx: Context, details: seq<Detail>, ids: seq<Json>, positions: Positions) returns (noted: Positions)
    ensures noted == Renoted(ctx, details, ids, positions)
  {
    noted := positions;
    var calls := 0;
    for k := 0 to |details|
      invariant noted == Renoted(ctx, details[..k], ids, positions)
      invariant calls == CallsIn(details[..k])
    {
      assert details[..k + 1][..k] == details[..k];
      if details[k].ToolCall? {
        if calls < |ids| && ids[calls].JStr? && GivenOut(ctx, ids[calls]) == 1 {
          noted := noted[ids[calls].s := (ctx.record, k)];
        }
        calls := calls + 1;
      }
    }
    assert details[..|details|] == details;
  }

  /** The record loop of one session. */
  method SessionRecords(env: Env, sc: SessionContext, start: Progress) returns (p: Progress)
    requires |sc.objects| == |sc.session.records|
    ensures p == RecordsUpTo(env, sc, start, |sc.session.records|)
  {
    hide SubjectOutcome, MessageOutcome, UnknownOutcome, LifecycleOutcome, Finish, ParentFor;
    p := start;
    for i := 0 to |sc.session.records|
      invariant p == RecordsUpTo(env, sc, start, i)
    {
      var r := sc.session.records[i];
      var value := env.decode(r.raw);
      if value.None? {
        p := p.(cov := p.cov.(recordsMalformed := p.cov.recordsMalformed + 1));
        continue;
      }
      var v := value.value;
      if r.attribution != UnknownAuthor && sc.inconsistent {
        p := p.(cov := p.cov.(recordsUnsupported := p.cov.recordsUnsupported + 1));
        continue;
      }
      if r.attribution == UnknownAuthor {
        p := Finish(p, sc, i, ParentFor(env, sc, i, v), UnknownOutcome(env, v, p.positions, p.cov), p.last);
        continue;
      }
      var ctx := Context(i, r.commitment, sc.session.repo, sc.sidechain, sc.objects);
      var out := MessageEvents(env, ctx, v, r.generation, p.positions, p.cov);
      var last := p.last;
      if out.details.None? {
        var observed: Option<nat> := None;
        var counters := out.cov;
        if RaisesGeneration(v, r.generation, p.last) {
          observed, last := r.generation, r.generation;
        } else if StaleGeneration(v, r.generation, p.last) {
          counters := Invalid(counters, true);
        }
        out := LifecycleOutcome(env, v, r.generation, observed, out.positions, counters);
        if out.details.None? && Get(v, "type") == JStr("queue-operation") {
          out := Claude.Outcome.Outcome(Some([]), None, out.positions, out.cov);
        }
      }
      SubjectStep(env, sc, p, i, v);
      p := Finish(p, sc, i, ParentFor(env, sc, i, v), out, last);
    }
  }

  lemma SubjectStep(env: Env, sc: SessionContext, p: Progress, i: nat, v: Object)
    requires i < |sc.session.records| == |sc.objects| && !sc.inconsistent
    requires sc.session.records[i].attribution != UnknownAuthor && env.decode(sc.session.records[i].raw) == Some(v)
    ensures var r := sc.session.records[i];
            var ctx := Context(i, r.commitment, sc.session.repo, sc.sidechain, sc.objects);
            var first := MessageOutcome(env, ctx, v, r.generation, p.positions, p.cov);
            var raised := RaisesGeneration(v, r.generation, p.last);
            var second := LifecycleOutcome(env, v, r.generation, if raised then r.generation else None, first.positions,
                                           Invalid(first.cov, StaleGeneration(v, r.generation, p.last)));
            var out := if first.details.Some? then first
                       else if second.details.None? && Get(v, "type") == JStr("queue-operation")
                       then Claude.Outcome.Outcome(Some([]), None, second.positions, second.cov) else second;
            RecordStep(env, sc, p, i) ==
            Finish(p, sc, i, ParentFor(env, sc, i, v), out,
                   if first.details.None? && raised then r.generation else p.last)
  {
    hide MessageOutcome, LifecycleOutcome, Finish, ParentFor;
  }

  /** The whole producer.  It refuses exactly a cycle of recorded parents, and whatever it writes the
      validator accepts. */
  method NormalizeClaude(env: Env, sessions: seq<VerifiedSession>)
      returns (r: Option<Artifact>, ghost st: Stitched, ghost edges: Edges)
    requires Checked(sessions)
    ensures r.None? <==> !Acyclic(ParentEdges(Recorded(Nodes(sessions))))
    ensures r.Some? ==> && Stitching(Nodes(sessions), st, edges)
                        && r.value == Normalized(env, sessions, st)
                        && Accepts(env.rules, r.value)
  {
    hide Accepts, Stitching, RecordsUpTo, Acyclic, Rejoin, Checked, Recorded, Nodes, GitClosure;
    CheckedNodes(sessions);
    var stitched: Option<Stitched>;
    stitched, edges := EpisodeMap(Nodes(sessions));
    st := Stitched(map[], {}, map[], 0);
    if stitched.None? {
      return None, st, edges;
    }
    st := stitched.value;
    var answer := stitched.value;
    var events: seq<Event> := [];
    var cov := NO_COVERAGE.(lineageUnresolved := answer.unresolvedCount);
    var manifest: seq<ManifestSession> := [];
    for k := 0 to |sessions|
      invariant Growth(events, cov, manifest) == SessionsUpTo(env, answer, sessions[..k])
    {
      var s := sessions[k];
      assert sessions[..k + 1][..k] == sessions[..k];
      var sc := ContextOf(env, s, Lookup(answer.ids, s.id));
      cov := Started(cov, s);
      manifest := manifest + [ManifestOf(sc, answer)];
      var p := SessionRecords(env, sc, Progress(events, cov, map[], None));
      events, cov := p.events, p.cov;
    }
    assert sessions[..|sessions|] == sessions;
    var joined := JoinForgeOutcomes(events);
    r := Some(Artifact(Manifest(manifest, EpisodeTable(env.rules, manifest, joined), cov, |joined|), joined));
    ClaudeCorpus.ClaudeAccepted(env, sessions, answer, edges);
  }
}
