/** What the events of a record must state of it, whichever producer derived them. */
module Readings {
  import opened Records
  import opened Episodes
  import opened Corpus
  import opened CorpusBuild
  import opened CorpusLineage
  import opened Transcripts
  import opened Claude

  /** One thing a record gives rise to, with the JSON it comes from.  `pointed` says whether the event
      refers back to the content. */
  datatype Fact =
    | SaidBy(author: Author, text: Json, pointed: bool)
    | PastedText(text: Json)
    | Calls(name: Json, id: Json, pointed: bool)
    | ForgeFound(name: Json, input: Json)
    | ReferenceFound(name: Json, input: Json)
    | TestFound(name: Json, input: Json)
    | ClaudeResult(block: Object)
    | CodexResult(payload: Object)
    | ModelNamed(model: Json, provider: Json, effort: Json)
    | TokensCounted(usage: Object, renames: map<string, string>)
    | Marks(marker: Marker, generation: Option<nat>)

  /** All a record says: its facts in order, its time and its parent. */
  datatype Saying = Saying(facts: seq<Fact>, at: Option<int>, parent: ParentLink)

  /** Against what a record is read: `relation` gives the call a result with this id belongs to. */
  datatype Reader = Reader(env: Env, repo: Option<nat>, relation: Json -> ToolRelation)

  // ---- A detail and its fact -------------------------------------------------

  /** The label is the string itself, when it is one that is allowed. */
  predicate LabelRead(v: Json, allowed: string -> bool, stated: Option<string>) {
    && (stated.Some? <==> v.JStr? && allowed(v.s))
    && (stated.Some? ==> v.JStr? && stated.value == v.s)
  }

  /** The counts are those of the named members that are present, under their new names. */
  ghost predicate TokensRead(usage: Object, renames: map<string, string>, counts: map<string, nat>) {
    && (forall key :: key in renames && key in usage ==>
          usage[key].JInt? && renames[key] in counts && usage[key].n == counts[renames[key]])
    && (forall name :: name in counts ==> exists key :: key in renames && key in usage && renames[key] == name)
  }

  /** A string output, or the string content of an object, or nothing. */
  predicate OutputRead(output: Json, text: Json) {
    && (output.JStr? ==> text == output)
    && (output.JObj? && Get(output.fields, "content").JStr? ==> text == Get(output.fields, "content"))
    && (!output.JStr? && !(output.JObj? && Get(output.fields, "content").JStr?) ==> text == JNull)
  }

  /** The detail states the fact. */
  ghost predicate Reads(r: Reader, d: Detail, f: Fact) {
    match f
    case SaidBy(author, text, pointed) =>
      d.Turn? && d.author == author && d.shape == r.env.shape(text) && d.text.Some? == pointed
    case PastedText(text) => d.Pasted? && d.shape == r.env.shape(text)
    case Calls(name, _, pointed) => d.ToolCall? && d.family == r.env.family(name) && d.input.Some? == pointed
    case ForgeFound(name, input) => d.Forge? && r.env.forge(name, input) == Some(d.action) && d.repo == r.repo
    case ReferenceFound(name, input) => d.Reference? && r.env.reference(name, input) == Some(d.kind)
    case TestFound(name, input) => d.Test? && r.env.test(name, input)
    case ClaudeResult(b) =>
      && d.ToolResult? && d.shape == r.env.shape(Get(b, "content")) && d.relation == r.relation(Get(b, "tool_use_id"))
      && (d.status.Failed? <==> Get(b, "is_error") == JBool(true))
      && (d.status.Success? <==> Get(b, "is_error") == JBool(false))
    case CodexResult(p) =>
      && d.ToolResult? && (exists text :: OutputRead(Get(p, "output"), text) && d.shape == r.env.shape(text))
      && d.relation == r.relation(Get(p, "call_id"))
      && (d.status.Success? <==> Get(p, "status") in [JStr("completed"), JStr("success")])
      && (d.status.Failed? <==> Get(p, "status") in [JStr("failed"), JStr("error"), JStr("incomplete")])
    case ModelNamed(model, provider, effort) =>
      && d.Model? && LabelRead(model, r.env.modelName, d.model)
      && LabelRead(provider, r.env.provider, d.provider) && LabelRead(effort, r.env.effort, d.effort)
    case TokensCounted(usage, renames) => d.Tokens? && TokensRead(usage, renames, d.usage)
    case Marks(marker, generation) => d.Lifecycle? && d.marker == marker && d.generation == generation
  }

  ghost predicate AllRead(r: Reader, details: seq<Detail>, facts: seq<Fact>) {
    |details| == |facts| && forall k :: 0 <= k < |details| ==> Reads(r, details[k], facts[k])
  }

  lemma ReadConcat(r: Reader, d: seq<Detail>, f: seq<Fact>, e: seq<Detail>, g: seq<Fact>)
    requires AllRead(r, d, f) && AllRead(r, e, g)
    ensures AllRead(r, d + e, f + g)
  {
    hide Reads;
  }

  /** A record of the subject that decodes. */
  function Spoken(env: Env, r: VerifiedRecord): Option<Object> {
    if r.attribution == Subject then env.decode(r.raw) else None
  }

  // ---- Facts both producers find ---------------------------------------------

  /** What a call's input gives away: a forge action, a reference, a test, in this order. */
  function FoundIn(env: Env, name: Json, input: Json): seq<Fact> {
    (if env.forge(name, input).Some? then [ForgeFound(name, input)] else [])
    + (if env.reference(name, input).Some? then [ReferenceFound(name, input)] else [])
    + (if env.test(name, input) then [TestFound(name, input)] else [])
  }

  predicate Allowed(v: Json, allowed: string -> bool) {
    v.JStr? && allowed(v.s)
  }

  /** A label is stated only when one of the three is allowed. */
  function NamedModel(env: Env, model: Json, provider: Json, effort: Json): seq<Fact> {
    if Allowed(model, env.modelName) || Allowed(provider, env.provider) || Allowed(effort, env.effort)
    then [ModelNamed(model, provider, effort)] else []
  }

  predicate SomeCounted(usage: Object, renames: map<string, string>) {
    exists key :: key in renames && key in usage
  }

  predicate AllCounts(usage: Object, renames: map<string, string>) {
    forall key :: key in renames && key in usage ==> usage[key].JInt? && usage[key].n >= 0
  }

  /** Counts are stated only when some are there and all that are there are counts. */
  function CountedTokens(usage: Json, renames: map<string, string>): seq<Fact> {
    if usage.JObj? && SomeCounted(usage.fields, renames) && AllCounts(usage.fields, renames)
    then [TokensCounted(usage.fields, renames)] else []
  }

  // ---- One more detail -------------------------------------------------------

  /** What a step adds to the details reads these facts. */
  ghost predicate Adds(r: Reader, before: seq<Detail>, after: seq<Detail>, facts: seq<Fact>) {
    before <= after && AllRead(r, after[|before|..], facts)
  }

  lemma AddsNothing(r: Reader, details: seq<Detail>)
    ensures Adds(r, details, details, [])
  {
  }

  lemma AddsOne(r: Reader, m: Message, d: Detail, f: Fact)
    requires Reads(r, d, f)
    ensures Adds(r, m.details, Emit(m, d).details, [f])
  {
    assert Emit(m, d).details[|m.details|..] == [d];
  }

  lemma AddsThen(r: Reader, a: seq<Detail>, b: seq<Detail>, c: seq<Detail>, f: seq<Fact>, g: seq<Fact>)
    requires Adds(r, a, b, f) && Adds(r, b, c, g)
    ensures Adds(r, a, c, f + g)
  {
    ReadConcat(r, b[|a|..], f, c[|b|..], g);
    assert c[|a|..] == b[|a|..] + c[|b|..];
    hide Reads;
  }

  lemma AddsAll(r: Reader, details: seq<Detail>, facts: seq<Fact>)
    requires Adds(r, [], details, facts)
    ensures AllRead(r, details, facts)
  {
    assert details[0..] == details;
  }

  lemma ForgeReads(r: Reader, ctx: Context, m: Message, sub: nat, name: Json, input: Json, p: Pointer)
    requires r.repo == ctx.repo
    ensures Adds(r, m.details, WithForge(r.env, ctx, m, sub, name, input, p).details,
                 if r.env.forge(name, input).Some? then [ForgeFound(name, input)] else [])
  {
    AddsNothing(r, m.details);
    if r.env.forge(name, input).Some? {
      AddsOne(r, m,
              Forge(r.env.forge(name, input).value, UnknownResult, p, LinkedTool(ctx.record, sub), ctx.repo),
              ForgeFound(name, input));
    }
  }

  lemma ReferenceReads(r: Reader, m: Message, name: Json, input: Json, p: Pointer)
    ensures Adds(r, m.details, WithReference(r.env, m, name, input, p).details,
                 if r.env.reference(name, input).Some? then [ReferenceFound(name, input)] else [])
  {
    AddsNothing(r, m.details);
    if r.env.reference(name, input).Some? {
      AddsOne(r, m, Reference(r.env.reference(name, input).value, p), ReferenceFound(name, input));
    }
  }

  lemma TestReads(r: Reader, m: Message, name: Json, input: Json, p: Pointer)
    ensures Adds(r, m.details, WithTest(r.env, m, name, input, p).details,
                 if r.env.test(name, input) then [TestFound(name, input)] else [])
  {
    AddsNothing(r, m.details);
    if r.env.test(name, input) {
      AddsOne(r, m, Test(p), TestFound(name, input));
    }
  }

  lemma FoundReads(r: Reader, ctx: Context, m: Message, sub: nat, name: Json, input: Json, p: Pointer)
    requires r.repo == ctx.repo
    ensures var m1 := WithForge(r.env, ctx, m, sub, name, input, p);
            var m2 := WithReference(r.env, m1, name, input, p);
            Adds(r, m.details, WithTest(r.env, m2, name, input, p).details, FoundIn(r.env, name, input))
  {
    var m1 := WithForge(r.env, ctx, m, sub, name, input, p);
    var m2 := WithReference(r.env, m1, name, input, p);
    var m3 := WithTest(r.env, m2, name, input, p);
    var f1 := if r.env.forge(name, input).Some? then [ForgeFound(name, input)] else [];
    var f2 := if r.env.reference(name, input).Some? then [ReferenceFound(name, input)] else [];
    var f3 := if r.env.test(name, input) then [TestFound(name, input)] else [];
    ForgeReads(r, ctx, m, sub, name, input, p);
    ReferenceReads(r, m1, name, input, p);
    TestReads(r, m2, name, input, p);
    assert FoundIn(r.env, name, input) == f1 + f2 + f3;
    hide Adds, WithForge, WithReference, WithTest, FoundIn;
    AddsThen(r, m.details, m1.details, m2.details, f1, f2);
    AddsThen(r, m.details, m2.details, m3.details, f1 + f2, f3);
  }

  /** A label that is stated is what `LabelRead` asks for. */
  lemma LabelReads(v: Json, allowed: string -> bool)
    ensures LabelRead(v, allowed, Label(v, allowed)) && (Label(v, allowed).Some? <==> Allowed(v, allowed))
  {
  }

  lemma ModelReads(r: Reader, model: Json, provider: Json, effort: Json)
    ensures var labels := Model(Label(model, r.env.modelName), Label(provider, r.env.provider),
                                Label(effort, r.env.effort));
            AllRead(r, if labels.model.Some? || labels.provider.Some? || labels.effort.Some? then [labels] else [],
                    NamedModel(r.env, model, provider, effort))
  {
    LabelReads(model, r.env.modelName);
    LabelReads(provider, r.env.provider);
    LabelReads(effort, r.env.effort);
    hide LabelRead, Allowed, Label;
  }

  /** Counts that were read are the details of the counts that are there. */
  lemma CountedReads(r: Reader, usage: Object, renames: map<string, string>, counts: Option<map<string, nat>>)
    requires counts.Some? <==> AllCounts(usage, renames)
    requires counts.Some? ==>
               TokensRead(usage, renames, counts.value) && (counts.value != map[] <==> SomeCounted(usage, renames))
    ensures AllRead(r, if counts.Some? && counts.value != map[] then [Tokens(counts.value)] else [],
                    CountedTokens(JObj(usage), renames))
  {
    hide AllCounts, TokensRead, SomeCounted;
  }

  // ---- Tool ids --------------------------------------------------------------

  /** Event `k` of record `i` calls a tool under this id. */
  predicate CallSaid(told: seq<Option<Saying>>, i: nat, k: nat, id: string) {
    && i < |told| && told[i].Some? && k < |told[i].value.facts|
    && told[i].value.facts[k].Calls? && told[i].value.facts[k].id == JStr(id)
  }

  /** The call a result with this id belongs to, seen from record `i`: the one earlier call under the
      id, unless the session gives the id out twice. */
  ghost function RelationSaid(told: seq<Option<Saying>>, twice: string -> bool, i: nat, id: Json): ToolRelation {
    if !id.JStr? then MissingTool
    else if twice(id.s) then AmbiguousTool
    else if exists j: nat, k: nat :: j < i && CallSaid(told, j, k, id.s) then
      var j: nat, k: nat :| j < i && CallSaid(told, j, k, id.s);
      LinkedTool(j, k)
    else DanglingTool
  }

  /** The reader of record `i`. */
  ghost function ReaderOf(env: Env, s: VerifiedSession, told: seq<Option<Saying>>, twice: string -> bool,
                          i: nat): Reader
  {
    Reader(env, s.repo, id => RelationSaid(told, twice, i, id))
  }

  /** The positions noted before record `n` are those of its earlier calls under ids given out once. */
  ghost predicate Noted(told: seq<Option<Saying>>, count: string -> nat, n: nat, positions: Positions) {
    && (forall id :: id in positions ==> positions[id].0 < n && CallSaid(told, positions[id].0, positions[id].1, id))
    && (forall j: nat, k: nat, id :: j < n && CallSaid(told, j, k, id) && count(id) == 1 ==>
          id in positions && positions[id] == (j, k))
  }

  lemma RelationIs(told: seq<Option<Saying>>, count: string -> nat, twice: string -> bool, i: nat, positions: Positions,
                   id: Json)
    requires Noted(told, count, i, positions)
    requires forall j: nat, k: nat, s :: j < i && CallSaid(told, j, k, s) ==> count(s) > 0
    requires forall s :: twice(s) <==> count(s) > 1
    ensures RelationOf(id, if id.JStr? then count(id.s) else 0, positions) == RelationSaid(told, twice, i, id)
  {
    if id.JStr? && !twice(id.s) {
      if exists j: nat, k: nat :: j < i && CallSaid(told, j, k, id.s) {
        var j: nat, k: nat :| j < i && CallSaid(told, j, k, id.s)
            && RelationSaid(told, twice, i, id) == LinkedTool(j, k);
        assert count(id.s) == 1;
      }
    }
  }

  predicate NoCalls(facts: seq<Fact>) {
    forall k :: 0 <= k < |facts| ==> !facts[k].Calls?
  }

  lemma FoundNoCalls(env: Env, name: Json, input: Json)
    ensures NoCalls(FoundIn(env, name, input))
  {
  }

  lemma NotedStays(told: seq<Option<Saying>>, count: string -> nat, n: nat, positions: Positions)
    requires n < |told| && Noted(told, count, n, positions) && (told[n].None? || NoCalls(told[n].value.facts))
    ensures Noted(told, count, n + 1, positions)
  {
  }

  // ---- Generations -----------------------------------------------------------

  /** A boundary's generation is stated when it is greater than that of every boundary before it. */
  predicate Newest(s: VerifiedSession, boundary: VerifiedRecord -> bool, i: nat)
    requires i < |s.records|
  {
    && s.records[i].generation.Some?
    && forall j :: 0 <= j < i && boundary(s.records[j]) && s.records[j].generation.Some? ==>
        s.records[j].generation.value < s.records[i].generation.value
  }

  /** The last generation so far is the greatest of the boundaries so far. */
  ghost predicate LastIs(s: VerifiedSession, boundary: VerifiedRecord -> bool, n: nat, last: Option<nat>)
    requires n <= |s.records|
  {
    && (forall j :: 0 <= j < n && boundary(s.records[j]) && s.records[j].generation.Some? ==>
          last.Some? && s.records[j].generation.value <= last.value)
    && (last.Some? ==> exists j :: 0 <= j < n && boundary(s.records[j]) && s.records[j].generation == last)
  }

  lemma LastMoves(s: VerifiedSession, boundary: VerifiedRecord -> bool, i: nat, last: Option<nat>)
    requires i < |s.records| && LastIs(s, boundary, i, last) && boundary(s.records[i])
    ensures var generation := s.records[i].generation;
            var newer := generation.Some? && (last.None? || generation.value > last.value);
            && (newer <==> Newest(s, boundary, i))
            && LastIs(s, boundary, i + 1, if newer then generation else last)
  {
  }

  lemma LastStays(s: VerifiedSession, boundary: VerifiedRecord -> bool, i: nat, last: Option<nat>)
    requires i < |s.records| && LastIs(s, boundary, i, last) && !boundary(s.records[i])
    ensures LastIs(s, boundary, i + 1, last)
  {
  }

  // ---- The events of a session -----------------------------------------------

  /** The event states a fact its record gives, at the place that fact has there. */
  ghost predicate Tells(env: Env, s: VerifiedSession, episode: Option<EpisodeId>, told: seq<Option<Saying>>,
                        twice: string -> bool, e: Event) {
    && e.session == s.id && e.episode == episode
    && e.record < |told| && told[e.record].Some? && e.sub < |told[e.record].value.facts|
    && e.observedAt == told[e.record].value.at && e.parent == told[e.record].value.parent
    && Reads(ReaderOf(env, s, told, twice, e.record), e.detail, told[e.record].value.facts[e.sub])
  }

  predicate At(e: Event, session: nat, record: nat, sub: nat) {
    e.session == session && e.record == record && e.sub == sub
  }

  predicate FactAt(told: seq<Option<Saying>>, i: nat, k: nat) {
    i < |told| && told[i].Some? && k < |told[i].value.facts|
  }

  predicate Has(events: seq<Event>, session: nat, record: nat, sub: nat) {
    exists e :: e in events && At(e, session, record, sub)
  }

  /** What was added since `before` are the facts of the first `n` records, all of them and nothing
      else. */
  ghost predicate Heard(env: Env, s: VerifiedSession, episode: Option<EpisodeId>, told: seq<Option<Saying>>,
                        twice: string -> bool, n: nat, before: seq<Event>, after: seq<Event>) {
    && before <= after
    && (forall j :: |before| <= j < |after| ==> Tells(env, s, episode, told, twice, after[j]))
    && (forall i: nat, k: nat :: i < n && FactAt(told, i, k) ==> Has(after, s.id, i, k))
  }

  lemma NothingHeard(env: Env, s: VerifiedSession, episode: Option<EpisodeId>, told: seq<Option<Saying>>,
                     twice: string -> bool, events: seq<Event>)
    ensures Heard(env, s, episode, told, twice, 0, events, events)
  {
  }

  /** A record's outcome is what the record says. */
  ghost predicate Conveys(r: Reader, said: Option<Saying>, parent: ParentLink, out: Claude.Outcome) {
    && (said.Some? <==> out.details.Some?)
    && (said.Some? ==>
          && AllRead(r, out.details.value, said.value.facts)
          && (said.value.facts != [] ==> out.observedAt == said.value.at && parent == said.value.parent))
  }

  lemma HasMore(events: seq<Event>, more: seq<Event>, session: nat, record: nat, sub: nat)
    requires Has(events, session, record, sub)
    ensures Has(events + more, session, record, sub)
  {
    var e :| e in events && At(e, session, record, sub);
    assert e in events + more;
  }

  lemma FinishHears(env: Env, sc: SessionContext, told: seq<Option<Saying>>, twice: string -> bool, n: nat,
                    before: seq<Event>, p: Progress, parent: ParentLink, out: Claude.Outcome, last: Option<nat>)
    requires n < |sc.session.records| == |told|
    requires Heard(env, sc.session, sc.episode, told, twice, n, before, p.events)
    requires Conveys(ReaderOf(env, sc.session, told, twice, n), told[n], parent, out)
    ensures Heard(env, sc.session, sc.episode, told, twice, n + 1, before, Finish(p, sc, n, parent, out, last).events)
  {
    hide Reads, RelationSaid;
    var s, after := sc.session, Finish(p, sc, n, parent, out, last).events;
    if out.details.Some? {
      var parsed := Parsed(n, parent, out.observedAt, s.records[n].commitment, out.details.value);
      var added := RecordEvents(s.id, sc.episode, parsed);
      assert after == p.events + added;
      forall j | |before| <= j < |after|
        ensures Tells(env, s, sc.episode, told, twice, after[j])
      {
        if j < |p.events| {
          assert after[j] == p.events[j];
        } else {
          assert after[j] == EventAt(s.id, sc.episode, parsed, j - |p.events|);
        }
      }
      forall i: nat, k: nat | i < n + 1 && FactAt(told, i, k)
        ensures Has(after, s.id, i, k)
      {
        if i < n {
          HasMore(p.events, added, s.id, i, k);
        } else {
          assert added[k] in after && At(added[k], s.id, n, k);
        }
      }
    } else {
      assert after == p.events;
    }
  }

  lemma FinishKeepsNotes(p: Progress, sc: SessionContext, n: nat, parent: ParentLink, out: Claude.Outcome,
                         last: Option<nat>)
    requires n < |sc.session.records|
    ensures Finish(p, sc, n, parent, out, last).positions == out.positions
    ensures Finish(p, sc, n, parent, out, last).last == last
  {
  }

  /** A record that gives nothing says nothing. */
  lemma SkipHears(env: Env, s: VerifiedSession, episode: Option<EpisodeId>, told: seq<Option<Saying>>,
                  twice: string -> bool, n: nat, before: seq<Event>, after: seq<Event>)
    requires n < |told| && told[n].None? && Heard(env, s, episode, told, twice, n, before, after)
    ensures Heard(env, s, episode, told, twice, n + 1, before, after)
  {
    hide Tells, Has;
  }

  // ---- The events of the corpus ----------------------------------------------

  /** What the records of one session say, and which tool ids the session gives out twice. */
  datatype Telling = Telling(told: seq<Option<Saying>>, twice: string -> bool)

  /** The event states a fact of a record of one of the sessions. */
  ghost predicate Stated(env: Env, st: Stitched, sessions: seq<VerifiedSession>, tellings: seq<Telling>, e: Event)
    requires |sessions| == |tellings|
  {
    exists k :: 0 <= k < |sessions|
                && Tells(env, sessions[k], Lookup(st.ids, sessions[k].id), tellings[k].told, tellings[k].twice, e)
  }

  ghost predicate AllStated(env: Env, st: Stitched, sessions: seq<VerifiedSession>, tellings: seq<Telling>,
                            events: seq<Event>)
    requires |sessions| == |tellings|
  {
    forall e :: e in events ==> Stated(env, st, sessions, tellings, e)
  }

  /** Every fact of every record has its event. */
  ghost predicate NoneLost(sessions: seq<VerifiedSession>, tellings: seq<Telling>, events: seq<Event>)
    requires |sessions| == |tellings|
  {
    forall k, i: nat, j: nat :: 0 <= k < |sessions| && FactAt(tellings[k].told, i, j) ==>
      Has(events, sessions[k].id, i, j)
  }

  lemma SessionStated(env: Env, st: Stitched, sessions: seq<VerifiedSession>, tellings: seq<Telling>,
                      before: seq<Event>, s: VerifiedSession, t: Telling, after: seq<Event>)
    requires |sessions| == |tellings| && AllStated(env, st, sessions, tellings, before)
    requires Heard(env, s, Lookup(st.ids, s.id), t.told, t.twice, |s.records|, before, after)
    ensures AllStated(env, st, sessions + [s], tellings + [t], after)
  {
    hide Tells, Has;
    var n := |sessions|;
    forall e | e in after
      ensures Stated(env, st, sessions + [s], tellings + [t], e)
    {
      var j :| 0 <= j < |after| && after[j] == e;
      if j < |before| {
        assert before[j] == e && e in before && Stated(env, st, sessions, tellings, e);
        var k :| 0 <= k < n && Tells(env, sessions[k], Lookup(st.ids, sessions[k].id), tellings[k].told,
                                     tellings[k].twice, e);
        assert (sessions + [s])[k] == sessions[k] && (tellings + [t])[k] == tellings[k];
      } else {
        assert (sessions + [s])[n] == s && (tellings + [t])[n] == t;
      }
    }
  }

  lemma SessionNotLost(env: Env, st: Stitched, sessions: seq<VerifiedSession>, tellings: seq<Telling>,
                       before: seq<Event>, s: VerifiedSession, t: Telling, after: seq<Event>)
    requires |sessions| == |tellings| && NoneLost(sessions, tellings, before) && |t.told| == |s.records|
    requires Heard(env, s, Lookup(st.ids, s.id), t.told, t.twice, |s.records|, before, after)
    ensures NoneLost(sessions + [s], tellings + [t], after)
  {
    hide Tells, At;
    assert after == before + after[|before|..];
    forall k, i: nat, j: nat | 0 <= k < |sessions + [s]| && FactAt((tellings + [t])[k].told, i, j)
      ensures Has(after, (sessions + [s])[k].id, i, j)
    {
      if k < |sessions| {
        HasMore(before, after[|before|..], sessions[k].id, i, j);
      }
    }
  }

  /** Joining forge outcomes moves no event and changes no fact. */
  lemma RejoinedReads(r: Reader, events: seq<Event>, o: Event, f: Fact)
    requires Reads(r, o.detail, f)
    ensures Reads(r, Rejoined(events, o).detail, f)
  {
  }

  lemma RejoinStated(env: Env, st: Stitched, sessions: seq<VerifiedSession>, tellings: seq<Telling>, events: seq<Event>)
    requires |sessions| == |tellings| && AllStated(env, st, sessions, tellings, events)
    ensures AllStated(env, st, sessions, tellings, Rejoin(events))
  {
    forall e | e in Rejoin(events)
      ensures Stated(env, st, sessions, tellings, e)
    {
      var i :| 0 <= i < |events| && e == Rejoin(events)[i];
      var o := events[i];
      assert o in events && e == Rejoined(events, o);
      var k :| 0 <= k < |sessions| && Tells(env, sessions[k], Lookup(st.ids, sessions[k].id), tellings[k].told,
                                            tellings[k].twice, o);
      RejoinedTells(env, sessions[k], Lookup(st.ids, sessions[k].id), tellings[k].told, tellings[k].twice, events, o);
    }
  }

  lemma RejoinedTells(env: Env, s: VerifiedSession, episode: Option<EpisodeId>, told: seq<Option<Saying>>,
                      twice: string -> bool, events: seq<Event>, o: Event)
    requires Tells(env, s, episode, told, twice, o)
    ensures Tells(env, s, episode, told, twice, Rejoined(events, o))
  {
    RejoinedReads(ReaderOf(env, s, told, twice, o.record), events, o, told[o.record].value.facts[o.sub]);
    hide Reads, ReaderOf;
  }

  lemma RejoinNotLost(sessions: seq<VerifiedSession>, tellings: seq<Telling>, events: seq<Event>)
    requires |sessions| == |tellings| && NoneLost(sessions, tellings, events)
    ensures NoneLost(sessions, tellings, Rejoin(events))
  {
    forall k, i: nat, j: nat | 0 <= k < |sessions| && FactAt(tellings[k].told, i, j)
      ensures Has(Rejoin(events), sessions[k].id, i, j)
    {
      var o :| o in events && At(o, sessions[k].id, i, j);
      var at :| 0 <= at < |events| && events[at] == o;
      assert Rejoin(events)[at] == Rejoined(events, o) && Rejoin(events)[at] in Rejoin(events);
      assert At(Rejoined(events, o), sessions[k].id, i, j);
    }
  }
}
