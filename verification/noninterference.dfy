/** Nothing outside the admitted sessions and records can influence the corpus, and neither can the
order of the sessions or the numbering of the records.
*/
module Noninterference {
  import opened Records
  import opened LineageGraph
  import opened UnionFind
  import opened Episodes
  import opened Corpus
  import opened CorpusLineage
  import opened Transcripts
  import opened Admission
  import opened AdmissionLaws
  import opened Claude
  import ClaudeNormalizer

  // ---- The stitcher's answer is determined -----------------------------------

  lemma ChosenUnique(edges: Edges, spans: seq<Span>, later: Span, a: Option<Span>, b: Option<Span>)
    requires Distinct(spans) && Chosen(edges, spans, later, a) && Chosen(edges, spans, later, b)
    ensures a == b
  {
    if a.Some? && b.Some? {
      assert !Before(a.value, b.value) && !Before(b.value, a.value);
      SameIdSameSpan(spans, a.value, b.value);
    }
  }

  lemma SameIdSameSpan(spans: seq<Span>, a: Span, b: Span)
    requires Distinct(spans) && a in spans && b in spans && a.id == b.id
    ensures a == b
  {
  }

  lemma {:induction false} InferredUnique(spans: seq<Span>, todo: seq<Span>, recorded: map<nat, nat>,
                                          e: Edges, l: map<nat, nat>, f: Edges, m: map<nat, nat>)
    requires Distinct(spans) && Inferred(spans, todo, recorded, e, l) && Inferred(spans, todo, recorded, f, m)
    ensures e == f && l == m
    decreases |todo|
  {
    if todo != [] {
      var later, rest := todo[|todo| - 1], todo[..|todo| - 1];
      var e0: Edges, l0: map<nat, nat>, a: Option<Span> :|
        Inferred(spans, rest, recorded, e0, l0) && Chosen(e0, spans, later, a)
        && e == Continued(e0, later, a) && l == Episodes.Linked(l0, recorded, later, a);
      var f0: Edges, m0: map<nat, nat>, b: Option<Span> :|
        Inferred(spans, rest, recorded, f0, m0) && Chosen(f0, spans, later, b)
        && f == Continued(f0, later, b) && m == Episodes.Linked(m0, recorded, later, b);
      InferredUnique(spans, rest, recorded, e0, l0, f0, m0);
      ChosenUnique(e0, spans, later, a, b);
    }
  }

  lemma IdsUnique(all: set<nat>, links: seq<(nat, nat)>, a: map<nat, EpisodeId>, b: map<nat, EpisodeId>)
    requires IdsAreComponents(all, links, a) && IdsAreComponents(all, links, b)
    ensures a == b
  {
    hide Connected, HasCompanion, Ascending;
    assert a.Keys == b.Keys;
    forall k | k in a
      ensures a[k] == b[k]
    {
      assert IsComponent(all, links, k, a[k].members) && IsComponent(all, links, k, b[k].members);
      AscendingUnique(a[k].members, b[k].members);
    }
  }

  /** Two answers for the same sessions are the same answer. */
  lemma StitchingUnique(nodes: seq<Node>, a: Stitched, e: Edges, b: Stitched, f: Edges)
    requires Accepted(nodes) && Stitching(nodes, a, e) && Stitching(nodes, b, f)
    ensures a == b
  {
    hide Spans, SortSpans, Inferred, Acyclic, EdgesAre, LinksAre, AllLinks, IdsAreComponents, Unresolved, RecordedFrom;
    SpansHold(nodes);
    InferredUnique(Spans(nodes), SortSpans(Spans(nodes)), Recorded(nodes), e, a.inferred, f, b.inferred);
    IdsUnique(Ids(nodes), AllLinks(nodes, a.inferred), a.ids, b.ids);
  }

  // ---- Numbering does not matter ---------------------------------------------

  /** A context and the same context with its records counted from zero. */
  ghost predicate SameButNumbers(a: SessionContext, b: SessionContext) {
    && b == a.(session := Renumbered(a.session))
    && |a.objects| == |a.session.records| && SessionChecked(a.session)
  }

  lemma ParentUnmoved(env: Env, a: SessionContext, b: SessionContext, i: nat, v: Object)
    requires SameButNumbers(a, b) && i < |a.session.records|
    ensures ParentFor(env, a, i, v) == ParentFor(env, b, i, v)
  {
    if a.objects[i].Some? {
      var raw := Get(a.objects[i].value, "parentUuid");
      var holders := Holders(a.objects, raw);
      if holders != [] && holders[0] < |a.session.records| {
        var h := holders[0];
        assert a.session.records[h].index >= a.session.records[i].index <==> h >= i;
      }
    }
  }

  lemma StepUnmoved(env: Env, a: SessionContext, b: SessionContext, p: Progress, i: nat)
    requires SameButNumbers(a, b) && i < |a.session.records|
    ensures RecordStep(env, a, p, i) == RecordStep(env, b, p, i)
  {
    hide MessageOutcome, LifecycleOutcome, UnknownOutcome, ParentFor, SessionChecked;
    if env.decode(a.session.records[i].raw).Some? {
      ParentUnmoved(env, a, b, i, env.decode(a.session.records[i].raw).value);
    }
  }

  lemma {:induction false} RecordsUnmoved(env: Env, a: SessionContext, b: SessionContext, p: Progress, n: nat)
    requires SameButNumbers(a, b) && n <= |a.session.records|
    ensures RecordsUpTo(env, a, p, n) == RecordsUpTo(env, b, p, n)
  {
    hide RecordStep;
    if n > 0 {
      RecordsUnmoved(env, a, b, p, n - 1);
      StepUnmoved(env, a, b, RecordsUpTo(env, a, p, n - 1), n - 1);
    }
  }

  lemma {:induction false} AmbiguousUnmoved(records: seq<VerifiedRecord>)
    ensures AmbiguousIn(RenumberedRecords(records)) == AmbiguousIn(records)
  {
    if records != [] {
      var n := |records| - 1;
      assert RenumberedRecords(records)[..n] == RenumberedRecords(records[..n]);
      AmbiguousUnmoved(records[..n]);
    }
  }

  lemma ContextUnmoved(env: Env, s: VerifiedSession, episode: Option<EpisodeId>)
    requires SessionChecked(s)
    ensures SameButNumbers(ContextOf(env, s, episode), ContextOf(env, Renumbered(s), episode))
  {
    assert SubjectObjects(env, Renumbered(s).records) == SubjectObjects(env, s.records);
  }

  lemma ManifestUnmoved(a: SessionContext, b: SessionContext, st: Stitched)
    requires SameButNumbers(a, b)
    ensures ManifestOf(a, st) == ManifestOf(b, st)
  {
    ClosureUnmoved(a.session);
    hide GitClosure, SessionChecked;
  }

  lemma ClosureUnmoved(s: VerifiedSession)
    ensures GitClosure(Renumbered(s)) == GitClosure(s)
  {
    assert forall b: BindingObservation :: Inside(b, Renumbered(s)) <==> Inside(b, s);
  }

  lemma SessionUnmoved(env: Env, st: Stitched, c: Growth, s: VerifiedSession)
    requires SessionChecked(s)
    ensures SessionStep(env, st, c, Renumbered(s)) == SessionStep(env, st, c, s)
  {
    hide ContextOf, RecordsUpTo, SessionChecked, ManifestOf, AmbiguousIn, SameButNumbers;
    var episode := Lookup(st.ids, s.id);
    ContextUnmoved(env, s, episode);
    AmbiguousUnmoved(s.records);
    var a, b := ContextOf(env, s, episode), ContextOf(env, Renumbered(s), episode);
    ContextSession(env, s, episode);
    ContextSession(env, Renumbered(s), episode);
    ManifestUnmoved(a, b, st);
    RecordsUnmoved(env, a, b, Progress(c.events, Started(c.cov, s), map[], None), |s.records|);
  }

  lemma ContextSession(env: Env, s: VerifiedSession, episode: Option<EpisodeId>)
    ensures ContextOf(env, s, episode).session == s && |ContextOf(env, s, episode).objects| == |s.records|
  {
  }

  lemma {:induction false} SessionsUnmoved(env: Env, st: Stitched, sessions: seq<VerifiedSession>)
    requires forall s :: s in sessions ==> SessionChecked(s)
    ensures SessionsUpTo(env, st, AllRenumbered(sessions)) == SessionsUpTo(env, st, sessions)
  {
    hide SessionStep, SessionChecked, Renumbered;
    if sessions != [] {
      var n := |sessions| - 1;
      assert AllRenumbered(sessions)[..n] == AllRenumbered(sessions[..n]);
      SessionsUnmoved(env, st, sessions[..n]);
      assert sessions[n] in sessions;
      SessionUnmoved(env, st, SessionsUpTo(env, st, sessions[..n]), sessions[n]);
    }
  }

  // ---- The theorem -----------------------------------------------------------

  /** What the producer may answer to an input: nothing where it raises, else the artifact of the
      checked sessions under the stitcher's answer. */
  ghost predicate Produces(env: Env, raw: seq<RawSession>, r: Option<Artifact>) {
    match CheckInput(raw)
    case None => r == None
    case Some(checked) =>
      if !Acyclic(ParentEdges(Recorded(Nodes(checked)))) then r == None
      else r.Some? && exists st, edges ::
          Stitching(Nodes(checked), st, edges) && r.value == Normalized(env, checked, st)
  }

  method NormalizeInput(env: Env, raw: seq<RawSession>) returns (r: Option<Artifact>)
    ensures Produces(env, raw, r)
    ensures r.Some? ==> Accepts(env.rules, r.value)
  {
    hide CheckInput, Stitching, Normalized, Accepts, Acyclic, Checked;
    var checked := CheckInputSessions(raw);
    if checked.None? {
      return None;
    }
    CheckedInput(raw);
    ghost var st, edges;
    r, st, edges := ClaudeNormalizer.NormalizeClaude(env, checked.value);
  }

  /** Same nodes, same records up to numbering: same artifact. */
  lemma SameArtifact(env: Env, a: seq<VerifiedSession>, b: seq<VerifiedSession>, s: Stitched, e: Edges, t: Stitched,
                     f: Edges)
    requires Checked(a) && Checked(b) && AllRenumbered(a) == AllRenumbered(b)
    requires Stitching(Nodes(a), s, e) && Stitching(Nodes(b), t, f)
    ensures Normalized(env, a, s) == Normalized(env, b, t)
  {
    assert forall x :: x in a ==> SessionChecked(x);
    assert forall x :: x in b ==> SessionChecked(x);
    hide Stitching, SessionsUpTo, Written, Checked, SessionChecked, AllRenumbered, Accepted;
    RenumberedChecked(a);
    RenumberedChecked(b);
    CheckedNodes(a);
    StitchingUnique(Nodes(a), s, e, t, f);
    SessionsUnmoved(env, s, a);
    SessionsUnmoved(env, s, b);
  }

  /** Two non-empty inputs that admit the same sessions and records, up to the order of the sessions
      and an order-preserving renumbering of the records, get the same answer, whatever else they
      hold. */
  lemma FilterNoninterference(env: Env, a: seq<RawSession>, b: seq<RawSession>, x: Option<Artifact>,
                              y: Option<Artifact>)
    requires SameAdmission(a, b) && Produces(env, a, x) && Produces(env, b, y)
    ensures x == y
  {
    hide SameAdmission, CheckInput, Normalized, Stitching, Acyclic, AllRenumbered, Checked;
    SameAnswer(a, b);
    if CheckInput(a).Some? {
      SameViews(a, b);
      CheckedInput(a);
      CheckedInput(b);
      var v, w := CheckInput(a).value, CheckInput(b).value;
      RenumberedChecked(v);
      RenumberedChecked(w);
      if Acyclic(ParentEdges(Recorded(Nodes(v)))) {
        var s, e :| Stitching(Nodes(v), s, e) && x.value == Normalized(env, v, s);
        var t, f :| Stitching(Nodes(w), t, f) && y.value == Normalized(env, w, t);
        SameArtifact(env, v, w, s, e, t, f);
      }
    }
  }

  /** A session that is known not to be the subject's, put anywhere among others, changes no answer. */
  lemma ExcludedSessionUnwritten(env: Env, a: seq<RawSession>, s: RawSession, b: seq<RawSession>, r: Option<Artifact>)
    requires Excluded(s) && a + b != []
    ensures Produces(env, a + [s] + b, r) <==> Produces(env, a + b, r)
  {
    ExcludedSessionUnread(a, s, b);
    hide Excluded, CheckInput, Acyclic, Stitching, Normalized;
  }

  /** Nor does another person's record inside a session. */
  lemma ExcludedRecordUnwritten(env: Env, a: seq<RawSession>, s: RawSession, x: seq<RawRecord>, o: RawRecord,
                                y: seq<RawRecord>, b: seq<RawSession>, r: Option<Artifact>)
    requires s.records == x + y && o.attribution == NonSubject
    ensures Produces(env, a + [s.(records := x + [o] + y)] + b, r) <==> Produces(env, a + [s] + b, r)
  {
    ExcludedRecordUnread(a, s, x, o, y, b);
    hide CheckInput, Acyclic, Stitching, Normalized;
  }
}
