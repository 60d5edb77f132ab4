/** What an artifact lists of each session it was given, whichever producer wrote it. */
module ManifestLaws {
  import opened Records
  import opened Episodes
  import opened Corpus
  import opened CorpusBuild
  import opened CorpusLineage
  import opened Transcripts
  import opened Claude
  import opened Codex
  import opened Readings
  import ClaudeReadings

  // ---- What the closing git evidence says ------------------------------------

  /** The session has a repository, both heads, both rows and an end. */
  predicate Observed(s: VerifiedSession) {
    && s.repo.Some? && s.headBefore.Some? && s.headAfter.Some? && s.startRow.Some? && s.endRow.Some?
    && s.endedAt.Some?
  }

  /** A binding of the session's repository whose row is strictly between the session's rows. */
  predicate Within(s: VerifiedSession, b: BindingObservation)
    requires Observed(s)
  {
    b.repo == s.repo.value && s.startRow.value < b.rowIndex < s.endRow.value
  }

  /** A moved head is bound when a binding within the session names it; an unmoved one has no change
      when there is no binding within the session at all. */
  predicate ClosureStated(s: VerifiedSession, c: Closure) {
    && (c.BoundCommit? <==>
          && Observed(s) && s.headBefore.value != s.headAfter.value
          && exists b :: b in s.bindings && Within(s, b) && b.commit == s.headAfter.value)
    && (c.NoHeadChange? <==>
          && Observed(s) && s.headBefore.value == s.headAfter.value
          && forall b :: b in s.bindings ==> !Within(s, b))
  }

  lemma ClosureIs(s: VerifiedSession)
    ensures ClosureStated(s, GitClosure(s))
  {
    if Observed(s) {
      forall k | 0 <= k < |s.bindings|
        ensures s.bindings[k] in s.bindings && (Inside(s.bindings[k], s) <==> Within(s, s.bindings[k]))
      {
      }
      assert forall b :: b in s.bindings ==> exists k :: 0 <= k < |s.bindings| && s.bindings[k] == b;
    }
  }

  // ---- One session -----------------------------------------------------------

  /** The entry is of this session: what the input and the stitcher say of it. */
  predicate Entered(st: Stitched, s: VerifiedSession, m: ManifestSession) {
    && m.id == s.id && m.admitted == |s.records| && m.startedAt == s.startedAt && m.parent == s.parent
    && m.episode == Lookup(st.ids, s.id) && m.predecessor == Lookup(st.inferred, s.id) && ClosureStated(s, m.closure)
  }

  predicate HasMessage(env: Env, s: VerifiedSession) {
    exists k :: 0 <= k < |s.records| && ClaudeReadings.SpeaksMessage(env, s.records[k])
  }

  predicate Launches(env: Env, r: VerifiedRecord) {
    Spoken(env, r).Some? && Get(Spoken(env, r).value, "type") == JStr("queue-operation")
  }

  /** The lane is what all message records agree on, if there are any; a launcher has a queue record. */
  predicate ClaudeEntered(env: Env, s: VerifiedSession, m: ManifestSession) {
    && (m.lane == Some(Subagent) <==> HasMessage(env, s) && ClaudeReadings.AllMarked(env, s, true))
    && (m.lane == Some(Primary) <==> HasMessage(env, s) && ClaudeReadings.AllMarked(env, s, false))
    && (m.launcher <==> exists k :: 0 <= k < |s.records| && Launches(env, s.records[k]))
  }

  lemma EntryIs(env: Env, st: Stitched, s: VerifiedSession)
    requires SessionChecked(s)
    ensures var m := ManifestOf(ContextOf(env, s, Lookup(st.ids, s.id)), st);
            Entered(st, s, m) && ClaudeEntered(env, s, m)
  {
    var sc := ContextOf(env, s, Lookup(st.ids, s.id));
    ClosureIs(s);
    forall k | 0 <= k < |s.records|
      ensures sc.objects[k] == Spoken(env, s.records[k])
    {
      ClaudeReadings.SpokenObjects(env, s, k);
    }
    LaneIs(env, sc);
    hide SubjectObjects, Sidechain, Inconsistent, GitClosure, ClosureStated, SessionChecked, Spoken;
    forall k | 0 <= k < |s.records|
      ensures Launches(env, s.records[k]) <==> IsLauncher(sc.objects[k])
    {
    }
  }

  lemma LaneIs(env: Env, sc: SessionContext)
    requires ClaudeReadings.ContextFor(env, sc)
    ensures sc.sidechain == Some(true) <==>
            HasMessage(env, sc.session) && ClaudeReadings.AllMarked(env, sc.session, true)
    ensures sc.sidechain == Some(false) <==>
            HasMessage(env, sc.session) && ClaudeReadings.AllMarked(env, sc.session, false)
  {
    var s := sc.session;
    if HasMessage(env, s) {
      var k :| 0 <= k < |s.records| && ClaudeReadings.SpeaksMessage(env, s.records[k]);
      ClaudeReadings.SidechainIs(env, sc, k);
    } else {
      forall k | 0 <= k < |s.records|
        ensures !Marked(sc.objects[k], true) && !Marked(sc.objects[k], false)
      {
        ClaudeReadings.SpokenObjects(env, s, k);
        assert !ClaudeReadings.SpeaksMessage(env, s.records[k]);
      }
    }
  }

  // ---- All sessions ----------------------------------------------------------

  /** One entry for each session, in order. */
  ghost predicate AllEntered(st: Stitched, sessions: seq<VerifiedSession>, entries: seq<ManifestSession>) {
    |entries| == |sessions| && forall k :: 0 <= k < |sessions| ==> Entered(st, sessions[k], entries[k])
  }

  lemma {:induction false} ClaudeEntries(env: Env, st: Stitched, sessions: seq<VerifiedSession>)
    requires forall s :: s in sessions ==> SessionChecked(s)
    ensures var entries := SessionsUpTo(env, st, sessions).sessions;
            && AllEntered(st, sessions, entries)
            && forall k :: 0 <= k < |sessions| ==> ClaudeEntered(env, sessions[k], entries[k])
  {
    if sessions != [] {
      var n := |sessions| - 1;
      assert sessions[n] in sessions;
      hide SessionChecked, RecordsUpTo, Entered, ClaudeEntered, ManifestOf, ContextOf;
      ClaudeEntries(env, st, sessions[..n]);
      EntryIs(env, st, sessions[n]);
      var before, entries := SessionsUpTo(env, st, sessions[..n]).sessions, SessionsUpTo(env, st, sessions).sessions;
      assert entries == before + [ManifestOf(ContextOf(env, sessions[n], Lookup(st.ids, sessions[n].id)), st)];
      forall k | 0 <= k < |sessions|
        ensures Entered(st, sessions[k], entries[k]) && ClaudeEntered(env, sessions[k], entries[k])
      {
        if k < n {
          assert sessions[k] == sessions[..n][k] && entries[k] == before[k];
        }
      }
    }
  }

  /** The entry of the second producer. */
  lemma CodexEntryIs(t: Tools, st: Stitched, s: VerifiedSession)
    ensures var m := CodexManifest(CodexContext(t, s, Lookup(st.ids, s.id)), st);
            Entered(st, s, m) && m.lane == None && !m.launcher
  {
    ClosureIs(s);
    hide ClosureStated, GitClosure, SubjectObjects;
  }

  lemma CodexNext(t: Tools, st: Stitched, sessions: seq<VerifiedSession>)
    requires sessions != [] && CodexSessions(t, st, sessions).Done?
    ensures var n := |sessions| - 1;
            && CodexSessions(t, st, sessions[..n]).Done?
            && CodexSessions(t, st, sessions).value.sessions
               == CodexSessions(t, st, sessions[..n]).value.sessions
                  + [CodexManifest(CodexContext(t, sessions[n], Lookup(st.ids, sessions[n].id)), st)]
  {
    hide WalkUpTo, Started, GitClosure, SubjectObjects;
  }

  lemma {:induction false} CodexEntries(t: Tools, st: Stitched, sessions: seq<VerifiedSession>)
    requires CodexSessions(t, st, sessions).Done?
    ensures var entries := CodexSessions(t, st, sessions).value.sessions;
            && AllEntered(st, sessions, entries)
            && forall k :: 0 <= k < |sessions| ==> entries[k].lane == None && !entries[k].launcher
  {
    if sessions != [] {
      var n := |sessions| - 1;
      CodexNext(t, st, sessions);
      hide CodexSessions, Entered, CodexManifest, CodexContext;
      CodexEntries(t, st, sessions[..n]);
      CodexEntryIs(t, st, sessions[n]);
      var before, entries := CodexSessions(t, st, sessions[..n]).value.sessions,
          CodexSessions(t, st, sessions).value.sessions;
      forall k | 0 <= k < |sessions|
        ensures Entered(st, sessions[k], entries[k]) && entries[k].lane == None && !entries[k].launcher
      {
        if k < n {
          assert sessions[k] == sessions[..n][k] && entries[k] == before[k];
        }
      }
    }
  }

  /** The manifest of the first producer, entry by entry. */
  lemma ClaudeLists(env: Env, sessions: seq<VerifiedSession>, st: Stitched)
    requires Checked(sessions)
    ensures var entries := Normalized(env, sessions, st).manifest.sessions;
            && AllEntered(st, sessions, entries)
            && forall k :: 0 <= k < |sessions| ==> ClaudeEntered(env, sessions[k], entries[k])
  {
    hide SessionChecked;
    ClaudeEntries(env, st, sessions);
    hide AllEntered, ClaudeEntered, SessionsUpTo, EpisodeTable, Rejoin;
  }

  /** The manifest of the second, which knows neither lanes nor launchers. */
  lemma CodexLists(t: Tools, sessions: seq<VerifiedSession>, st: Stitched)
    requires CodexNormalized(t, sessions, st).Done?
    ensures var entries := CodexNormalized(t, sessions, st).value.manifest.sessions;
            && AllEntered(st, sessions, entries)
            && forall k :: 0 <= k < |sessions| ==> entries[k].lane == None && !entries[k].launcher
  {
    CodexEntries(t, st, sessions);
    hide AllEntered, CodexSessions, EpisodeTable, Rejoin;
  }
}
