/** What the consent filter means, on the sessions and records as they are given. */
module AdmissionLaws {
  import opened Records
  import opened Transcripts
  import opened Admission

  /** Known not to be the subject's: another person's session, or one with nothing but another person's
      records. */
  predicate Excluded(s: RawSession) {
    !s.owned || forall r :: r in s.records ==> r.attribution == NonSubject
  }

  // ---- Excluded input is not read --------------------------------------------

  lemma {:induction false} AdmittedConcat(a: seq<RawSession>, b: seq<RawSession>)
    ensures Admitted(a + b) == Admitted(a) + Admitted(b)
  {
    if b == [] {
      assert a + b == a;
    } else {
      var n := |b| - 1;
      AdmittedConcat(a, b[..n]);
      assert (a + b)[..|a + b| - 1] == a + b[..n];
    }
  }

  lemma {:induction false} KeptConcat(a: seq<RawRecord>, b: seq<RawRecord>)
    ensures AdmittedRecords(a + b) == AdmittedRecords(a) + AdmittedRecords(b)
  {
    if b == [] {
      assert a + b == a;
    } else {
      var n := |b| - 1;
      KeptConcat(a, b[..n]);
      assert (a + b)[..|a + b| - 1] == a + b[..n];
    }
  }

  lemma AdmittedOne(s: RawSession)
    ensures Admitted([s]) == if Excluded(s) then [] else [s]
  {
    AdmittedRecordsHold(s.records);
    assert [s][..0] == [];
    if IsAdmitted(s) {
      assert AdmittedRecords(s.records)[0] in AdmittedRecords(s.records);
    }
  }

  /** A session that is known not to be the subject's changes no answer, whatever else it holds. */
  lemma ExcludedSessionUnread(a: seq<RawSession>, s: RawSession, b: seq<RawSession>)
    requires Excluded(s) && a + b != []
    ensures CheckInput(a + [s] + b) == CheckInput(a + b)
  {
    AdmittedConcat(a + [s], b);
    AdmittedConcat(a, [s]);
    AdmittedConcat(a, b);
    AdmittedOne(s);
    hide SessionFine, SessionViews, SortById, Admitted;
    assert Admitted(a) + [] == Admitted(a);
  }

  /** Nor does a record of another person inside a session of the subject. */
  lemma ExcludedRecordUnread(a: seq<RawSession>, s: RawSession, x: seq<RawRecord>, r: RawRecord, y: seq<RawRecord>,
                             b: seq<RawSession>)
    requires s.records == x + y && r.attribution == NonSubject
    ensures CheckInput(a + [s.(records := x + [r] + y)] + b) == CheckInput(a + [s] + b)
  {
    var t := s.(records := x + [r] + y);
    KeptConcat(x + [r], y);
    KeptConcat(x, [r]);
    KeptConcat(x, y);
    assert [r][..0] == [];
    assert AdmittedRecords([r]) == [];
    assert AdmittedRecords(t.records) == AdmittedRecords(s.records);
    assert Admitted([t]) == if IsAdmitted(s) then [t] else [] by {
      assert [t][..0] == [];
    }
    assert Admitted([s]) == if IsAdmitted(s) then [s] else [] by {
      assert [s][..0] == [];
    }
    AdmittedConcat(a + [t], b);
    AdmittedConcat(a, [t]);
    AdmittedConcat(a + [s], b);
    AdmittedConcat(a, [s]);
    assert SessionFine(t) == SessionFine(s) && SessionView(t) == SessionView(s) && t.id == s.id;
    hide SessionFine, SessionView, AdmittedRecords, Admitted, IsAdmitted;
    SameButOne(a, s, t, b);
  }

  lemma SameButOne(a: seq<RawSession>, s: RawSession, t: RawSession, b: seq<RawSession>)
    requires Admitted(a + [t] + b) == Admitted(a) + (if IsAdmitted(s) then [t] else []) + Admitted(b)
    requires Admitted(a + [s] + b) == Admitted(a) + (if IsAdmitted(s) then [s] else []) + Admitted(b)
    requires SessionFine(t) == SessionFine(s) && SessionView(t) == SessionView(s) && t.id == s.id
    ensures CheckInput(a + [t] + b) == CheckInput(a + [s] + b)
  {
    hide SessionFine, SessionView, SortById, Admitted, IsAdmitted;
    var p, q := Admitted(a + [t] + b), Admitted(a + [s] + b);
    assert |p| == |q| && forall k :: 0 <= k < |p| ==>
      p[k].id == q[k].id && SessionFine(p[k]) == SessionFine(q[k]) && SessionView(p[k]) == SessionView(q[k]);
    assert SessionViews(p) == SessionViews(q);
    assert IdsDiffer(p) == IdsDiffer(q);
  }

  // ---- What the answer shows -------------------------------------------------

  /** `at` lists, in order, the places of all records not known to be another person's. */
  ghost predicate KeptAt(records: seq<RawRecord>, at: seq<nat>) {
    && (forall j, k :: 0 <= j < k < |at| ==> at[j] < at[k])
    && (forall k :: 0 <= k < |at| ==> at[k] < |records| && records[at[k]].attribution != NonSubject)
    && (forall i: nat :: i < |records| && records[i].attribution != NonSubject ==> i in at)
  }

  ghost predicate RecordShown(v: VerifiedRecord, r: RawRecord) {
    && v.index == r.index && v.raw == r.raw && v.commitment == r.commitment && v.attribution == r.attribution
    && (v.generation.None? <==> r.generation.None?)
    && (r.generation.Some? ==> v.generation.value == r.generation.value)
  }

  ghost predicate TimeShown(v: Option<int>, g: Given) {
    g == if v.Some? then At(v.value) else Absent
  }

  /** The view has the session's own fields and, in order, the records at these places. */
  ghost predicate SessionShown(v: VerifiedSession, s: RawSession, at: seq<nat>) {
    && v.id == s.id && v.parent == s.parent && v.repo == s.repo
    && v.headBefore == s.headBefore && v.headAfter == s.headAfter
    && v.startRow == s.startRow && v.endRow == s.endRow && v.bindings == s.bindings
    && TimeShown(v.startedAt, s.startedAt) && TimeShown(v.endedAt, s.endedAt)
    && KeptAt(s.records, at) && |v.records| == |at|
    && forall k :: 0 <= k < |at| ==> RecordShown(v.records[k], s.records[at[k]])
  }

  lemma {:induction false} KeptPlaces(records: seq<RawRecord>) returns (at: seq<nat>)
    ensures KeptAt(records, at) && |at| == |AdmittedRecords(records)|
    ensures forall k :: 0 <= k < |at| ==> at[k] < |records| && AdmittedRecords(records)[k] == records[at[k]]
  {
    if records == [] {
      at := [];
    } else {
      var n := |records| - 1;
      var before := KeptPlaces(records[..n]);
      at := if records[n].attribution != NonSubject then before + [n] else before;
      KeptMore(records, before, at);
      hide KeptAt;
    }
  }

  lemma KeptMore(records: seq<RawRecord>, before: seq<nat>, at: seq<nat>)
    requires records != [] && KeptAt(records[..|records| - 1], before)
    requires var n := |records| - 1; at == if records[n].attribution != NonSubject then before + [n] else before
    ensures KeptAt(records, at)
  {
    var n := |records| - 1;
    forall i: nat | i < |records| && records[i].attribution != NonSubject
      ensures i in at
    {
      if i < n {
        assert records[..n][i] == records[i];
        assert i in before;
      } else {
        assert at[|before|] == n;
      }
    }
  }

  lemma FineShown(s: RawSession) returns (at: seq<nat>)
    requires SessionFine(s)
    ensures SessionShown(SessionView(s), s, at)
    ensures at != [] <==> AdmittedRecords(s.records) != []
  {
    at := KeptPlaces(s.records);
    var kept := AdmittedRecords(s.records);
    forall k | 0 <= k < |at|
      ensures RecordShown(SessionView(s).records[k], s.records[at[k]])
    {
      assert RecordFine(kept[k]) && kept[k].index >= 0;
    }
  }

  lemma AdmittedIff(s: RawSession)
    ensures IsAdmitted(s) <==> !Excluded(s)
  {
    AdmittedRecordsHold(s.records);
    if IsAdmitted(s) {
      assert AdmittedRecords(s.records)[0] in AdmittedRecords(s.records);
    }
  }

  lemma AdmittedAround(raw: seq<RawSession>, i: nat)
    requires i < |raw| && !Excluded(raw[i])
    ensures Admitted(raw) == Admitted(raw[..i]) + [raw[i]] + Admitted(raw[i + 1..])
  {
    AdmittedOne(raw[i]);
    hide Admitted, Excluded;
    assert raw == raw[..i] + [raw[i]] + raw[i + 1..];
    AdmittedConcat(raw[..i] + [raw[i]], raw[i + 1..]);
    AdmittedConcat(raw[..i], [raw[i]]);
  }

  /** Two sessions that are not excluded stand in their order among the admitted ones. */
  lemma AdmittedPair(raw: seq<RawSession>, i: nat, j: nat) returns (p: nat, q: nat)
    requires i < j < |raw| && !Excluded(raw[i]) && !Excluded(raw[j])
    ensures p < q < |Admitted(raw)| && Admitted(raw)[p] == raw[i] && Admitted(raw)[q] == raw[j]
  {
    hide Admitted, Excluded;
    var front := raw[..j];
    p, q := |Admitted(raw[..i])|, |Admitted(front)|;
    assert front[..i] == raw[..i] && front[i] == raw[i];
    AdmittedAround(front, i);
    AdmittedAround(raw, j);
    assert Admitted(front)[p] == raw[i];
  }

  /** One view of the answer, and the session it shows. */
  lemma ViewShows(raw: seq<RawSession>, n: nat) returns (i: nat, at: seq<nat>)
    requires CheckInput(raw).Some? && n < |CheckInput(raw).value|
    ensures i < |raw| && !Excluded(raw[i]) && SessionShown(CheckInput(raw).value[n], raw[i], at)
  {
    AdmittedAll(raw);
    var views := SessionViews(Admitted(raw));
    SortHolds(views);
    hide SessionFine, SessionView, SortById, SessionShown, Excluded, IsAdmitted, Admitted;
    assert CheckInput(raw).value[n] in views;
    var j :| 0 <= j < |views| && views[j] == CheckInput(raw).value[n];
    var s := Admitted(raw)[j];
    assert s in Admitted(raw);
    i :| 0 <= i < |raw| && raw[i] == s;
    AdmittedIff(s);
    at := FineShown(s);
  }

  /** A session that is not excluded has its view. */
  lemma ShownSomewhere(raw: seq<RawSession>, i: nat) returns (n: nat)
    requires CheckInput(raw).Some? && i < |raw| && !Excluded(raw[i])
    ensures n < |CheckInput(raw).value| && CheckInput(raw).value[n].id == raw[i].id
  {
    AdmittedAll(raw);
    AdmittedIff(raw[i]);
    var views := SessionViews(Admitted(raw));
    SortHolds(views);
    assert SessionView(raw[i]).id == raw[i].id;
    hide SessionFine, SessionView, SortById, Excluded, IsAdmitted, Admitted;
    assert raw[i] in Admitted(raw);
    var j :| 0 <= j < |Admitted(raw)| && Admitted(raw)[j] == raw[i];
    assert views[j] in CheckInput(raw).value;
    n :| 0 <= n < |CheckInput(raw).value| && CheckInput(raw).value[n] == views[j];
  }

  /** No two sessions that are not excluded have one id. */
  lemma OnePlace(raw: seq<RawSession>, i: nat, j: nat)
    requires CheckInput(raw).Some? && i < |raw| && j < |raw| && !Excluded(raw[i]) && !Excluded(raw[j])
    requires raw[i].id == raw[j].id
    ensures i == j
  {
    hide Admitted, Excluded, SessionFine, SortById;
    if i < j {
      var p, q := AdmittedPair(raw, i, j);
    } else if j < i {
      var p, q := AdmittedPair(raw, j, i);
    }
  }

  /** The answer has exactly one view for each session that is the subject's and has a record not known
      to be another person's, in order of id; each view shows that session with all such records, in
      their order, and no others. */
  lemma AnswerShows(raw: seq<RawSession>) returns (from: seq<nat>, at: seq<seq<nat>>)
    requires CheckInput(raw).Some?
    ensures var v := CheckInput(raw).value;
            && |from| == |at| == |v|
            && (forall j, k :: 0 <= j < k < |v| ==> v[j].id < v[k].id)
            && (forall k :: 0 <= k < |v| ==>
                  from[k] < |raw| && !Excluded(raw[from[k]]) && SessionShown(v[k], raw[from[k]], at[k]))
            && (forall i: nat :: i < |raw| && !Excluded(raw[i]) ==> i in from)
  {
    var v := CheckInput(raw).value;
    CheckedInput(raw);
    assert forall j, k :: 0 <= j < k < |v| ==> v[j].id < v[k].id;
    forall n, s: RawSession, places | 0 <= n < |v| && SessionShown(v[n], s, places)
      ensures v[n].id == s.id
    {
    }
    hide CheckInput, Excluded, Checked, SessionShown;
    from, at := [], [];
    for n := 0 to |v|
      invariant |from| == |at| == n
      invariant forall k :: 0 <= k < n ==>
                  from[k] < |raw| && !Excluded(raw[from[k]]) && SessionShown(v[k], raw[from[k]], at[k])
    {
      var i, places := ViewShows(raw, n);
      from, at := from + [i], at + [places];
    }
    forall i: nat | i < |raw| && !Excluded(raw[i])
      ensures i in from
    {
      var n := ShownSomewhere(raw, i);
      assert SessionShown(v[n], raw[from[n]], at[n]);
      OnePlace(raw, i, from[n]);
    }
  }

  // ---- When there is an answer -----------------------------------------------

  /** Row bounds come together, with the repository and heads they belong to. */
  ghost predicate RangeGiven(s: RawSession) {
    && (s.startRow.Some? || s.endRow.Some? ==>
          && s.startRow.Some? && s.endRow.Some? && s.startRow.value < s.endRow.value
          && s.repo.Some? && s.headBefore.Some? && s.headAfter.Some?)
    && (forall j, k :: 0 <= j < k < |s.bindings| ==> s.bindings[j].rowIndex < s.bindings[k].rowIndex)
  }

  ghost predicate TimesGiven(s: RawSession) {
    && !s.startedAt.Malformed? && !s.endedAt.Malformed?
    && (s.startedAt.At? && s.endedAt.At? ==> s.startedAt.micros <= s.endedAt.micros)
  }

  ghost predicate RecordsGiven(records: seq<RawRecord>) {
    forall k :: 0 <= k < |records| && records[k].attribution != NonSubject ==> RecordGiven(records[k])
  }

  ghost predicate RecordGiven(r: RawRecord) {
    r.wellFormed && r.index >= 0 && (r.generation.Some? ==> r.generation.value >= 0)
  }

  ghost predicate IndexesGiven(records: seq<RawRecord>) {
    forall j, k :: (0 <= j < k < |records|
      && records[j].attribution != NonSubject && records[k].attribution != NonSubject) ==>
        records[j].index < records[k].index
  }

  /** What is demanded of a session that is not excluded, and of its records that are not. */
  ghost predicate WellGiven(s: RawSession) {
    && s.expectedSource && s.wellFormed && s.parent != Some(s.id)
    && RangeGiven(s) && TimesGiven(s) && RecordsGiven(s.records) && IndexesGiven(s.records)
  }

  lemma FineIff(s: RawSession)
    ensures SessionFine(s) <==> WellGiven(s)
  {
    var at := KeptPlaces(s.records);
    var kept := AdmittedRecords(s.records);
    KeptFineIff(s.records, at, kept);
    KeptRiseIff(s.records, at, kept);
    RangeIff(s);
    hide AdmittedRecords, KeptAt, RowsFine, TimesFine, RangeGiven, TimesGiven, RecordsGiven, IndexesGiven;
  }

  lemma RangeIff(s: RawSession)
    ensures RowsFine(s) <==> RangeGiven(s)
    ensures TimesFine(s) <==> TimesGiven(s)
  {
  }

  lemma KeptFineIff(records: seq<RawRecord>, at: seq<nat>, kept: seq<RawRecord>)
    requires KeptAt(records, at) && |at| == |kept|
    requires forall k :: 0 <= k < |at| ==> at[k] < |records| && kept[k] == records[at[k]]
    ensures (forall k :: 0 <= k < |kept| ==> RecordFine(kept[k]) && kept[k].index >= 0) <==> RecordsGiven(records)
  {
    if forall k :: 0 <= k < |kept| ==> RecordFine(kept[k]) && kept[k].index >= 0 {
      forall k: nat | k < |records| && records[k].attribution != NonSubject
        ensures RecordGiven(records[k])
      {
        assert k in at;
        var n :| 0 <= n < |at| && at[n] == k;
        assert RecordFine(kept[n]);
      }
    }
    if RecordsGiven(records) {
      forall k | 0 <= k < |kept|
        ensures RecordFine(kept[k]) && kept[k].index >= 0
      {
        assert RecordGiven(records[at[k]]);
      }
    }
  }

  lemma KeptRiseIff(records: seq<RawRecord>, at: seq<nat>, kept: seq<RawRecord>)
    requires KeptAt(records, at) && |at| == |kept|
    requires forall k :: 0 <= k < |at| ==> at[k] < |records| && kept[k] == records[at[k]]
    ensures (forall j, k :: 0 <= j < k < |kept| ==> kept[j].index < kept[k].index) <==> IndexesGiven(records)
  {
    if forall j, k :: 0 <= j < k < |kept| ==> kept[j].index < kept[k].index {
      forall j: nat, k: nat | j < k < |records|
        && records[j].attribution != NonSubject && records[k].attribution != NonSubject
        ensures records[j].index < records[k].index
      {
        assert j in at && k in at;
        var m :| 0 <= m < |at| && at[m] == j;
        var n :| 0 <= n < |at| && at[n] == k;
        assert m < n;
        assert kept[m].index < kept[n].index;
      }
    }
  }

  /** The check answers exactly when there is input, what is not excluded is in order, and no two
      sessions that are not excluded have one id. */
  lemma AnswersIff(raw: seq<RawSession>)
    ensures CheckInput(raw).Some? <==>
            && raw != []
            && (forall k: nat :: k < |raw| && !Excluded(raw[k]) ==> WellGiven(raw[k]))
            && (forall j: nat, k: nat :: j < k < |raw| && !Excluded(raw[j]) && !Excluded(raw[k]) ==>
                  raw[j].id != raw[k].id)
  {
    AdmittedAll(raw);
    hide SessionFine, SortById, Excluded, IsAdmitted, Admitted, WellGiven;
    var admitted := Admitted(raw);
    if CheckInput(raw).Some? {
      forall k: nat | k < |raw| && !Excluded(raw[k])
        ensures WellGiven(raw[k])
      {
        AdmittedIff(raw[k]);
        assert raw[k] in admitted;
        FineIff(raw[k]);
      }
      forall j: nat, k: nat | j < k < |raw| && !Excluded(raw[j]) && !Excluded(raw[k])
        ensures raw[j].id != raw[k].id
      {
        if raw[j].id == raw[k].id {
          OnePlace(raw, j, k);
        }
      }
    } else if raw != [] {
      if n :| 0 <= n < |admitted| && !SessionFine(admitted[n]) {
        assert admitted[n] in admitted;
        var k :| 0 <= k < |raw| && raw[k] == admitted[n];
        AdmittedIff(raw[k]);
        FineIff(raw[k]);
      } else {
        var m, n :| 0 <= m < n < |admitted| && admitted[m].id == admitted[n].id;
        var j, k := PlacesOf(raw, m, n);
        assert raw[j].id == raw[k].id;
      }
    }
  }

  /** Two admitted sessions stand in their order in the input. */
  lemma {:induction false} PlacesOf(raw: seq<RawSession>, m: nat, n: nat) returns (j: nat, k: nat)
    requires m < n < |Admitted(raw)|
    ensures j < k < |raw| && Admitted(raw)[m] == raw[j] && Admitted(raw)[n] == raw[k]
    ensures !Excluded(raw[j]) && !Excluded(raw[k])
  {
    var last := |raw| - 1;
    var init := raw[..last];
    if n < |Admitted(init)| {
      j, k := PlacesOf(init, m, n);
    } else {
      AdmittedAll(init);
      AdmittedIff(raw[last]);
      k := last;
      assert Admitted(init)[m] in Admitted(init);
      j :| 0 <= j < |init| && init[j] == Admitted(init)[m];
      AdmittedIff(init[j]);
    }
  }
}
