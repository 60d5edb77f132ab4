/** The input check with its consent filter, and what the filter guarantees: nothing that it leaves
out can change what is written.
*/
module Admission {
  import opened Records
  import opened Transcripts

  /** A timestamp as the caller gives it. */
  datatype Given = Absent | Malformed | At(micros: int)

  /** `wellFormed` stands for the checks of types, framing and regular expressions. */
  datatype RawRecord = RawRecord(index: int, raw: Bytes, commitment: Digest, attribution: Attribution,
                                 generation: Option<int>, wellFormed: bool)

  datatype RawSession = RawSession(
    owned: bool, expectedSource: bool, wellFormed: bool, id: nat, root: Digest, records: seq<RawRecord>,
    parent: Option<nat>, repo: Option<nat>, headBefore: Option<nat>, headAfter: Option<nat>,
    startRow: Option<nat>, endRow: Option<nat>, bindings: seq<BindingObservation>, startedAt: Given, endedAt: Given)

  function AdmittedRecords(records: seq<RawRecord>): seq<RawRecord> {
    if records == [] then []
    else AdmittedRecords(records[..|records| - 1]) +
         (if records[|records| - 1].attribution != NonSubject then [records[|records| - 1]] else [])
  }

  /** Sessions and records that are known not to be the subject's are dropped unread. */
  predicate IsAdmitted(s: RawSession) {
    s.owned && AdmittedRecords(s.records) != []
  }

  // ---- What the check demands of an admitted session -------------------------

  predicate IndexesRise(records: seq<RawRecord>) {
    (forall k :: 0 <= k < |records| ==> records[k].index >= 0)
    && forall j, k :: 0 <= j < k < |records| ==> records[j].index < records[k].index
  }

  predicate RecordFine(r: RawRecord) {
    r.wellFormed && (r.generation.Some? ==> r.generation.value >= 0)
  }

  predicate RowsFine(s: RawSession) {
    && (s.startRow.Some? <==> s.endRow.Some?)
    && (s.startRow.Some? ==> s.repo.Some? && s.headBefore.Some? && s.headAfter.Some?)
    && (s.startRow.Some? && s.endRow.Some? ==> s.startRow.value < s.endRow.value)
    && (forall j, k :: 0 <= j < k < |s.bindings| ==> s.bindings[j].rowIndex < s.bindings[k].rowIndex)
  }

  predicate TimesFine(s: RawSession) {
    && s.startedAt != Malformed && s.endedAt != Malformed
    && (s.startedAt.At? && s.endedAt.At? ==> s.startedAt.micros <= s.endedAt.micros)
  }

  predicate SessionFine(s: RawSession) {
    var records := AdmittedRecords(s.records);
    && s.expectedSource && s.wellFormed && s.parent != Some(s.id) && RowsFine(s) && TimesFine(s)
    && (forall k :: 0 <= k < |records| ==> RecordFine(records[k]))
    && IndexesRise(records)
  }

  // ---- The checked view ------------------------------------------------------

  function RecordView(r: RawRecord): VerifiedRecord {
    VerifiedRecord(if r.index < 0 then 0 else r.index, r.raw, r.commitment, r.attribution,
                   if r.generation.Some? && r.generation.value >= 0 then Some(r.generation.value) else None)
  }

  function Views(records: seq<RawRecord>): (v: seq<VerifiedRecord>)
    ensures |v| == |records| && forall k :: 0 <= k < |v| ==> v[k] == RecordView(records[k])
  {
    seq(|records|, k requires 0 <= k < |records| => RecordView(records[k]))
  }

  function TimeOf(g: Given): Option<int> {
    if g.At? then Some(g.micros) else None
  }

  function SessionView(s: RawSession): VerifiedSession {
    VerifiedSession(s.id, Views(AdmittedRecords(s.records)), s.parent, s.repo, s.headBefore, s.headAfter,
                    s.startRow, s.endRow, s.bindings, TimeOf(s.startedAt), TimeOf(s.endedAt))
  }

  function Admitted(raw: seq<RawSession>): seq<RawSession> {
    if raw == [] then []
    else Admitted(raw[..|raw| - 1]) + (if IsAdmitted(raw[|raw| - 1]) then [raw[|raw| - 1]] else [])
  }

  function PlaceById(s: VerifiedSession, sorted: seq<VerifiedSession>): seq<VerifiedSession> {
    if sorted == [] || s.id < sorted[0].id then [s] + sorted else [sorted[0]] + PlaceById(s, sorted[1..])
  }

  function SortById(sessions: seq<VerifiedSession>): seq<VerifiedSession> {
    if sessions == [] then [] else PlaceById(sessions[|sessions| - 1], SortById(sessions[..|sessions| - 1]))
  }

  function SessionViews(raw: seq<RawSession>): (v: seq<VerifiedSession>)
    ensures |v| == |raw| && forall k :: 0 <= k < |v| ==> v[k] == SessionView(raw[k])
  {
    seq(|raw|, k requires 0 <= k < |raw| => SessionView(raw[k]))
  }

  predicate IdsDiffer(raw: seq<RawSession>) {
    forall j, k :: 0 <= j < k < |raw| ==> raw[j].id != raw[k].id
  }

  /** `_check_input_sessions`: None where it raises. */
  function CheckInput(raw: seq<RawSession>): Option<seq<VerifiedSession>> {
    var admitted := Admitted(raw);
    if raw == [] || !IdsDiffer(admitted) || exists k :: 0 <= k < |admitted| && !SessionFine(admitted[k]) then None
    else Some(SortById(SessionViews(admitted)))
  }

  method CheckInputSessions(raw: seq<RawSession>) returns (r: Option<seq<VerifiedSession>>)
    ensures r == CheckInput(raw)
  {
    if raw == [] {
      return None;
    }
    hide SessionFine, AdmittedRecords, SortById, IsAdmitted, SessionView, Admitted, Scanned;
    var checked: seq<VerifiedSession> := [];
    var seen: set<nat> := {};
    ScanStarts(raw);
    for k := 0 to |raw|
      invariant Scanned(raw, k, seen, checked)
    {
      var s := raw[k];
      ScanNext(raw, k, seen, checked);
      if !IsAdmitted(s) {
        continue;
      }
      if s.id in seen {
        return None;
      }
      if !SessionFine(s) {
        return None;
      }
      seen := seen + {s.id};
      checked := checked + [SessionView(s)];
    }
    ScanEnds(raw, seen, checked);
    r := Some(SortById(checked));
  }

  /** What the loop knows after the first `k` sessions: all admitted ones are fine and differ. */
  ghost predicate Scanned(raw: seq<RawSession>, k: nat, seen: set<nat>, checked: seq<VerifiedSession>) {
    k <= |raw| &&
    var admitted := Admitted(raw[..k]);
    && (forall j :: 0 <= j < |admitted| ==> SessionFine(admitted[j])) && IdsDiffer(admitted)
    && (forall id :: id in seen <==> exists j :: 0 <= j < |admitted| && admitted[j].id == id)
    && checked == SessionViews(admitted)
  }

  lemma ScanStarts(raw: seq<RawSession>)
    ensures Scanned(raw, 0, {}, [])
  {
    assert raw[..0] == [];
  }

  lemma ScanEnds(raw: seq<RawSession>, seen: set<nat>, checked: seq<VerifiedSession>)
    requires Scanned(raw, |raw|, seen, checked) && raw != []
    ensures CheckInput(raw) == Some(SortById(checked))
  {
    hide SessionFine, SortById;
    assert raw[..|raw|] == raw;
  }

  lemma ScanNext(raw: seq<RawSession>, k: nat, seen: set<nat>, checked: seq<VerifiedSession>)
    requires Scanned(raw, k, seen, checked) && k < |raw|
    ensures !IsAdmitted(raw[k]) ==> Scanned(raw, k + 1, seen, checked)
    ensures IsAdmitted(raw[k]) && (raw[k].id in seen || !SessionFine(raw[k])) ==> CheckInput(raw) == None
    ensures IsAdmitted(raw[k]) && raw[k].id !in seen && SessionFine(raw[k]) ==>
              Scanned(raw, k + 1, seen + {raw[k].id}, checked + [SessionView(raw[k])])
  {
    hide SessionFine, SortById, IsAdmitted, SessionView, CheckInput, Admitted;
    AdmittedStep(raw, k);
    var admitted, more := Admitted(raw[..k]), Admitted(raw[..k + 1]);
    if !IsAdmitted(raw[k]) {
      assert more == admitted;
    } else if raw[k].id in seen {
      var n := |admitted|;
      assert more[n] == raw[k] && Admitted(raw)[n] == raw[k];
      var j :| 0 <= j < n && admitted[j].id == raw[k].id;
      assert Admitted(raw)[j] == more[j];
      Refused(raw, j, n);
    } else if !SessionFine(raw[k]) {
      assert more[|admitted|] == raw[k] && Admitted(raw)[|admitted|] == raw[k];
      Refused(raw, |admitted|, |admitted|);
    } else {
      ScanTakes(admitted, raw[k], seen, checked);
    }
  }

  /** An admitted, fine, new session extends everything `Scanned` says by one. */
  lemma ScanTakes(admitted: seq<RawSession>, s: RawSession, seen: set<nat>, checked: seq<VerifiedSession>)
    requires (forall j :: 0 <= j < |admitted| ==> SessionFine(admitted[j])) && IdsDiffer(admitted)
    requires forall id :: id in seen <==> exists j :: 0 <= j < |admitted| && admitted[j].id == id
    requires checked == SessionViews(admitted)
    requires s.id !in seen && SessionFine(s)
    ensures forall j :: 0 <= j < |admitted| + 1 ==> SessionFine((admitted + [s])[j])
    ensures IdsDiffer(admitted + [s])
    ensures forall id :: id in seen + {s.id} <==> exists j :: 0 <= j < |admitted| + 1 && (admitted + [s])[j].id == id
    ensures checked + [SessionView(s)] == SessionViews(admitted + [s])
  {
    hide SessionFine, SessionView;
    var n, more := |admitted|, admitted + [s];
    forall id
      ensures id in seen + {s.id} <==> exists j :: 0 <= j < n + 1 && more[j].id == id
    {
      if id in seen {
        var j :| 0 <= j < n && admitted[j].id == id;
        assert more[j].id == id;
      }
      if id == s.id {
        assert more[n].id == id;
      }
    }
  }

  lemma Refused(raw: seq<RawSession>, j: nat, n: nat)
    requires j <= n < |Admitted(raw)|
    requires !SessionFine(Admitted(raw)[n]) || (j < n && Admitted(raw)[j].id == Admitted(raw)[n].id)
    ensures CheckInput(raw) == None
  {
    hide SessionFine, SortById;
  }

  lemma AdmittedStep(raw: seq<RawSession>, k: nat)
    requires k < |raw|
    ensures Admitted(raw[..k + 1]) == Admitted(raw[..k]) + (if IsAdmitted(raw[k]) then [raw[k]] else [])
    ensures Admitted(raw[..k + 1]) <= Admitted(raw)
  {
    assert raw[..k + 1][..k] == raw[..k];
    AdmittedGrows(raw, k + 1);
  }

  lemma {:induction false} AdmittedGrows(raw: seq<RawSession>, k: nat)
    requires k <= |raw|
    ensures Admitted(raw[..k]) <= Admitted(raw)
    decreases |raw| - k
  {
    if k == |raw| {
      assert raw[..k] == raw;
    } else {
      AdmittedGrows(raw, k + 1);
      assert raw[..k + 1][..k] == raw[..k];
    }
  }

  // ---- Sorting ---------------------------------------------------------------

  ghost predicate ById(sessions: seq<VerifiedSession>) {
    forall j, k :: 0 <= j < k < |sessions| ==> sessions[j].id < sessions[k].id
  }

  lemma ConsById(first: VerifiedSession, rest: seq<VerifiedSession>)
    requires ById(rest) && forall o :: o in rest ==> first.id < o.id
    ensures ById([first] + rest)
  {
    var all := [first] + rest;
    forall j, k | 0 <= j < k < |all|
      ensures all[j].id < all[k].id
    {
      assert all[k] == rest[k - 1] && rest[k - 1] in rest;
    }
  }

  lemma {:induction false} PlaceHolds(s: VerifiedSession, sorted: seq<VerifiedSession>)
    requires ById(sorted) && forall o :: o in sorted ==> o.id != s.id
    ensures ById(PlaceById(s, sorted)) && forall o :: o in PlaceById(s, sorted) <==> o in sorted || o == s
  {
    var placed := PlaceById(s, sorted);
    if sorted == [] || s.id < sorted[0].id {
      assert placed == [s] + sorted;
    } else {
      assert sorted == [sorted[0]] + sorted[1..];
      PlaceHolds(s, sorted[1..]);
      hide PlaceById;
      ConsById(sorted[0], PlaceById(s, sorted[1..]));
    }
  }

  lemma {:induction false} SortHolds(sessions: seq<VerifiedSession>)
    requires forall j, k :: 0 <= j < k < |sessions| ==> sessions[j].id != sessions[k].id
    ensures ById(SortById(sessions)) && forall o :: o in SortById(sessions) <==> o in sessions
  {
    if sessions != [] {
      var n := |sessions| - 1;
      SortHolds(sessions[..n]);
      assert sessions == sessions[..n] + [sessions[n]];
      forall o | o in SortById(sessions[..n])
        ensures o.id != sessions[n].id
      {
        var j :| 0 <= j < n && sessions[..n][j] == o;
      }
      PlaceHolds(sessions[n], SortById(sessions[..n]));
    }
  }

  lemma {:induction false} SortedUnique(a: seq<VerifiedSession>, b: seq<VerifiedSession>)
    requires ById(a) && ById(b) && forall o :: o in a <==> o in b
    ensures a == b
    decreases |a|
  {
    assert forall k :: 0 <= k < |a| ==> a[k] in a;
    assert forall k :: 0 <= k < |b| ==> b[k] in b;
    if |a| > 0 && |b| > 0 {
      forall o
        ensures o in a[1..] <==> o in b[1..]
      {
        assert o in a[1..] <==> o in a && o != a[0];
        assert o in b[1..] <==> o in b && o != b[0];
      }
      SortedUnique(a[1..], b[1..]);
    }
  }

  lemma {:induction false} AdmittedRecordsHold(records: seq<RawRecord>)
    ensures forall r :: r in AdmittedRecords(records) <==> r in records && r.attribution != NonSubject
  {
    if records != [] {
      var n := |records| - 1;
      AdmittedRecordsHold(records[..n]);
      assert records == records[..n] + [records[n]];
    }
  }

  lemma FineIsChecked(s: RawSession)
    requires SessionFine(s) && AdmittedRecords(s.records) != []
    ensures SessionChecked(SessionView(s))
  {
    var records := AdmittedRecords(s.records);
    AdmittedRecordsHold(s.records);
    forall r | r in Views(records)
      ensures r.attribution != NonSubject
    {
      var k :| 0 <= k < |records| && Views(records)[k] == r;
      assert records[k] in records;
    }
  }

  lemma {:induction false} AdmittedAll(raw: seq<RawSession>)
    ensures forall s :: s in Admitted(raw) <==> s in raw && IsAdmitted(s)
  {
    if raw != [] {
      var n := |raw| - 1;
      AdmittedAll(raw[..n]);
      assert raw == raw[..n] + [raw[n]];
    }
  }

  /** What passes the check is fit for the producers. */
  lemma CheckedInput(raw: seq<RawSession>)
    requires CheckInput(raw).Some?
    ensures Checked(CheckInput(raw).value)
  {
    var admitted := Admitted(raw);
    var views := SessionViews(admitted);
    AdmittedAll(raw);
    SortHolds(views);
    hide SortById, SessionFine, SessionView, AdmittedRecords, SessionChecked;
    forall v | v in SortById(views)
      ensures SessionChecked(v)
    {
      var k :| 0 <= k < |views| && views[k] == v;
      assert admitted[k] in admitted;
      FineIsChecked(admitted[k]);
    }
  }

  // ---- Renumbering -----------------------------------------------------------

  function RenumberedRecords(records: seq<VerifiedRecord>): (r: seq<VerifiedRecord>)
    ensures |r| == |records| && forall k :: 0 <= k < |r| ==> r[k] == records[k].(index := k)
  {
    seq(|records|, k requires 0 <= k < |records| => records[k].(index := k))
  }

  /** The same session with its records counted from zero. */
  function Renumbered(s: VerifiedSession): VerifiedSession {
    s.(records := RenumberedRecords(s.records))
  }

  function AllRenumbered(sessions: seq<VerifiedSession>): (r: seq<VerifiedSession>)
    ensures |r| == |sessions| && forall k :: 0 <= k < |r| ==> r[k] == Renumbered(sessions[k])
  {
    seq(|sessions|, k requires 0 <= k < |sessions| => Renumbered(sessions[k]))
  }

  lemma RenumberedChecked(sessions: seq<VerifiedSession>)
    requires Checked(sessions)
    ensures Checked(AllRenumbered(sessions)) && Nodes(AllRenumbered(sessions)) == Nodes(sessions)
  {
    var again := AllRenumbered(sessions);
    forall v | v in again
      ensures SessionChecked(v)
    {
      var k :| 0 <= k < |again| && again[k] == v;
      assert sessions[k] in sessions && SessionChecked(sessions[k]);
      forall r | r in v.records
        ensures r.attribution != NonSubject
      {
        var j :| 0 <= j < |v.records| && v.records[j] == r;
        assert sessions[k].records[j] in sessions[k].records;
      }
    }
    assert forall k :: 0 <= k < |sessions| ==> Nodes(again)[k] == Nodes(sessions)[k];
  }

  /** An admitted session as the filter sees it: whether it passes, and its view up to numbering. */
  datatype Form = Form(session: VerifiedSession, fine: bool)

  function FormOf(s: RawSession): Form {
    Form(Renumbered(SessionView(s)), SessionFine(s))
  }

  function Forms(admitted: seq<RawSession>): (r: seq<Form>)
    ensures |r| == |admitted| && forall k :: 0 <= k < |r| ==> r[k] == FormOf(admitted[k])
  {
    seq(|admitted|, k requires 0 <= k < |admitted| => FormOf(admitted[k]))
  }

  /** Two inputs that admit the same, up to the order of sessions and the numbering of records. */
  ghost predicate SameAdmission(a: seq<RawSession>, b: seq<RawSession>) {
    a != [] && b != [] && multiset(Forms(Admitted(a))) == multiset(Forms(Admitted(b)))
  }

  /** Ids are distinct exactly when each form's id belongs to one place only. */
  ghost predicate FormsDiffer(forms: multiset<Form>) {
    && (forall f :: f in forms ==> forms[f] == 1)
    && (forall f, g :: f in forms && g in forms && f != g ==> f.session.id != g.session.id)
  }

  lemma FormKeepsId(s: RawSession)
    ensures FormOf(s).session.id == s.id
  {
  }

  lemma DifferentForms(raw: seq<RawSession>)
    requires IdsDiffer(raw)
    ensures FormsDiffer(multiset(Forms(raw)))
  {
    hide FormOf;
    var forms := Forms(raw);
    forall k | 0 <= k < |raw|
      ensures forms[k].session.id == raw[k].id
    {
      FormKeepsId(raw[k]);
    }
    forall f | f in multiset(forms)
      ensures multiset(forms)[f] == 1
    {
      assert f in forms;
      var k :| 0 <= k < |forms| && forms[k] == f;
      OneOccurrence(forms, k);
    }
  }

  lemma FormsDifferentIds(raw: seq<RawSession>)
    requires FormsDiffer(multiset(Forms(raw)))
    ensures IdsDiffer(raw)
  {
    hide FormOf;
    var forms := Forms(raw);
    forall j, k | 0 <= j < k < |raw|
      ensures raw[j].id != raw[k].id
    {
      FormKeepsId(raw[j]);
      FormKeepsId(raw[k]);
      assert forms[j] in multiset(forms) && forms[k] in multiset(forms);
      if forms[j] == forms[k] {
        TwoOccurrences(forms, j, k);
      }
    }
  }

  lemma DifferByMultiset(raw: seq<RawSession>)
    ensures IdsDiffer(raw) <==> FormsDiffer(multiset(Forms(raw)))
  {
    hide *;
    if IdsDiffer(raw) {
      DifferentForms(raw);
    }
    if FormsDiffer(multiset(Forms(raw))) {
      FormsDifferentIds(raw);
    }
  }

  lemma OneOccurrence(forms: seq<Form>, k: nat)
    requires k < |forms| && forall j :: 0 <= j < |forms| && j != k ==> forms[j] != forms[k]
    ensures multiset(forms)[forms[k]] == 1
  {
    assert forms == forms[..k] + [forms[k]] + forms[k + 1..];
    assert forms[k] !in forms[..k] && forms[k] !in forms[k + 1..];
    assert multiset(forms) == multiset(forms[..k]) + multiset{forms[k]} + multiset(forms[k + 1..]);
  }

  lemma TwoOccurrences(forms: seq<Form>, j: nat, k: nat)
    requires j < k < |forms| && forms[j] == forms[k]
    ensures multiset(forms)[forms[j]] >= 2
  {
    assert forms == forms[..j] + [forms[j]] + forms[j + 1..k] + [forms[k]] + forms[k + 1..];
    assert multiset(forms) == multiset(forms[..j]) + multiset{forms[j]} + multiset(forms[j + 1..k])
           + multiset{forms[k]} + multiset(forms[k + 1..]);
  }

  lemma SameAnswer(a: seq<RawSession>, b: seq<RawSession>)
    requires SameAdmission(a, b)
    ensures CheckInput(a).Some? <==> CheckInput(b).Some?
  {
    DifferByMultiset(Admitted(a));
    DifferByMultiset(Admitted(b));
    FineByMultiset(Admitted(a));
    FineByMultiset(Admitted(b));
  }

  lemma FineByMultiset(raw: seq<RawSession>)
    ensures (exists k :: 0 <= k < |raw| && !SessionFine(raw[k])) <==> exists f :: f in multiset(Forms(raw)) && !f.fine
  {
    var forms := Forms(raw);
    if k :| 0 <= k < |raw| && !SessionFine(raw[k]) {
      assert forms[k] in multiset(forms);
    }
    if f: Form :| f in multiset(forms) && !f.fine {
      assert f in forms;
      var k :| 0 <= k < |forms| && forms[k] == f;
      assert !SessionFine(raw[k]);
    }
  }

  /** The sorted views agree up to numbering. */
  lemma SameViews(a: seq<RawSession>, b: seq<RawSession>)
    requires SameAdmission(a, b) && CheckInput(a).Some? && CheckInput(b).Some?
    ensures AllRenumbered(CheckInput(a).value) == AllRenumbered(CheckInput(b).value)
  {
    hide SessionFine, IsAdmitted, Renumbered, SessionView, SortById, Admitted;
    SortedForms(Admitted(a));
    SortedForms(Admitted(b));
    var x, y := AllRenumbered(CheckInput(a).value), AllRenumbered(CheckInput(b).value);
    forall o
      ensures o in x <==> o in y
    {
      FormsHave(Admitted(a), o);
      FormsHave(Admitted(b), o);
      assert forall f :: f in multiset(Forms(Admitted(a))) <==> f in multiset(Forms(Admitted(b)));
    }
    SortedUnique(x, y);
  }

  ghost predicate HasForm(forms: multiset<Form>, o: VerifiedSession) {
    exists f :: f in forms && f.session == o
  }

  lemma FormsHave(raw: seq<RawSession>, o: VerifiedSession)
    ensures HasForm(multiset(Forms(raw)), o) <==> exists k :: 0 <= k < |raw| && Renumbered(SessionView(raw[k])) == o
  {
    var forms := Forms(raw);
    if HasForm(multiset(forms), o) {
      var f: Form :| f in multiset(forms) && f.session == o;
      assert f in forms;
      var k :| 0 <= k < |forms| && forms[k] == f;
      assert Renumbered(SessionView(raw[k])) == o;
    }
    if k :| 0 <= k < |raw| && Renumbered(SessionView(raw[k])) == o {
      assert forms[k] in multiset(forms);
    }
  }

  lemma SortedForms(raw: seq<RawSession>)
    requires IdsDiffer(raw)
    ensures var x := AllRenumbered(SortById(SessionViews(raw)));
            ById(x) && forall o :: o in x <==> exists k :: 0 <= k < |raw| && Renumbered(SessionView(raw[k])) == o
  {
    var views := SessionViews(raw);
    SortHolds(views);
    var sorted := SortById(views);
    var x := AllRenumbered(sorted);
    hide SortById;
    forall o
      ensures o in x <==> exists k :: 0 <= k < |raw| && Renumbered(SessionView(raw[k])) == o
    {
      if o in x {
        var j :| 0 <= j < |x| && x[j] == o;
        assert sorted[j] in sorted;
        var k :| 0 <= k < |views| && views[k] == sorted[j];
        assert Renumbered(SessionView(raw[k])) == o;
      }
      if k :| 0 <= k < |raw| && Renumbered(SessionView(raw[k])) == o {
        assert views[k] in sorted;
        var j :| 0 <= j < |sorted| && sorted[j] == views[k];
        assert x[j] == o;
      }
    }
  }
}
