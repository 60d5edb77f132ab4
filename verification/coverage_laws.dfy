/** The coverage counters account for every record and every block once: they are the sum of what each
record contributes.
*/
module CoverageLaws {
  import opened Records
  import opened Corpus
  import opened Transcripts
  import opened Claude
  import opened Readings

  /** What a record, or a block of it, adds to the counters. */
  datatype Tally = Tally(parsed: nat, malformed: nat, unsupported: nat, turns: nat, blocks: nat,
                         blocksUnsupported: nat, references: nat, unknown: nat, invalid: nat)

  const NOTHING: Tally := Tally(0, 0, 0, 0, 0, 0, 0, 0, 0)

  function Plus(a: Tally, b: Tally): Tally {
    Tally(a.parsed + b.parsed, a.malformed + b.malformed, a.unsupported + b.unsupported, a.turns + b.turns,
          a.blocks + b.blocks, a.blocksUnsupported + b.blocksUnsupported, a.references + b.references,
          a.unknown + b.unknown, a.invalid + b.invalid)
  }

  function Count(b: bool): nat {
    if b then 1 else 0
  }

  function Faults(n: nat): Tally {
    NOTHING.(invalid := n)
  }

  /** The counters have moved by the tally, and nothing else has. */
  predicate Moved(before: Coverage, after: Coverage, t: Tally) {
    && after.sessionsAdmitted == before.sessionsAdmitted && after.recordsSeen == before.recordsSeen
    && after.recordsAmbiguous == before.recordsAmbiguous && after.lineageUnresolved == before.lineageUnresolved
    && after.recordsParsed == before.recordsParsed + t.parsed
    && after.recordsMalformed == before.recordsMalformed + t.malformed
    && after.recordsUnsupported == before.recordsUnsupported + t.unsupported
    && after.turnsAmbiguous == before.turnsAmbiguous + t.turns && after.blocksSeen == before.blocksSeen + t.blocks
    && after.blocksUnsupported == before.blocksUnsupported + t.blocksUnsupported
    && after.contentReferences == before.contentReferences + t.references
    && after.contentUnknown == before.contentUnknown + t.unknown
    && after.metadataInvalid == before.metadataInvalid + t.invalid
  }

  lemma MovedThen(a: Coverage, b: Coverage, c: Coverage, t: Tally, u: Tally)
    requires Moved(a, b, t) && Moved(b, c, u)
    ensures Moved(a, c, Plus(t, u))
  {
  }

  // ---- Events and facts ------------------------------------------------------

  /** Content is pointed at or unknown to the reader of the artifact. */
  function FactTally(f: Fact): Tally {
    match f
    case SaidBy(_, _, pointed) => if pointed then NOTHING.(references := 1) else NOTHING.(unknown := 1)
    case Calls(_, _, pointed) => if pointed then NOTHING.(references := 1) else NOTHING
    case ForgeFound(_, _) => NOTHING.(references := 1)
    case ReferenceFound(_, _) => NOTHING.(references := 1)
    case TestFound(_, _) => NOTHING.(references := 1)
    case PastedText(_) => NOTHING.(unknown := 1)
    case ClaudeResult(_) => NOTHING.(unknown := 1)
    case CodexResult(_) => NOTHING.(unknown := 1)
    case _ => NOTHING
  }

  function FactsTally(facts: seq<Fact>): Tally {
    if facts == [] then NOTHING else Plus(FactsTally(facts[..|facts| - 1]), FactTally(facts[|facts| - 1]))
  }

  function DetailTally(d: Detail): Tally {
    NOTHING.(references := Count(PointerOf(d).Some?), unknown := Count(IsUnknown(d)))
  }

  function DetailsTally(details: seq<Detail>): Tally {
    if details == [] then NOTHING
    else Plus(DetailsTally(details[..|details| - 1]), DetailTally(details[|details| - 1]))
  }

  lemma DetailIsFact(r: Reader, d: Detail, f: Fact)
    requires Reads(r, d, f)
    ensures DetailTally(d) == FactTally(f)
  {
  }

  lemma {:induction false} DetailsAreFacts(r: Reader, details: seq<Detail>, facts: seq<Fact>)
    requires AllRead(r, details, facts)
    ensures DetailsTally(details) == FactsTally(facts)
  {
    hide Reads, Plus, DetailTally, FactTally;
    if details != [] {
      var n := |details| - 1;
      DetailIsFact(r, details[n], facts[n]);
      assert AllRead(r, details[..n], facts[..n]);
      DetailsAreFacts(r, details[..n], facts[..n]);
    }
  }

  lemma PlusLaws(a: Tally, b: Tally, c: Tally)
    ensures Plus(Plus(a, b), c) == Plus(a, Plus(b, c)) && Plus(a, NOTHING) == a
    ensures Plus(NOTHING, a) == a && Plus(a, b) == Plus(b, a)
  {
  }

  lemma {:induction false} TallyConcat(d: seq<Detail>, e: seq<Detail>)
    ensures DetailsTally(d + e) == Plus(DetailsTally(d), DetailsTally(e))
  {
    hide Plus, DetailTally;
    if e == [] {
      assert d + e == d;
      PlusLaws(DetailsTally(d), NOTHING, NOTHING);
    } else {
      var n := |e| - 1;
      assert (d + e)[..|d + e| - 1] == d + e[..n];
      TallyConcat(d, e[..n]);
      PlusLaws(DetailsTally(d), DetailsTally(e[..n]), DetailTally(e[n]));
    }
  }

  /** A step has added details, which count for themselves, and counted this besides. */
  ghost predicate Shifts(m: Message, after: Message, t: Tally) {
    m.details <= after.details && Moved(m.cov, after.cov, Plus(DetailsTally(after.details[|m.details|..]), t))
  }

  lemma NoTally(details: seq<Detail>)
    requires details == []
    ensures DetailsTally(details) == NOTHING
  {
  }

  lemma NothingMoved(c: Coverage)
    ensures Moved(c, c, NOTHING)
  {
  }

  lemma ShiftsNothing(m: Message)
    ensures Shifts(m, m, NOTHING)
  {
    hide Moved, Plus, DetailsTally;
    NothingMoved(m.cov);
    NoTally(m.details[|m.details|..]);
    PlusLaws(NOTHING, NOTHING, NOTHING);
  }

  lemma ShiftsCounted(m: Message, after: Message, t: Tally)
    requires after.details == m.details && Moved(m.cov, after.cov, t)
    ensures Shifts(m, after, t)
  {
    hide Moved, Plus, DetailsTally;
    NoTally(after.details[|m.details|..]);
    PlusLaws(t, NOTHING, NOTHING);
  }

  lemma EmitMoves(m: Message, d: Detail)
    ensures Moved(m.cov, Emit(m, d).cov, DetailTally(d)) && Emit(m, d).details == m.details + [d]
  {
  }

  lemma OneTally(details: seq<Detail>, d: Detail)
    requires details == [d]
    ensures DetailsTally(details) == DetailTally(d)
  {
    hide DetailTally;
    NoTally(details[..0]);
    PlusLaws(DetailTally(d), NOTHING, NOTHING);
  }

  lemma ShiftsOne(m: Message, d: Detail)
    ensures Shifts(m, Emit(m, d), NOTHING)
  {
    hide Moved, DetailTally, DetailsTally, Plus, Emit;
    EmitMoves(m, d);
    assert Emit(m, d).details[|m.details|..] == [d];
    OneTally(Emit(m, d).details[|m.details|..], d);
    PlusLaws(DetailTally(d), NOTHING, NOTHING);
  }

  lemma Swapped(d: Tally, t: Tally, e: Tally, u: Tally)
    ensures Plus(Plus(d, t), Plus(e, u)) == Plus(Plus(d, e), Plus(t, u))
  {
  }

  lemma ShiftsThen(a: Message, b: Message, c: Message, t: Tally, u: Tally)
    requires Shifts(a, b, t) && Shifts(b, c, u)
    ensures Shifts(a, c, Plus(t, u))
  {
    hide DetailsTally, Moved, Plus;
    var d, e := b.details[|a.details|..], c.details[|b.details|..];
    MovedThen(a.cov, b.cov, c.cov, Plus(DetailsTally(d), t), Plus(DetailsTally(e), u));
    TallyConcat(d, e);
    assert c.details[|a.details|..] == d + e;
    Swapped(DetailsTally(d), t, DetailsTally(e), u);
  }

  lemma FoundShifts(env: Env, ctx: Context, m: Message, sub: nat, name: Json, input: Json, p: Pointer)
    ensures var m1 := WithForge(env, ctx, m, sub, name, input, p);
            var m2 := WithReference(env, m1, name, input, p);
            Shifts(m, WithTest(env, m2, name, input, p), NOTHING)
  {
    var m1 := WithForge(env, ctx, m, sub, name, input, p);
    var m2 := WithReference(env, m1, name, input, p);
    var m3 := WithTest(env, m2, name, input, p);
    ForgeShifts(env, ctx, m, sub, name, input, p);
    ReferenceShifts(env, m1, name, input, p);
    TestShifts(env, m2, name, input, p);
    hide Shifts, WithForge, WithReference, WithTest;
    ShiftsThen(m, m1, m2, NOTHING, NOTHING);
    ShiftsThen(m, m2, m3, NOTHING, NOTHING);
  }

  lemma ForgeShifts(env: Env, ctx: Context, m: Message, sub: nat, name: Json, input: Json, p: Pointer)
    ensures Shifts(m, WithForge(env, ctx, m, sub, name, input, p), NOTHING)
  {
    ShiftsNothing(m);
    if env.forge(name, input).Some? {
      ShiftsOne(m, Forge(env.forge(name, input).value, UnknownResult, p, LinkedTool(ctx.record, sub), ctx.repo));
    }
  }

  lemma ReferenceShifts(env: Env, m: Message, name: Json, input: Json, p: Pointer)
    ensures Shifts(m, WithReference(env, m, name, input, p), NOTHING)
  {
    ShiftsNothing(m);
    if env.reference(name, input).Some? {
      ShiftsOne(m, Reference(env.reference(name, input).value, p));
    }
  }

  lemma TestShifts(env: Env, m: Message, name: Json, input: Json, p: Pointer)
    ensures Shifts(m, WithTest(env, m, name, input, p), NOTHING)
  {
    ShiftsNothing(m);
    if env.test(name, input) {
      ShiftsOne(m, Test(p));
    }
  }

  // ---- What is wrong with a record's members ---------------------------------

  predicate BadTime(env: Env, v: Object) {
    Get(v, "timestamp") != JNull && env.instant(Get(v, "timestamp")).None?
  }

  function BadLabel(v: Json, allowed: string -> bool): nat {
    Count(v != JNull && !Allowed(v, allowed))
  }

  predicate BadUsage(usage: Json, renames: map<string, string>) {
    usage != JNull && !(usage.JObj? && AllCounts(usage.fields, renames))
  }

  lemma StampIs(env: Env, v: Object)
    ensures StampInvalid(env, v) == BadTime(env, v)
  {
  }

  lemma LabelBad(v: Json, allowed: string -> bool)
    ensures Count(v != JNull && Label(v, allowed).None?) == BadLabel(v, allowed)
  {
  }

  // ---- Faults ----------------------------------------------------------------

  lemma InvalidMoves(c: Coverage, bad: bool)
    ensures Moved(c, Invalid(c, bad), Faults(Count(bad)))
  {
  }

  lemma FaultsAdd(a: nat, b: nat)
    ensures Plus(Faults(a), Faults(b)) == Faults(a + b)
  {
  }

  lemma InvalidThen(a: Coverage, b: Coverage, n: nat, bad: bool)
    requires Moved(a, b, Faults(n))
    ensures Moved(a, Invalid(b, bad), Faults(n + Count(bad)))
  {
    InvalidMoves(b, bad);
    MovedThen(a, b, Invalid(b, bad), Faults(n), Faults(Count(bad)));
    FaultsAdd(n, Count(bad));
    hide Moved, Invalid, Plus, Faults;
  }

  lemma NoFault(c: Coverage)
    ensures Invalid(c, false) == c
  {
  }

  // ---- Blocks and messages ---------------------------------------------------

  /** A block that is seen, and perhaps unsupported. */
  lemma SeenShifts(m: Message, after: Message, unsupported: bool)
    requires after.details == m.details
    requires after.cov == m.cov.(blocksSeen := m.cov.blocksSeen + 1,
                                 blocksUnsupported := m.cov.blocksUnsupported + Count(unsupported))
    ensures Shifts(m, after, NOTHING.(blocks := 1, blocksUnsupported := Count(unsupported)))
  {
    hide Shifts;
    ShiftsCounted(m, after, NOTHING.(blocks := 1, blocksUnsupported := Count(unsupported)));
  }

  /** A block that was seen and then added details. */
  lemma SeenThen(m: Message, seen: Message, after: Message)
    requires seen.details == m.details && seen.cov == m.cov.(blocksSeen := m.cov.blocksSeen + 1)
    requires Shifts(seen, after, NOTHING)
    ensures Shifts(m, after, NOTHING.(blocks := 1, blocksUnsupported := Count(false)))
  {
    hide Shifts, Plus;
    SeenShifts(m, seen, false);
    var t := NOTHING.(blocks := 1, blocksUnsupported := Count(false));
    PlusLaws(t, NOTHING, NOTHING);
    ShiftsThen(m, seen, after, t, NOTHING);
  }

  predicate Plain(d: Detail) {
    d.Model? || d.Tokens? || d.Lifecycle?
  }

  lemma PlainOne(d: Detail)
    requires Plain(d)
    ensures DetailTally(d) == NOTHING
  {
  }

  lemma {:induction false} PlainTally(details: seq<Detail>)
    requires forall k :: 0 <= k < |details| ==> Plain(details[k])
    ensures DetailsTally(details) == NOTHING
  {
    hide Plain, DetailTally, Plus;
    PlusLaws(NOTHING, NOTHING, NOTHING);
    if details != [] {
      PlainOne(details[|details| - 1]);
      PlainTally(details[..|details| - 1]);
    }
  }

  /** The counters after a message that parsed. */
  lemma ShiftsMoved(positions: Positions, c: Coverage, after: Message, t: Tally)
    requires Shifts(Message([], positions, c), after, t)
    ensures Moved(c, after.cov, Plus(DetailsTally(after.details), t))
  {
    assert after.details[0..] == after.details;
    hide Moved, Plus, DetailsTally;
  }

  lemma PlainMoves(cov: Coverage, c: Coverage, first: Message, after: Message, bad: nat, t: Tally)
    requires Moved(cov, c, Faults(bad)) && first.details == [] && first.cov == c && Shifts(first, after, t)
    ensures Moved(cov, after.cov, Plus(DetailsTally(after.details), Plus(t, Faults(bad))))
  {
    hide Shifts, DetailsTally;
    ShiftsMoved(first.positions, c, after, t);
    MovedThen(cov, c, after.cov, Faults(bad), Plus(DetailsTally(after.details), t));
  }

  // ---- A record --------------------------------------------------------------

  /** A record is malformed, unsupported or parsed; parsed, its facts count as well. */
  function Judged(facts: Option<seq<Fact>>): Tally {
    match facts
    case None => NOTHING.(unsupported := 1)
    case Some(facts) => Plus(FactsTally(facts), NOTHING.(parsed := 1))
  }

  lemma FinishCounts(p: Progress, sc: SessionContext, i: nat, parent: ParentLink, out: Claude.Outcome,
                     last: Option<nat>)
    requires i < |sc.session.records|
    ensures Finish(p, sc, i, parent, out, last).cov
            == if out.details.None? then out.cov.(recordsUnsupported := out.cov.recordsUnsupported + 1)
               else out.cov.(recordsParsed := out.cov.recordsParsed + 1)
  {
  }

  lemma JudgedMoves(r: Reader, out: Claude.Outcome, before: Coverage, after: Coverage, facts: Option<seq<Fact>>,
                    t: Tally)
    requires out.details.Some? <==> facts.Some?
    requires out.details.Some? ==> AllRead(r, out.details.value, facts.value)
    requires Moved(before, out.cov, Plus(DetailsTally(if out.details.Some? then out.details.value else []), t))
    requires after == if out.details.None? then out.cov.(recordsUnsupported := out.cov.recordsUnsupported + 1)
                      else out.cov.(recordsParsed := out.cov.recordsParsed + 1)
    ensures Moved(before, after, Plus(t, Judged(facts)))
  {
    hide Reads, DetailsTally, FactsTally, AllRead;
    if out.details.Some? {
      DetailsAreFacts(r, out.details.value, facts.value);
    } else {
      NoTally([]);
    }
  }

  // ---- Records and sessions --------------------------------------------------

  /** The sum over the first `n` records. */
  function Sum(tallies: seq<Tally>, n: nat): Tally
    requires n <= |tallies|
  {
    if n == 0 then NOTHING else Plus(Sum(tallies, n - 1), tallies[n - 1])
  }

  /** The sum over all records of all sessions. */
  function Total(tallies: seq<seq<Tally>>): Tally {
    if tallies == [] then NOTHING
    else Plus(Total(tallies[..|tallies| - 1]), Sum(tallies[|tallies| - 1], |tallies[|tallies| - 1]|))
  }

  function RecordsIn(sessions: seq<VerifiedSession>): nat {
    if sessions == [] then 0 else RecordsIn(sessions[..|sessions| - 1]) + |sessions[|sessions| - 1].records|
  }

  /** The records of unknown authorship. */
  function UnknownAmong(records: seq<VerifiedRecord>): set<nat> {
    set i: nat | i < |records| && records[i].attribution == UnknownAuthor
  }

  function UnknownIn(sessions: seq<VerifiedSession>): nat {
    if sessions == [] then 0
    else UnknownIn(sessions[..|sessions| - 1]) + |UnknownAmong(sessions[|sessions| - 1].records)|
  }

  lemma UnknownMore(records: seq<VerifiedRecord>, n: nat)
    requires n + 1 == |records|
    ensures |UnknownAmong(records)|
            == |UnknownAmong(records[..n])| + Count(records[n].attribution == UnknownAuthor)
  {
    var before := UnknownAmong(records[..n]);
    assert UnknownAmong(records) == if records[n].attribution == UnknownAuthor then before + {n} else before;
  }

  lemma {:induction false} AmbiguousIs(records: seq<VerifiedRecord>)
    ensures AmbiguousIn(records) == |UnknownAmong(records)|
  {
    if records != [] {
      AmbiguousIs(records[..|records| - 1]);
      UnknownMore(records, |records| - 1);
      hide UnknownAmong;
    }
  }

  /** The coverage of an artifact: the sessions, their records, and the sum of what each record adds. */
  predicate Covers(sessions: seq<VerifiedSession>, tallies: seq<seq<Tally>>, unresolved: nat, c: Coverage) {
    Moved(NO_COVERAGE.(sessionsAdmitted := |sessions|, recordsSeen := RecordsIn(sessions),
                       recordsAmbiguous := UnknownIn(sessions), lineageUnresolved := unresolved), c, Total(tallies))
  }

  lemma CoversNothing(unresolved: nat)
    ensures Covers([], [], unresolved, NO_COVERAGE.(lineageUnresolved := unresolved))
  {
  }

  lemma SumsMore(sessions: seq<VerifiedSession>, tallies: seq<seq<Tally>>, s: VerifiedSession, t: seq<Tally>)
    ensures UnknownIn(sessions + [s]) == UnknownIn(sessions) + |UnknownAmong(s.records)|
    ensures RecordsIn(sessions + [s]) == RecordsIn(sessions) + |s.records|
    ensures Total(tallies + [t]) == Plus(Total(tallies), Sum(t, |t|))
  {
    assert (sessions + [s])[..|sessions|] == sessions && (tallies + [t])[..|tallies|] == tallies;
  }

  lemma CoversMore(sessions: seq<VerifiedSession>, tallies: seq<seq<Tally>>, unresolved: nat, before: Coverage,
                   s: VerifiedSession, t: seq<Tally>, after: Coverage)
    requires Covers(sessions, tallies, unresolved, before) && Moved(Started(before, s), after, Sum(t, |t|))
    ensures Covers(sessions + [s], tallies + [t], unresolved, after)
  {
    AmbiguousIs(s.records);
    SumsMore(sessions, tallies, s, t);
    hide AmbiguousIn, Sum, Total, RecordsIn, UnknownIn;
  }
}
