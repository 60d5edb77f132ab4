/** Every interleaving of any number of processes that append to and repair one ledger.

A process first waits for the lock.  The holder reads the file once and then writes its
planned rows in arbitrary small pieces, syncing after each row; or it repairs.  Between any two
of these actions the holder may be killed, and power may fail.
*/
module LedgerRuns {
  import opened Records
  import opened Framing
  import opened Ledger
  import opened LedgerWriters

  datatype Activity = JustLocked | Writing(pending: seq<Row>, written: nat) | Repairing

  datatype Lock = Free | Held(pid: nat, activity: Activity)

  /** `returned` lists the rows whose append has returned, in order. */
  datatype State = State(data: Bytes, synced: nat, lock: Lock, returned: seq<Row>)

  datatype Action =
    | Acquire(pid: nat)
    | ReadAndPlan(req: Request, ts: string)
    | WriteSome(count: nat)
    | SyncRow
    | StartRepair
    | RepairRound
    | Kill
    | PowerLoss(keep: nat)

  const INITIAL: State := State([], 0, Free, [])

  function Line(codec: Codec, row: Row): Bytes {
    codec.text(row) + [NL]
  }

  /** The holder reads, plans, and is left with the rows the schema lets it write. */
  function AfterReading(codec: Codec, data: Bytes, pid: nat, req: Request, ts: string): Lock {
    match ReadRows(codec, data)
    case Rows(existing) =>
      var plan := Planned(codec, existing, req, ts);
      if plan.Write? && Admitted(codec, plan.rows) != [] then
        Held(pid, Writing(Admitted(codec, plan.rows), 0))
      else Free
    case _ => Free
  }

  /** One action; an action that is not enabled changes nothing. */
  function Act(codec: Codec, st: State, action: Action): State {
    match action
    case Acquire(pid) =>
      if st.lock.Free? then st.(lock := Held(pid, JustLocked)) else st
    case ReadAndPlan(req, ts) =>
      if st.lock.Held? && st.lock.activity.JustLocked? then
        st.(lock := AfterReading(codec, st.data, st.lock.pid, req, ts))
      else st
    case WriteSome(count) =>
      if st.lock.Held? && st.lock.activity.Writing? && st.lock.activity.pending != []
         && st.lock.activity.written + count <= |Line(codec, st.lock.activity.pending[0])| then
        var a := st.lock.activity;
        st.(data := st.data + Line(codec, a.pending[0])[a.written..a.written + count],
            lock := Held(st.lock.pid, a.(written := a.written + count)))
      else st
    case SyncRow =>
      if st.lock.Held? && st.lock.activity.Writing? && st.lock.activity.pending != []
         && st.lock.activity.written == |Line(codec, st.lock.activity.pending[0])| then
        var a := st.lock.activity;
        st.(synced := |st.data|,
            returned := st.returned + [a.pending[0]],
            lock := if |a.pending| == 1 then Free else Held(st.lock.pid, Writing(a.pending[1..], 0)))
      else st
    case StartRepair =>
      if st.lock.Held? && st.lock.activity.JustLocked? then st.(lock := Held(st.lock.pid, Repairing)) else st
    case RepairRound =>
      if st.lock.Held? && st.lock.activity.Repairing? then
        match VerifyFile(codec, st.data, None)
        case Intact(_) => st.(synced := |st.data|, lock := Free)
        case Broken => st.(lock := Free)
        case TornTail =>
          TornIsNonEmpty(codec, st.data);
          var b := CutPoint(st.data);
          st.(data := st.data[..b], synced := b)
      else st
    case Kill => st.(lock := Free)
    case PowerLoss(keep) =>
      if st.synced <= keep <= |st.data| then st.(data := st.data[..keep], lock := Free) else st
  }

  function Run(codec: Codec, actions: seq<Action>): State {
    if actions == [] then INITIAL
    else Act(codec, Run(codec, actions[..|actions| - 1]), actions[|actions| - 1])
  }

  /** The rows `rows` are on file, followed by `part`: what a writer has written of its current
      row, or a torn tail that a dead one left. */
  ghost predicate OnFile(codec: Codec, st: State, rows: seq<Row>, part: Bytes) {
    && st.data == Render(codec, rows) + part
    && Accepted(codec, rows) && Chain(rows)
    && st.synced <= |st.data|
  }

  ghost predicate PartFits(codec: Codec, lock: Lock, rows: seq<Row>, part: Bytes) {
    match lock
    case Held(_, Writing(pending, written)) =>
      && pending != [] && Accepted(codec, pending) && Chain(rows + pending)
      && written <= |Line(codec, pending[0])| && part == Line(codec, pending[0])[..written]
    case _ => Unbroken(part)
  }

  /** A row whose append returned is at its index, inside the synced prefix. */
  ghost predicate Kept(codec: Codec, st: State, rows: seq<Row>, row: Row) {
    && row.body.i < |rows| && rows[row.body.i] == row
    && |Render(codec, rows[..row.body.i + 1])| <= st.synced
  }

  ghost predicate Inv(codec: Codec, st: State, rows: seq<Row>, part: Bytes) {
    && OnFile(codec, st, rows, part)
    && PartFits(codec, st.lock, rows, part)
    && forall k :: 0 <= k < |st.returned| ==> Kept(codec, st, rows, st.returned[k])
  }

  lemma ChainParts(rows: seq<Row>, pending: seq<Row>)
    requires Chain(rows + pending) && pending != []
    ensures Chain(rows + [pending[0]]) && rows + pending == rows + [pending[0]] + pending[1..]
    ensures pending[0].body.i == |rows|
  {
    ChainPrefix(rows + pending, |rows| + 1);
    assert (rows + pending)[..|rows| + 1] == rows + [pending[0]];
    assert InPlace(rows + pending, |rows|);
  }

  lemma WholeLine(codec: Codec, rows: seq<Row>, row: Row)
    ensures Render(codec, rows) + Line(codec, row) == Render(codec, rows + [row])
  {
    RenderConcat(codec, rows, [row]);
    RenderOne(codec, row);
  }

  lemma RenderMonotone(codec: Codec, rows: seq<Row>, more: seq<Row>, n: nat)
    requires n <= |rows|
    ensures (rows + more)[..n] == rows[..n]
    ensures |Render(codec, rows[..n])| <= |Render(codec, rows)|
  {
    RenderConcat(codec, rows[..n], rows[n..]);
    assert rows[..n] + rows[n..] == rows;
  }

  lemma KeptGrows(codec: Codec, st: State, st': State, rows: seq<Row>, more: seq<Row>)
    requires st.synced <= st'.synced && st'.returned == st.returned
    requires forall k :: 0 <= k < |st.returned| ==> Kept(codec, st, rows, st.returned[k])
    ensures forall k :: 0 <= k < |st'.returned| ==> Kept(codec, st', rows + more, st'.returned[k])
  {
    hide Render;
    forall k | 0 <= k < |st'.returned|
      ensures Kept(codec, st', rows + more, st'.returned[k])
    {
      assert Kept(codec, st, rows, st.returned[k]);
      RenderMonotone(codec, rows, more, st.returned[k].body.i + 1);
    }
  }

  /** A holder that stops anywhere in a row leaves whole rows and an unbroken tail. */
  lemma Settle(codec: Codec, st: State, rows: seq<Row>, part: Bytes)
      returns (rows': seq<Row>, part': Bytes)
    requires Faithful(codec) && Inv(codec, st, rows, part)
    ensures Inv(codec, st.(lock := Free), rows', part') && rows <= rows'
  {
    rows', part' := rows, part;
    if st.lock.Held? && st.lock.activity.Writing? {
      var a := st.lock.activity;
      var row := a.pending[0];
      assert ReadsBack(codec, row);
      ChainParts(rows, a.pending);
      if a.written == |Line(codec, row)| {
        rows', part' := rows + [row], [];
        WholeLine(codec, rows, row);
        assert part == Line(codec, row);
        KeptGrows(codec, st, st.(lock := Free), rows, [row]);
      } else {
        assert part == codec.text(row)[..a.written];
      }
    }
  }

  lemma PowerLossKeeps(codec: Codec, st: State, keep: nat, rows: seq<Row>, part: Bytes)
      returns (rows': seq<Row>, part': Bytes)
    requires Faithful(codec) && Inv(codec, st, rows, part) && st.lock.Free?
    requires st.synced <= keep <= |st.data|
    ensures Inv(codec, st.(data := st.data[..keep]), rows', part')
  {
    var st' := st.(data := st.data[..keep]);
    var texts := Texts(codec, rows);
    assert forall k :: 0 <= k < |rows| ==> ReadsBack(codec, rows[k]);
    var whole, rest := CutSerialized(texts, part, keep);
    rows', part' := rows[..whole], rest;
    assert Texts(codec, rows') == texts[..whole];
    ChainPrefix(rows, whole);
    forall k | 0 <= k < |st.returned|
      ensures Kept(codec, st', rows', st.returned[k])
    {
      var row := st.returned[k];
      assert Kept(codec, st, rows, row);
      var n := row.body.i + 1;
      assert Texts(codec, rows[..n]) == texts[..n];
      assert n <= whole;
      assert rows'[..n] == rows[..n];
    }
  }

  lemma WriteKeeps(codec: Codec, st: State, count: nat, rows: seq<Row>, part: Bytes)
      returns (part': Bytes)
    requires Inv(codec, st, rows, part)
    ensures Inv(codec, Act(codec, st, WriteSome(count)), rows, part')
  {
    part' := part;
    var st' := Act(codec, st, WriteSome(count));
    if st' != st {
      var a := st.lock.activity;
      var line := Line(codec, a.pending[0]);
      part' := line[..a.written + count];
      assert part' == part + line[a.written..a.written + count];
      Associative(Render(codec, rows), part, line[a.written..a.written + count]);
      KeptGrows(codec, st, st', rows, []);
      assert rows + [] == rows;
    }
  }

  lemma SyncKeeps(codec: Codec, st: State, rows: seq<Row>, part: Bytes)
      returns (rows': seq<Row>, part': Bytes)
    requires Faithful(codec) && Inv(codec, st, rows, part)
    ensures Inv(codec, Act(codec, st, SyncRow), rows', part')
  {
    rows', part' := rows, part;
    var st' := Act(codec, st, SyncRow);
    if st' != st && st.lock.Held? && st.lock.activity.Writing? {
      var a := st.lock.activity;
      var row := a.pending[0];
      ChainParts(rows, a.pending);
      rows', part' := rows + [row], [];
      WholeLine(codec, rows, row);
      assert part == Line(codec, row);
      assert Render(codec, rows') + part' == Render(codec, rows');
      assert rows'[..|rows| + 1] == rows';
      KeptGrows(codec, st, st'.(returned := st.returned), rows, [row]);
      forall k | 0 <= k < |st'.returned|
        ensures Kept(codec, st', rows', st'.returned[k])
      {
        if k < |st.returned| {
          assert Kept(codec, st'.(returned := st.returned), rows', st.returned[k]);
        }
      }
    }
  }

  lemma RepairKeeps(codec: Codec, st: State, rows: seq<Row>, part: Bytes)
      returns (part': Bytes)
    requires Faithful(codec) && Inv(codec, st, rows, part)
    ensures Inv(codec, Act(codec, st, RepairRound), rows, part')
  {
    part' := part;
    if st.lock.Held? && st.lock.activity.Repairing? {
      var whole := Render(codec, rows);
      VerifyRendered(codec, rows, part);
      IntactIffChain(rows);
      var st' := Act(codec, st, RepairRound);
      if part == [] {
        KeptGrows(codec, st, st', rows, []);
        assert rows + [] == rows;
      } else {
        RenderEnds(codec, rows);
        CutAfter(whole, part);
        part' := [];
        assert whole + [] == whole;
        forall k | 0 <= k < |st.returned|
          ensures Kept(codec, st', rows, st.returned[k])
        {
          assert Kept(codec, st, rows, st.returned[k]);
          RenderMonotone(codec, rows, [], st.returned[k].body.i + 1);
        }
      }
    }
  }

  lemma ReadKeeps(codec: Codec, st: State, req: Request, ts: string, rows: seq<Row>, part: Bytes)
    requires Faithful(codec) && Inv(codec, st, rows, part)
    ensures Inv(codec, Act(codec, st, ReadAndPlan(req, ts)), rows, part)
  {
    if st.lock.Held? && st.lock.activity.JustLocked? {
      ReadRendered(codec, rows, part);
      if part == [] {
        PlanKeepsChain(codec, rows, req, ts);
        var plan := Planned(codec, rows, req, ts);
        if plan.Write? {
          var admitted := Admitted(codec, plan.rows);
          ChainPrefix(rows + plan.rows, |rows| + |admitted|);
          assert (rows + plan.rows)[..|rows| + |admitted|] == rows + admitted;
        }
      }
      var st' := Act(codec, st, ReadAndPlan(req, ts));
      KeptGrows(codec, st, st', rows, []);
      assert rows + [] == rows;
    }
  }

  lemma ActKeeps(codec: Codec, st: State, action: Action, rows: seq<Row>, part: Bytes)
      returns (rows': seq<Row>, part': Bytes)
    requires Faithful(codec) && Inv(codec, st, rows, part)
    ensures Inv(codec, Act(codec, st, action), rows', part')
  {
    hide Render, Chain, Kept, VerifyFile;
    rows', part' := rows, part;
    match action {
      case Acquire(_) =>
        KeptGrows(codec, st, Act(codec, st, action), rows, []);
        assert rows + [] == rows;
      case ReadAndPlan(req, ts) => ReadKeeps(codec, st, req, ts, rows, part);
      case WriteSome(count) => part' := WriteKeeps(codec, st, count, rows, part);
      case SyncRow => rows', part' := SyncKeeps(codec, st, rows, part);
      case StartRepair =>
        KeptGrows(codec, st, Act(codec, st, action), rows, []);
        assert rows + [] == rows;
      case RepairRound => part' := RepairKeeps(codec, st, rows, part);
      case Kill => rows', part' := Settle(codec, st, rows, part);
      case PowerLoss(keep) =>
        if st.synced <= keep <= |st.data| {
          rows', part' := Settle(codec, st, rows, part);
          rows', part' := PowerLossKeeps(codec, st.(lock := Free), keep, rows', part');
        }
    }
  }

  lemma {:induction false} RunKeeps(codec: Codec, actions: seq<Action>)
      returns (rows: seq<Row>, part: Bytes)
    requires Faithful(codec)
    ensures Inv(codec, Run(codec, actions), rows, part)
  {
    if actions == [] {
      rows, part := [], [];
      assert Texts(codec, []) == [];
    } else {
      var before := actions[..|actions| - 1];
      rows, part := RunKeeps(codec, before);
      rows, part := ActKeeps(codec, Run(codec, before), actions[|actions| - 1], rows, part);
    }
  }

  /** In every run, whenever no writer is in the middle of a row:
      repair leaves exactly one linear chain and removes at most an unterminated tail,
      every row whose append returned is still in it at its index,
      and a process that meets a torn tail writes nothing. */
  lemma LedgerSafety(codec: Codec, actions: seq<Action>, req: Request, ts: string)
    requires Faithful(codec)
    requires var lock := Run(codec, actions).lock; lock.Held? ==> !lock.activity.Writing?
    ensures var st := Run(codec, actions);
            var repair := Recovered(codec, st.data);
            exists rows ::
              && Chain(rows)
              && ReadRows(codec, repair.rest) == Rows(rows)
              && VerifyFile(codec, repair.rest, None) == Intact(|rows|)
              && (forall k :: 0 <= k < |st.returned| ==>
                    st.returned[k].body.i < |rows| && rows[st.returned[k].body.i] == st.returned[k])
              && |repair.pieces| <= 1
              && (Tail(st.data) == [] ==> repair.rest == st.data)
    ensures var st := Run(codec, actions);
            st.lock.Held? && st.lock.activity.JustLocked? && Tail(st.data) != [] ==>
              Act(codec, st, ReadAndPlan(req, ts)) == st.(lock := Free)
  {
    hide Render, VerifyFile;
    var st := Run(codec, actions);
    var rows, part := RunKeeps(codec, actions);
    RecoverRendered(codec, rows, part);
    ReadRendered(codec, rows, part);
    ReadRendered(codec, rows, []);
    assert Render(codec, rows) + [] == Render(codec, rows);
    forall k | 0 <= k < |st.returned|
      ensures st.returned[k].body.i < |rows| && rows[st.returned[k].body.i] == st.returned[k]
    {
      assert Kept(codec, st, rows, st.returned[k]);
    }
  }

  /** Nothing that happens later takes a returned append back. */
  lemma {:induction false} ReturnedOnlyGrows(codec: Codec, actions: seq<Action>, n: nat)
    requires n <= |actions|
    ensures Run(codec, actions[..n]).returned <= Run(codec, actions).returned
    decreases |actions|
  {
    if n == |actions| {
      assert actions[..n] == actions;
    } else {
      var before := actions[..|actions| - 1];
      assert before[..n] == actions[..n];
      ReturnedOnlyGrows(codec, before, n);
    }
  }
}
