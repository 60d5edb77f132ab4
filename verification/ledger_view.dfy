/** The ledger as capture sees it is what the bytes show.

Capture knows of the ledger its rows, how many of them are durable, and whether a torn tail
follows.  Every run of the ledger's bytes, with writers that write in small pieces and die anywhere,
is matched by moves of that view, and each move is what a happening of the capture runs does.
*/
module LedgerView {
  import opened Records
  import opened Framing
  import opened Ledger
  import opened LedgerWriters
  import opened LedgerRuns
  import Capture
  import CaptureSteps
  import CaptureRuns

  /** The first `synced` rows at least are durable. */
  datatype View = View(rows: seq<Row>, synced: nat, torn: bool)

  const EMPTY_VIEW: View := View([], 0, false)

  datatype Move =
    | Append(req: Request, ts: string)
    | AppendCut(req: Request, ts: string, done: nat, partial: bool)
    | Mend
    | Lose(rows: nat, partial: bool)

  function Apply(codec: Codec, v: View, m: Move): (v': View)
    requires v.synced <= |v.rows|
    ensures v'.synced <= |v'.rows|
  {
    match m
    case Append(req, ts) =>
      var plan := Planned(codec, v.rows, req, ts);
      if v.torn || !plan.Write? || Admitted(codec, plan.rows) == [] then v
      else
        var rows' := v.rows + Admitted(codec, plan.rows);
        View(rows', |rows'|, false)
    case AppendCut(req, ts, done, partial) =>
      var plan := Planned(codec, v.rows, req, ts);
      if v.torn || !plan.Write? || |Admitted(codec, plan.rows)| < done then v
      else
        var more := Admitted(codec, plan.rows);
        View(v.rows + more[..done], v.synced, partial && done < |more|)
    case Mend => View(v.rows, |v.rows|, false)
    case Lose(rows, partial) =>
      View(v.rows[..CaptureSteps.Clamp(v.synced, rows, |v.rows|)], v.synced, partial)
  }

  function ApplyAll(codec: Codec, v: View, moves: seq<Move>): (v': View)
    requires v.synced <= |v.rows|
    ensures v'.synced <= |v'.rows|
  {
    if moves == [] then v else Apply(codec, ApplyAll(codec, v, moves[..|moves| - 1]), moves[|moves| - 1])
  }

  lemma ApplyLast(codec: Codec, v: View, moves: seq<Move>, m: Move)
    requires v.synced <= |v.rows|
    ensures ApplyAll(codec, v, moves + [m]) == Apply(codec, ApplyAll(codec, v, moves), m)
  {
    assert (moves + [m])[..|moves|] == moves;
  }

  // ---- What bytes show -------------------------------------------------------

  /** The append under way, and how many of its rows are written. */
  datatype Writer = Writer(req: Request, ts: string, done: nat)

  ghost predicate Sound(codec: Codec, st: State, v: View) {
    && v.synced <= |v.rows| && Accepted(codec, v.rows) && Chain(v.rows)
    && |Render(codec, v.rows[..v.synced])| <= st.synced <= |st.data|
  }

  /** Between appends: the rows, and a tail exactly when the view says so. */
  ghost predicate Resting(codec: Codec, st: State, v: View) {
    st.data == Render(codec, v.rows) + Tail(st.data) && (v.torn <==> Tail(st.data) != [])
  }

  /** During an append: the view is still the one from before it. */
  ghost predicate Underway(codec: Codec, data: Bytes, pending: seq<Row>, written: nat, v: View, w: Writer) {
    var plan := Planned(codec, v.rows, w.req, w.ts);
    && !v.torn && plan.Write?
    && var more := Admitted(codec, plan.rows);
       && w.done < |more| && pending == more[w.done..]
       && written <= |Line(codec, more[w.done])|
       && data == Render(codec, v.rows + more[..w.done]) + Line(codec, more[w.done])[..written]
  }

  ghost predicate Shows(codec: Codec, st: State, v: View, w: Writer) {
    && Sound(codec, st, v)
    && match st.lock
       case Held(_, Writing(pending, written)) => Underway(codec, st.data, pending, written, v, w)
       case _ => Resting(codec, st, v)
  }

  /** The rows of a plan that are written so far extend the chain. */
  lemma PartOfPlan(codec: Codec, rows: seq<Row>, req: Request, ts: string, done: nat)
    requires Chain(rows) && Accepted(codec, rows) && Planned(codec, rows, req, ts).Write?
    requires done <= |Admitted(codec, Planned(codec, rows, req, ts).rows)|
    ensures var more := Admitted(codec, Planned(codec, rows, req, ts).rows)[..done];
            Chain(rows + more) && Accepted(codec, rows + more)
  {
    PlanKeepsChain(codec, rows, req, ts);
    hide Planned, Chain, Admitted;
    var plan := Planned(codec, rows, req, ts).rows;
    var more := Admitted(codec, plan)[..done];
    assert plan[..done] == more;
    CaptureSteps.PartChain(rows, plan, done);
    AcceptedPart(codec, rows, Admitted(codec, plan), done);
  }

  lemma AcceptedPart(codec: Codec, a: seq<Row>, b: seq<Row>, n: nat)
    requires Accepted(codec, a) && Accepted(codec, b) && n <= |b|
    ensures Accepted(codec, a + b[..n])
  {
  }

  lemma KeptRender(codec: Codec, a: seq<Row>, b: seq<Row>, n: nat)
    requires n <= |a| && a <= b
    ensures b[..n] == a[..n]
  {
  }

  // ---- Each action -----------------------------------------------------------

  lemma ReadShown(codec: Codec, st: State, req: Request, ts: string, v: View, w: Writer) returns (w': Writer)
    requires Faithful(codec) && Shows(codec, st, v, w)
    ensures Shows(codec, Act(codec, st, ReadAndPlan(req, ts)), v, w')
  {
    w' := w;
    if st.lock.Held? && st.lock.activity.JustLocked? {
      hide Planned, Chain, Render;
      ReadRendered(codec, v.rows, Tail(st.data));
      var st' := Act(codec, st, ReadAndPlan(req, ts));
      if st'.lock.Held? {
        w' := Writer(req, ts, 0);
        var more := Admitted(codec, Planned(codec, v.rows, req, ts).rows);
        assert more[0..] == more && v.rows + more[..0] == v.rows && Line(codec, more[0])[..0] == [];
        assert Underway(codec, st.data, more, 0, v, w');
      }
    }
  }

  lemma WriteShown(codec: Codec, st: State, count: nat, v: View, w: Writer)
    requires Shows(codec, st, v, w)
    ensures Shows(codec, Act(codec, st, WriteSome(count)), v, w)
  {
    var st' := Act(codec, st, WriteSome(count));
    if st' != st {
      hide Planned, Chain, Render;
      var a := st.lock.activity;
      var line := Line(codec, a.pending[0]);
      var rows := v.rows + Admitted(codec, Planned(codec, v.rows, w.req, w.ts).rows)[..w.done];
      Associative(Render(codec, rows), line[..a.written], line[a.written..a.written + count]);
      assert line[..a.written + count] == line[..a.written] + line[a.written..a.written + count];
    }
  }

  /** The row under way is whole: it joins the rows before it. */
  lemma RowDone(codec: Codec, data: Bytes, pending: seq<Row>, written: nat, v: View, w: Writer)
    requires Underway(codec, data, pending, written, v, w) && written == |Line(codec, pending[0])|
    ensures var more := Admitted(codec, Planned(codec, v.rows, w.req, w.ts).rows);
            data == Render(codec, v.rows + more[..w.done + 1])
  {
    hide Planned;
    var more := Admitted(codec, Planned(codec, v.rows, w.req, w.ts).rows);
    var row := more[w.done];
    WholeLine(codec, v.rows + more[..w.done], row);
    assert v.rows + more[..w.done] + [row] == v.rows + more[..w.done + 1];
    assert Line(codec, row)[..written] == Line(codec, row);
  }

  /** The last row of an append becomes durable: the append is done. */
  lemma AppendShown(codec: Codec, st: State, v: View, w: Writer)
    requires Faithful(codec) && Sound(codec, st, v) && st.synced == |st.data| && st.lock.Free?
    requires !v.torn && Planned(codec, v.rows, w.req, w.ts).Write?
    requires var more := Admitted(codec, Planned(codec, v.rows, w.req, w.ts).rows);
             more != [] && st.data == Render(codec, v.rows + more)
    ensures Shows(codec, st, ApplyAll(codec, v, [Append(w.req, w.ts)]), w)
  {
    hide Planned, Chain;
    var more := Admitted(codec, Planned(codec, v.rows, w.req, w.ts).rows);
    ApplyLast(codec, v, [], Append(w.req, w.ts));
    assert [] + [Append(w.req, w.ts)] == [Append(w.req, w.ts)];
    PartOfPlan(codec, v.rows, w.req, w.ts, |more|);
    assert more[..|more|] == more;
    var v' := ApplyAll(codec, v, [Append(w.req, w.ts)]);
    assert v'.rows == v.rows + more && v'.rows[..|v'.rows|] == v'.rows;
    hide Render;
    RestsAt(codec, st, v', []);
  }

  lemma SyncShown(codec: Codec, st: State, v: View, w: Writer) returns (moves: seq<Move>, w': Writer)
    requires Faithful(codec) && Shows(codec, st, v, w)
    ensures |moves| <= 1 && Shows(codec, Act(codec, st, SyncRow), ApplyAll(codec, v, moves), w')
  {
    moves, w' := [], w;
    var st' := Act(codec, st, SyncRow);
    if st.lock.Held? && st.lock.activity.Writing? && st' != st {
      hide Planned, Chain, Render, ApplyAll;
      var a := st.lock.activity;
      var more := Admitted(codec, Planned(codec, v.rows, w.req, w.ts).rows);
      RowDone(codec, st.data, a.pending, a.written, v, w);
      if |a.pending| == 1 {
        assert more[..w.done + 1] == more;
        moves := [Append(w.req, w.ts)];
        AppendShown(codec, st', v, w);
      } else {
        w' := w.(done := w.done + 1);
        assert Line(codec, more[w'.done])[..0] == [];
        assert more[w.done..][1..] == more[w'.done..];
        assert ApplyAll(codec, v, []) == v by {
          NoMoves(codec, v);
        }
      }
    } else {
      NoMoves(codec, v);
    }
  }

  lemma NoMoves(codec: Codec, v: View)
    requires v.synced <= |v.rows|
    ensures ApplyAll(codec, v, []) == v
  {
  }

  /** Rows followed by an unbroken tail: what a file at rest looks like. */
  lemma RestsAt(codec: Codec, st: State, v: View, part: Bytes)
    requires Faithful(codec) && Accepted(codec, v.rows) && Unbroken(part)
    requires st.data == Render(codec, v.rows) + part && (v.torn <==> part != [])
    ensures Resting(codec, st, v)
  {
    ReadRendered(codec, v.rows, part);
  }

  /** The rows of an append that are whole, and part of one more line: its writer is gone. */
  lemma CutShown(codec: Codec, st: State, v: View, w: Writer, done: nat, part: Bytes) returns (moves: seq<Move>)
    requires Faithful(codec) && Sound(codec, st, v) && st.lock.Free? && Unbroken(part)
    requires !v.torn && Planned(codec, v.rows, w.req, w.ts).Write?
    requires var more := Admitted(codec, Planned(codec, v.rows, w.req, w.ts).rows);
             && done <= |more| && (part != [] ==> done < |more|)
             && st.data == Render(codec, v.rows + more[..done]) + part
    ensures |moves| == 1 && Shows(codec, st, ApplyAll(codec, v, moves), w)
  {
    hide Planned, Chain, Render, ApplyAll;
    var more := Admitted(codec, Planned(codec, v.rows, w.req, w.ts).rows);
    var m := AppendCut(w.req, w.ts, done, part != []);
    moves := [m];
    NoMoves(codec, v);
    ApplyLast(codec, v, [], m);
    assert [] + [m] == moves;
    PartOfPlan(codec, v.rows, w.req, w.ts, done);
    var v' := ApplyAll(codec, v, moves);
    assert v'.rows == v.rows + more[..done];
    KeptRender(codec, v.rows, v'.rows, v.synced);
    RestsAt(codec, st, v', part);
  }

  /** How far the writer had come: whole rows, and an unbroken part of the next line. */
  lemma CutAt(codec: Codec, data: Bytes, pending: seq<Row>, written: nat, v: View, w: Writer)
      returns (done: nat, part: Bytes)
    requires Faithful(codec) && Underway(codec, data, pending, written, v, w)
    ensures var more := Admitted(codec, Planned(codec, v.rows, w.req, w.ts).rows);
            && done <= |more| && (part != [] ==> done < |more|) && Unbroken(part)
            && data == Render(codec, v.rows + more[..done]) + part
  {
    hide Planned, Render;
    var more := Admitted(codec, Planned(codec, v.rows, w.req, w.ts).rows);
    var row := more[w.done];
    assert ReadsBack(codec, row);
    if written == |Line(codec, row)| {
      RowDone(codec, data, pending, written, v, w);
      done, part := w.done + 1, [];
      assert data + [] == data;
    } else {
      done, part := w.done, codec.text(row)[..written];
      assert Line(codec, row)[..written] == part;
    }
  }

  lemma SoundBound(codec: Codec, st: State, v: View)
    requires Sound(codec, st, v)
    ensures v.synced <= |v.rows|
  {
    hide Chain, Accepted, Render;
  }

  lemma LockShown(codec: Codec, st: State, lock: Lock, v: View, w: Writer)
    requires Shows(codec, st, v, w)
    requires st.lock.Held? ==> !st.lock.activity.Writing?
    requires lock.Held? ==> !lock.activity.Writing?
    ensures Shows(codec, st.(lock := lock), v, w)
  {
    hide Render, Chain, Tail, Underway;
  }

  lemma KillIs(codec: Codec, st: State)
    ensures Act(codec, st, Kill) == st.(lock := Free)
  {
  }

  lemma FreeSound(codec: Codec, st: State, v: View)
    requires Sound(codec, st, v)
    ensures Sound(codec, st.(lock := Free), v)
  {
    hide Chain, Accepted, Render;
  }

  lemma KillShown(codec: Codec, st: State, v: View, w: Writer) returns (moves: seq<Move>)
    requires Faithful(codec) && Shows(codec, st, v, w)
    ensures |moves| <= 1 && Shows(codec, Act(codec, st, Kill), ApplyAll(codec, v, moves), w)
  {
    hide Act, ApplyAll, Sound, Resting;
    moves := [];
    KillIs(codec, st);
    if st.lock.Held? && st.lock.activity.Writing? {
      var a := st.lock.activity;
      assert Underway(codec, st.data, a.pending, a.written, v, w);
      assert !v.torn && Planned(codec, v.rows, w.req, w.ts).Write?;
      hide *;
      FreeSound(codec, st, v);
      var done, part := CutAt(codec, st.data, a.pending, a.written, v, w);
      moves := CutShown(codec, st.(lock := Free), v, w, done, part);
    } else {
      SoundBound(codec, st, v);
      NoMoves(codec, v);
      hide *;
      LockShown(codec, st, Free, v, w);
    }
  }

  /** One round of repair leaves the rows, all of them durable. */
  lemma RepairDoes(codec: Codec, st: State, rows: seq<Row>)
    requires Faithful(codec) && Accepted(codec, rows) && Chain(rows)
    requires st.lock.Held? && st.lock.activity.Repairing? && st.data == Render(codec, rows) + Tail(st.data)
    ensures var st' := Act(codec, st, RepairRound);
            && st'.data == Render(codec, rows) && st'.synced == |st'.data|
            && (st'.lock.Held? ==> !st'.lock.activity.Writing?)
  {
    hide Chain, VerifyFile;
    var part, whole := Tail(st.data), Render(codec, rows);
    VerifyRendered(codec, rows, part);
    IntactIffChain(rows);
    if part == [] {
      assert whole + part == whole;
    } else {
      RenderEnds(codec, rows);
      CutAfter(whole, part);
    }
  }

  /** Rows alone, all of them durable, are what a mended view shows. */
  lemma MendShown(codec: Codec, st: State, v: View, w: Writer)
    requires Faithful(codec) && v.synced <= |v.rows| && Accepted(codec, v.rows) && Chain(v.rows)
    requires st.data == Render(codec, v.rows) && st.synced == |st.data|
    requires st.lock.Held? ==> !st.lock.activity.Writing?
    ensures Shows(codec, st, Apply(codec, v, Mend), w)
  {
    var v' := Apply(codec, v, Mend);
    assert v'.rows[..|v'.rows|] == v'.rows && Render(codec, v.rows) + [] == Render(codec, v.rows);
    RestsAt(codec, st, v', []);
    hide Chain, Render, Resting;
  }

  lemma RepairShown(codec: Codec, st: State, v: View, w: Writer) returns (moves: seq<Move>)
    requires Faithful(codec) && Shows(codec, st, v, w)
    ensures |moves| <= 1 && Shows(codec, Act(codec, st, RepairRound), ApplyAll(codec, v, moves), w)
  {
    moves := [];
    NoMoves(codec, v);
    if st.lock.Held? && st.lock.activity.Repairing? {
      assert Resting(codec, st, v);
      hide Act, Faithful, Chain, Accepted, Render;
      RepairDoes(codec, st, v.rows);
      moves := [Mend];
      ApplyLast(codec, v, [], Mend);
      assert [] + [Mend] == moves;
      hide *;
      MendShown(codec, Act(codec, st, RepairRound), v, w);
    }
  }

  lemma LoseShown(codec: Codec, st: State, keep: nat, v: View, w: Writer) returns (m: Move)
    requires Faithful(codec) && Shows(codec, st, v, w) && st.lock.Free?
    requires st.synced <= keep <= |st.data|
    ensures Shows(codec, st.(data := st.data[..keep]), Apply(codec, v, m), w)
  {
    var texts := Texts(codec, v.rows);
    assert forall k :: 0 <= k < |v.rows| ==> ReadsBack(codec, v.rows[k]);
    var whole, part := CutSerialized(texts, Tail(st.data), keep);
    m := Lose(whole, part != []);
    assert Texts(codec, v.rows[..v.synced]) == texts[..v.synced];
    assert Texts(codec, v.rows[..whole]) == texts[..whole];
    ChainPrefix(v.rows, whole);
    hide Chain;
    var v' := Apply(codec, v, m);
    assert v'.rows == v.rows[..whole];
    KeptRender(codec, v'.rows, v.rows, v.synced);
    RestsAt(codec, st.(data := st.data[..keep]), v', part);
  }

  lemma PowerIsKill(codec: Codec, st: State, keep: nat)
    requires st.synced <= keep <= |st.data|
    ensures Act(codec, st, PowerLoss(keep)) == st.(lock := Free, data := st.data[..keep])
  {
  }

  /** A kill, and then only part of what was not durable is left. */
  lemma PowerShown(codec: Codec, st: State, keep: nat, v: View, w: Writer) returns (moves: seq<Move>)
    requires Faithful(codec) && Shows(codec, st, v, w) && st.synced <= keep <= |st.data|
    ensures |moves| <= 2 && Shows(codec, Act(codec, st, PowerLoss(keep)), ApplyAll(codec, v, moves), w)
  {
    hide Act, Sound, Resting, Underway, ApplyAll, Apply;
    KillIs(codec, st);
    PowerIsKill(codec, st, keep);
    SoundBound(codec, st, v);
    hide *;
    var killed := st.(lock := Free);
    moves := KillShown(codec, st, v, w);
    var m := LoseShown(codec, killed, keep, ApplyAll(codec, v, moves), w);
    ApplyLast(codec, v, moves, m);
    moves := moves + [m];
  }

  /** Every action of the byte-level runs is matched by at most two moves of the view. */
  lemma ActShown(codec: Codec, st: State, action: Action, v: View, w: Writer) returns (moves: seq<Move>, w': Writer)
    requires Faithful(codec) && Shows(codec, st, v, w)
    ensures |moves| <= 2 && Shows(codec, Act(codec, st, action), ApplyAll(codec, v, moves), w')
  {
    moves, w' := [], w;
    NoMoves(codec, v);
    hide Shows, ApplyAll, VerifyFile, ReadRows, AfterReading;
    match action {
      case Acquire(pid) =>
        if st.lock.Free? {
          LockShown(codec, st, Held(pid, JustLocked), v, w);
        }
      case ReadAndPlan(req, ts) => w' := ReadShown(codec, st, req, ts, v, w);
      case WriteSome(count) => WriteShown(codec, st, count, v, w);
      case SyncRow => moves, w' := SyncShown(codec, st, v, w);
      case StartRepair =>
        if st.lock.Held? && st.lock.activity.JustLocked? {
          LockShown(codec, st, Held(st.lock.pid, Repairing), v, w);
        }
      case RepairRound => moves := RepairShown(codec, st, v, w);
      case Kill => moves := KillShown(codec, st, v, w);
      case PowerLoss(keep) =>
        if st.synced <= keep <= |st.data| {
          moves := PowerShown(codec, st, keep, v, w);
        }
    }
  }

  lemma {:induction false} ApplyConcat(codec: Codec, v: View, a: seq<Move>, b: seq<Move>)
    requires v.synced <= |v.rows|
    ensures ApplyAll(codec, v, a + b) == ApplyAll(codec, ApplyAll(codec, v, a), b)
  {
    if b == [] {
      assert a + b == a;
    } else {
      ApplyConcat(codec, v, a, b[..|b| - 1]);
      assert (a + b)[..|a + b| - 1] == a + b[..|b| - 1];
    }
  }

  /** Every run of the bytes shows a view that moves alone reach from the empty ledger. */
  lemma {:induction false} RunShown(codec: Codec, actions: seq<Action>) returns (moves: seq<Move>, w: Writer)
    requires Faithful(codec)
    ensures Shows(codec, Run(codec, actions), ApplyAll(codec, EMPTY_VIEW, moves), w)
  {
    if actions == [] {
      moves, w := [], Writer(EventRequest("", SessionStart, Startup, 0), "", 0);
      assert Texts(codec, []) == [];
      RestsAt(codec, INITIAL, EMPTY_VIEW, []);
    } else {
      var before := actions[..|actions| - 1];
      var m, more;
      m, w := RunShown(codec, before);
      more, w := ActShown(codec, Run(codec, before), actions[|actions| - 1], ApplyAll(codec, EMPTY_VIEW, m), w);
      ApplyConcat(codec, EMPTY_VIEW, m, more);
      moves := m + more;
    }
  }

  // ---- Moves and captures ----------------------------------------------------

  function LedgerOf(disk: Capture.Disk): View {
    View(disk.rows, disk.syncedRows, disk.torn)
  }

  function WithLedger(disk: Capture.Disk, v: View): Capture.Disk {
    disk.(rows := v.rows, syncedRows := v.synced, torn := v.torn)
  }

  /** Capture's own append of a session row, whole or cut short, is a move. */
  lemma SessionMove(codec: Codec, disk: Capture.Disk, root: Digest, count: nat, snap: Capture.Snapshot,
                    done: nat, partial: bool)
    requires disk.syncedRows <= |disk.rows|
    ensures var op := Capture.AppendSession(snap.sessionId, root, count, snap);
            var req := SessionRequest(snap.sessionId, root, count, snap.source, snap.provenance);
            && Capture.Perform(codec, disk, op).disk ==
               WithLedger(disk, Apply(codec, LedgerOf(disk), Append(req, snap.ts)))
            && CaptureSteps.CutShort(codec, disk, op, done, partial) ==
               WithLedger(disk, Apply(codec, LedgerOf(disk), AppendCut(req, snap.ts, done, partial)))
  {
    hide Versioned;
  }

  /** Whatever other processes, repair and power loss do to the view is a happening of the capture runs. */
  lemma OtherMove(codec: Codec, world: CaptureRuns.World, m: Move) returns (h: CaptureRuns.Happening)
    requires world.disk.syncedRows <= |world.disk.rows|
    requires m.Append? || m.AppendCut? ==> !m.req.SessionRequest?
    requires m.Mend? ==> world.todo == []
    ensures LedgerOf(CaptureRuns.Happens(codec, world, h).disk) == Apply(codec, LedgerOf(world.disk), m)
    ensures !m.Lose? ==>
              CaptureRuns.Happens(codec, world, h).disk ==
              WithLedger(world.disk, Apply(codec, LedgerOf(world.disk), m))
  {
    hide Planned;
    var v := LedgerOf(world.disk);
    match m
    case Append(req, ts) => h := CaptureRuns.OtherWriter(req, ts);
    case AppendCut(req, ts, done, partial) =>
      var plan := Planned(codec, v.rows, req, ts);
      if v.torn || !plan.Write? || |Admitted(codec, plan.rows)| < done {
        h := CaptureRuns.OtherWriterDies(req, ts, done, false);
      } else {
        h := CaptureRuns.OtherWriterDies(req, ts, done, partial && done < |Admitted(codec, plan.rows)|);
      }
    case Mend => h := CaptureRuns.StartScan;
    case Lose(rows, partial) =>
      h := CaptureRuns.PowerFails(CaptureSteps.Survivors(rows, partial, _ => 0, _ => false, _ => 0));
  }
}
