/** What the repair of a ledger file takes off, for arbitrary bytes. */
module LedgerRepair {
  import opened Records
  import opened Framing
  import opened Ledger

  predicate AllGood(codec: Codec, lines: seq<Bytes>) {
    forall k :: 0 <= k < |lines| ==> codec.parse(lines[k]).Good?
  }

  function RowsOf(codec: Codec, lines: seq<Bytes>): (rows: seq<Row>)
    requires AllGood(codec, lines)
    ensures |rows| == |lines|
  {
    seq(|lines|, k requires 0 <= k < |lines| => codec.parse(lines[k]).row)
  }

  /** A chain followed by one row that is linked to it and has the wrong hash. */
  ghost predicate Tampered(rows: seq<Row>) {
    rows != [] && Chain(rows[..|rows| - 1]) && Linked(rows, |rows| - 1) && !HashHolds(rows[|rows| - 1])
  }

  /** The last line alone cannot be decoded. */
  predicate LastUnread(codec: Codec, lines: seq<Bytes>) {
    && lines != []
    && AllGood(codec, lines[..|lines| - 1])
    && codec.parse(lines[|lines| - 1]).NotJson?
  }

  ghost predicate LastTampered(codec: Codec, lines: seq<Bytes>) {
    AllGood(codec, lines) && Tampered(RowsOf(codec, lines))
  }

  lemma {:induction false} TornSuffix(rows: seq<Row>, n: nat, seen: bool)
    requires n < |rows| && seen == BoundaryBefore(rows, n)
    ensures CheckFrom(rows, n, seen) == TornTail <==>
            && (forall k :: n <= k < |rows| - 1 ==> InPlace(rows, k))
            && Linked(rows, |rows| - 1) && !HashHolds(rows[|rows| - 1])
    decreases |rows| - n
  {
    if n < |rows| - 1 {
      assert BoundaryBefore(rows, n + 1) == (seen || IsBoundary(rows[n]));
      TornSuffix(rows, n + 1, seen || IsBoundary(rows[n]));
      assert InPlace(rows, n) <==> Linked(rows, n) && HashHolds(rows[n]) && VersionHolds(rows[n], seen);
    }
  }

  lemma TornRowsIff(rows: seq<Row>)
    ensures VerifyRows(rows, None) == TornTail <==> Tampered(rows)
  {
    if rows != [] {
      var m := |rows| - 1;
      TornSuffix(rows, 0, false);
      forall k | 0 <= k < m
        ensures InPlace(rows[..m], k) <==> InPlace(rows, k)
      {
        InPlaceInPrefix(rows, m, k);
      }
    }
  }

  lemma {:induction false} FirstBad(codec: Codec, lines: seq<Bytes>) returns (n: nat)
    requires !AllGood(codec, lines)
    ensures n < |lines| && !codec.parse(lines[n]).Good? && AllGood(codec, lines[..n])
  {
    if !codec.parse(lines[0]).Good? {
      n := 0;
    } else {
      n := FirstBad(codec, lines[1..]);
      n := n + 1;
      assert forall k :: 0 < k < n ==> lines[..n][k] == lines[1..][..n - 1][k - 1];
    }
  }

  lemma ParseClass(codec: Codec, lines: seq<Bytes>)
    ensures AllGood(codec, lines) ==> ParseLines(codec, lines) == Rows(RowsOf(codec, lines))
    ensures !AllGood(codec, lines) ==> !ParseLines(codec, lines).Rows?
    ensures ParseLines(codec, lines) == Torn <==> LastUnread(codec, lines)
  {
    if AllGood(codec, lines) {
      ParseGood(codec, lines, RowsOf(codec, lines));
    } else {
      var n := FirstBad(codec, lines);
      assert forall k :: 0 <= k < n ==> codec.parse(lines[..n][k]) == codec.parse(lines[k]);
      ParseStuck(codec, lines, n);
      var m := |lines| - 1;
      assert LastUnread(codec, lines) ==> forall k :: 0 <= k < m ==>
             codec.parse(lines[..m][k]) == codec.parse(lines[k]);
    }
  }

  /** Which bytes count as torn: an unterminated tail, a last line that cannot be decoded, or a last
      row that is linked to a chain and has the wrong hash. */
  lemma TornIff(codec: Codec, data: Bytes)
    ensures VerifyFile(codec, data, None) == TornTail <==>
            || Tail(data) != []
            || LastUnread(codec, CompleteLines(data))
            || LastTampered(codec, CompleteLines(data))
  {
    var lines := CompleteLines(data);
    ParseClass(codec, lines);
    if AllGood(codec, lines) {
      TornRowsIff(RowsOf(codec, lines));
    }
    hide CompleteLines, Tail, CheckFrom, Tampered, ParseLines, AllGood;
  }

  /** Repair cuts whole lines before the last one. */
  lemma CutLast(lines: seq<Bytes>)
    requires AllUnbroken(lines) && lines != []
    ensures var data, front := Serialize(lines), Serialize(lines[..|lines| - 1]);
            && data != [] && CutPoint(data) == |front|
            && data[..|front|] == front && data[|front|..] == lines[|lines| - 1] + [NL]
  {
    var m := |lines| - 1;
    var line := lines[m] + [NL];
    assert lines == lines[..m] + [lines[m]] && line[..|line| - 1] == lines[m];
    SerializeConcat(lines[..m], [lines[m]]);
    SerializeOne(lines[m]);
    SerializeEnds(lines[..m]);
    CutAfter(Serialize(lines[..m]), line);
  }

  /** Repair of whole lines takes off the last one, if they are torn, and goes on. */
  lemma RecoveredLine(codec: Codec, lines: seq<Bytes>)
    requires AllUnbroken(lines)
    ensures var torn := LastUnread(codec, lines) || LastTampered(codec, lines);
            && (torn ==>
                  && lines != []
                  && var front := Recovered(codec, Serialize(lines[..|lines| - 1]));
                     Recovered(codec, Serialize(lines)) ==
                     Repair(front.rest, [lines[|lines| - 1] + [NL]] + front.pieces))
            && (!torn ==> Recovered(codec, Serialize(lines)) == Repair(Serialize(lines), []))
  {
    var data := Serialize(lines);
    assert data + [] == data;
    SplitSerialized(lines, []);
    TornIff(codec, data);
    RecoveredUnfolds(codec, data);
    assert LastTampered(codec, lines) ==> lines != [];
    hide *;
    if lines != [] {
      CutLast(lines);
    }
  }

  /** After a tampered last row is gone, a chain is left. */
  lemma ChainLeft(codec: Codec, lines: seq<Bytes>)
    requires LastTampered(codec, lines)
    ensures lines != []
    ensures !LastUnread(codec, lines[..|lines| - 1]) && !LastTampered(codec, lines[..|lines| - 1])
  {
    var m := |lines| - 1;
    assert RowsOf(codec, lines[..m]) == RowsOf(codec, lines)[..m];
    var rows := RowsOf(codec, lines[..m]);
    assert m > 0 ==> InPlace(rows, m - 1);
  }

  lemma RecoveredRead(codec: Codec, read: seq<Bytes>)
    requires AllUnbroken(read) && !LastUnread(codec, read)
    ensures LastTampered(codec, read) ==>
              && read != []
              && Recovered(codec, Serialize(read)) ==
                 Repair(Serialize(read[..|read| - 1]), [read[|read| - 1] + [NL]])
    ensures !LastTampered(codec, read) ==> Recovered(codec, Serialize(read)) == Repair(Serialize(read), [])
  {
    RecoveredLine(codec, read);
    if LastTampered(codec, read) {
      ChainLeft(codec, read);
      hide LastTampered, LastUnread;
      RecoveredLine(codec, read[..|read| - 1]);
    }
    hide *;
  }

  /** What is left of the lines once one that cannot be decoded is off their end. */
  function Readable(codec: Codec, lines: seq<Bytes>): (read: seq<Bytes>)
    ensures AllUnbroken(lines) ==> AllUnbroken(read)
  {
    if LastUnread(codec, lines) then lines[..|lines| - 1] else lines
  }

  function Unreadable(codec: Codec, lines: seq<Bytes>): seq<Bytes> {
    if LastUnread(codec, lines) then [lines[|lines| - 1] + [NL]] else []
  }

  lemma RecoveredUnread(codec: Codec, lines: seq<Bytes>)
    requires AllUnbroken(lines)
    ensures !LastUnread(codec, Readable(codec, lines))
    ensures var later := Recovered(codec, Serialize(Readable(codec, lines)));
            Recovered(codec, Serialize(lines)) == Repair(later.rest, Unreadable(codec, lines) + later.pieces)
  {
    var later := Recovered(codec, Serialize(Readable(codec, lines)));
    if LastUnread(codec, lines) {
      UnreadOnce(codec, lines);
      RecoveredLine(codec, lines);
      hide LastUnread, Recovered;
      assert Recovered(codec, Serialize(lines)).pieces == Unreadable(codec, lines) + later.pieces;
    } else {
      hide LastUnread, Recovered;
      assert Unreadable(codec, lines) + later.pieces == later.pieces;
    }
  }

  /** All that repair takes from any bytes, in order: the unterminated tail, then one last line that
      cannot be decoded, then one last row with the wrong hash. */
  lemma RecoveredExactly(codec: Codec, data: Bytes)
    ensures var lines := CompleteLines(data);
            var read := Readable(codec, lines);
            var tampered := LastTampered(codec, read);
            && (tampered ==> read != [])
            && Recovered(codec, data) ==
               Repair(Serialize(if tampered then read[..|read| - 1] else read),
                      (if Tail(data) != [] then [Tail(data)] else [])
                      + (Unreadable(codec, lines)
                         + if tampered then [read[|read| - 1] + [NL]] else []))
  {
    var lines := CompleteLines(data);
    RecoveredTail(codec, data);
    RecoveredUnread(codec, lines);
    RecoveredRead(codec, Readable(codec, lines));
    hide *;
    var whole := Recovered(codec, Serialize(lines));
    assert [] + whole.pieces == whole.pieces;
  }

  lemma UnreadOnce(codec: Codec, lines: seq<Bytes>)
    requires LastUnread(codec, lines)
    ensures !LastTampered(codec, lines) && !LastUnread(codec, lines[..|lines| - 1])
  {
  }

  lemma RecoveredTail(codec: Codec, data: Bytes)
    ensures var whole := Recovered(codec, Serialize(CompleteLines(data)));
            Recovered(codec, data) ==
            if Tail(data) == [] then whole else Repair(whole.rest, [Tail(data)] + whole.pieces)
  {
    var lines, t := CompleteLines(data), Tail(data);
    Reassemble(data);
    if t == [] {
      assert Serialize(lines) + t == Serialize(lines);
    } else {
      SerializeEnds(lines);
      CutAfter(Serialize(lines), t);
      TornIff(codec, data);
      RecoveredUnfolds(codec, data);
    }
    hide *;
  }

  /** Repair removes more than one piece exactly when two of its three grounds hold: the tail is not
      terminated, the last line cannot be decoded, or the row before those has the wrong hash.  It
      never removes more than three. */
  lemma RecoverTakesMoreIff(codec: Codec, data: Bytes)
    ensures var lines, count := CompleteLines(data), |Recovered(codec, data).pieces|;
            && count <= 3
            && (count > 1 <==>
                || (Tail(data) != [] && (LastUnread(codec, lines) || LastTampered(codec, lines)))
                || (LastUnread(codec, lines) && LastTampered(codec, lines[..|lines| - 1])))
  {
    RecoveredExactly(codec, data);
    if LastUnread(codec, CompleteLines(data)) {
      UnreadOnce(codec, CompleteLines(data));
    }
    hide *;
  }

  /** On damaged bytes repair can reach past the torn tail: once it is gone, a final row whose
      hash is wrong has become the new torn tail, and goes too. */
  lemma RecoverTakesTamperedRow(codec: Codec, rows: seq<Row>, bad: Row, tail: Bytes)
    requires Faithful(codec) && Accepted(codec, rows) && codec.accepts(bad) && Chain(rows)
    requires Linked(rows + [bad], |rows|) && !HashHolds(bad)
    requires Unbroken(tail) && tail != []
    ensures Recovered(codec, Render(codec, rows + [bad]) + tail) ==
            Repair(Render(codec, rows), [tail, codec.text(bad) + [NL]])
  {
    hide VerifyFile, Recovered, CutPoint, Render;
    var all := rows + [bad];
    var whole, kept, line := Render(codec, all), Render(codec, rows), codec.text(bad) + [NL];
    assert ReadsBack(codec, bad);
    assert line[..|line| - 1] == codec.text(bad);
    RenderConcat(codec, rows, [bad]);
    RenderOne(codec, bad);
    VerifyRendered(codec, all, tail);
    assert all[..|rows|] == rows;
    TornRowsIff(all);
    RenderEnds(codec, rows);
    RenderEnds(codec, all);
    CutAfter(whole, tail);
    CutAfter(kept, line);
    RecoverRendered(codec, rows, []);
    assert kept + [] == kept;
    RecoveredUnfolds(codec, whole + tail);
    RecoveredUnfolds(codec, whole);
    assert [tail] + ([line] + []) == [tail, line];
  }
}
