/** The hash-chained append-only ledger: reading, checking and repairing its file. */
module Ledger {
  import opened Records
  import opened Framing

  /** What decoding one line gives: undecodable text, a row the schema refuses, or a row. */
  datatype Parsed = NotJson | BadSchema | Good(row: Row)

  /** Row text is library code here: a printer, a parser, the schema and the timestamp reader. */
  datatype Codec = Codec(
    parse: Bytes -> Parsed,
    text: Row -> Bytes,
    accepts: Row -> bool,
    instant: string -> Option<int>)

  /** A printed row is one non-empty line and reads back as itself. */
  predicate ReadsBack(codec: Codec, row: Row) {
    && Unbroken(codec.text(row))
    && codec.text(row) != []
    && codec.parse(codec.text(row)) == (if codec.accepts(row) then Good(row) else BadSchema)
  }

  ghost predicate Faithful(codec: Codec) {
    forall row :: ReadsBack(codec, row)
  }

  datatype ReadResult = Torn | Corrupt | Rows(rows: seq<Row>)

  /** Decode lines in order; the first one that fails decides. */
  function ParseLines(codec: Codec, lines: seq<Bytes>): ReadResult {
    if lines == [] then Rows([])
    else
      match codec.parse(lines[0])
      case NotJson => if |lines| == 1 then Torn else Corrupt
      case BadSchema => Corrupt
      case Good(row) =>
        match ParseLines(codec, lines[1..])
        case Rows(rest) => Rows([row] + rest)
        case failure => failure
  }

  /** `Ledger.rows`: a missing final newline is reported before any line is decoded. */
  function ReadRows(codec: Codec, data: Bytes): ReadResult {
    if Tail(data) != [] then Torn else ParseLines(codec, CompleteLines(data))
  }

  lemma {:induction false} ParseStuck(codec: Codec, lines: seq<Bytes>, n: nat)
    requires n < |lines| && !codec.parse(lines[n]).Good?
    requires forall m :: 0 <= m < n ==> codec.parse(lines[m]).Good?
    ensures ParseLines(codec, lines) ==
            if codec.parse(lines[n]).NotJson? && n == |lines| - 1 then Torn else Corrupt
  {
    if n > 0 {
      ParseStuck(codec, lines[1..], n - 1);
    }
  }

  lemma {:induction false} ParseGood(codec: Codec, lines: seq<Bytes>, rows: seq<Row>)
    requires |rows| == |lines|
    requires forall m :: 0 <= m < |lines| ==> codec.parse(lines[m]) == Good(rows[m])
    ensures ParseLines(codec, lines) == Rows(rows)
  {
    if lines != [] {
      ParseGood(codec, lines[1..], rows[1..]);
      assert rows == [rows[0]] + rows[1..];
    }
  }

  method ReadLedger(codec: Codec, data: Bytes) returns (r: ReadResult)
    ensures r == ReadRows(codec, data)
  {
    if Tail(data) != [] {
      return Torn;
    }
    var lines := CompleteLines(data);
    var rows: seq<Row> := [];
    for n := 0 to |lines|
      invariant |rows| == n
      invariant forall m :: 0 <= m < n ==> codec.parse(lines[m]) == Good(rows[m])
    {
      match codec.parse(lines[n]) {
        case NotJson =>
          ParseStuck(codec, lines, n);
          return if n == |lines| - 1 then Torn else Corrupt;
        case BadSchema =>
          ParseStuck(codec, lines, n);
          return Corrupt;
        case Good(row) =>
          rows := rows + [row];
      }
    }
    ParseGood(codec, lines, rows);
    return Rows(rows);
  }

  // ---- The chain -------------------------------------------------------------

  /** Intact with the row count, or the class of the first error. */
  datatype Verdict = Intact(count: nat) | TornTail | Broken

  predicate IsBoundary(row: Row) {
    row.body.payload.Boundary?
  }

  function PrevOf(rows: seq<Row>, n: nat): Digest
    requires n <= |rows|
  {
    if n == 0 then GENESIS_PREV else rows[n - 1].h
  }

  /** What row `n` must satisfy on its own and against its predecessor. */
  predicate Linked(rows: seq<Row>, n: nat)
    requires n < |rows|
  {
    && rows[n].body.i == n
    && (rows[n].body.payload.Genesis? <==> n == 0)
    && rows[n].body.prev == PrevOf(rows, n)
  }

  predicate HashHolds(row: Row) {
    row.h == RowHash(row.body)
  }

  /** Row `n` respects the provenance boundary, given whether one came before it. */
  predicate VersionHolds(row: Row, seen: bool) {
    if IsBoundary(row) then !seen else row.body.version == V3 ==> seen
  }

  /** The loop of `verify_chain` from row `n` on. */
  function CheckFrom(rows: seq<Row>, n: nat, seen: bool): Verdict
    requires n <= |rows|
    decreases |rows| - n
  {
    if n == |rows| then Intact(|rows|)
    else if !Linked(rows, n) then Broken
    else if !HashHolds(rows[n]) then (if n == |rows| - 1 then TornTail else Broken)
    else if !VersionHolds(rows[n], seen) then Broken
    else CheckFrom(rows, n + 1, seen || IsBoundary(rows[n]))
  }

  function VerifyRows(rows: seq<Row>, expectTip: Option<Digest>): Verdict {
    match CheckFrom(rows, 0, false)
    case Intact(count) =>
      if expectTip.Some? && (rows == [] || rows[|rows| - 1].h != expectTip.value) then Broken
      else Intact(count)
    case failure => failure
  }

  function VerifyFile(codec: Codec, data: Bytes, expectTip: Option<Digest>): Verdict {
    match ReadRows(codec, data)
    case Torn => TornTail
    case Corrupt => Broken
    case Rows(rows) => VerifyRows(rows, expectTip)
  }

  method VerifyChain(codec: Codec, data: Bytes, expectTip: Option<Digest>) returns (v: Verdict)
    ensures v == VerifyFile(codec, data, expectTip)
  {
    var read := ReadLedger(codec, data);
    match read {
      case Torn => return TornTail;
      case Corrupt => return Broken;
      case Rows(rows) =>
        var seen := false;
        for n := 0 to |rows|
          invariant CheckFrom(rows, n, seen) == CheckFrom(rows, 0, false)
        {
          if !Linked(rows, n) {
            return Broken;
          }
          if !HashHolds(rows[n]) {
            return if n == |rows| - 1 then TornTail else Broken;
          }
          if IsBoundary(rows[n]) {
            if seen {
              return Broken;
            }
            seen := true;
          } else if rows[n].body.version == V3 && !seen {
            return Broken;
          }
        }
        if expectTip.Some? && (rows == [] || rows[|rows| - 1].h != expectTip.value) {
          return Broken;
        }
        return Intact(|rows|);
    }
  }

  ghost predicate BoundaryBefore(rows: seq<Row>, n: nat)
    requires n <= |rows|
  {
    exists m :: 0 <= m < n && IsBoundary(rows[m])
  }

  /** Row `n` is in its place: indexed, linked and hashed, and on the right side of the boundary. */
  ghost predicate InPlace(rows: seq<Row>, n: nat)
    requires n < |rows|
  {
    Linked(rows, n) && HashHolds(rows[n]) && VersionHolds(rows[n], BoundaryBefore(rows, n))
  }

  /** One linear chain. */
  ghost predicate Chain(rows: seq<Row>) {
    forall n :: 0 <= n < |rows| ==> InPlace(rows, n)
  }

  /** What a chain is, row by row: genesis first and only first, sequential indexes, every row
      hashed and naming its predecessor, at most one boundary, and no v3 row before it. */
  lemma ChainReads(rows: seq<Row>)
    requires Chain(rows)
    ensures forall n :: 0 <= n < |rows| ==> (rows[n].body.payload.Genesis? <==> n == 0)
    ensures forall n :: 0 <= n < |rows| ==> rows[n].body.i == n && rows[n].h == RowHash(rows[n].body)
    ensures forall n :: 0 <= n < |rows| ==> rows[n].body.prev == PrevOf(rows, n)
    ensures forall m, n :: 0 <= m < n < |rows| ==> !(IsBoundary(rows[m]) && IsBoundary(rows[n]))
    ensures forall n :: 0 <= n < |rows| && rows[n].body.version == V3 && !IsBoundary(rows[n]) ==>
              BoundaryBefore(rows, n)
  {
    forall n | 0 <= n < |rows|
      ensures rows[n].body.payload.Genesis? <==> n == 0
      ensures rows[n].body.i == n && rows[n].h == RowHash(rows[n].body)
      ensures rows[n].body.prev == PrevOf(rows, n)
      ensures VersionHolds(rows[n], BoundaryBefore(rows, n))
    {
      assert InPlace(rows, n);
    }
  }

  lemma {:induction false} IntactSuffix(rows: seq<Row>, n: nat, seen: bool)
    requires n <= |rows| && seen == BoundaryBefore(rows, n)
    ensures CheckFrom(rows, n, seen).Intact? <==> forall k :: n <= k < |rows| ==> InPlace(rows, k)
    ensures CheckFrom(rows, n, seen).Intact? ==> CheckFrom(rows, n, seen).count == |rows|
    decreases |rows| - n
  {
    if n < |rows| {
      assert BoundaryBefore(rows, n + 1) == (seen || IsBoundary(rows[n]));
      IntactSuffix(rows, n + 1, seen || IsBoundary(rows[n]));
      assert InPlace(rows, n) <==> Linked(rows, n) && HashHolds(rows[n]) && VersionHolds(rows[n], seen);
    }
  }

  /** The loop accepts exactly the linear chains. */
  lemma IntactIffChain(rows: seq<Row>)
    ensures VerifyRows(rows, None) == Intact(|rows|) <==> Chain(rows)
    ensures VerifyRows(rows, None).Intact? <==> Chain(rows)
  {
    IntactSuffix(rows, 0, false);
  }

  lemma InPlaceInPrefix(rows: seq<Row>, n: nat, k: nat)
    requires k < n <= |rows|
    ensures InPlace(rows[..n], k) <==> InPlace(rows, k)
  {
    var cut := rows[..n];
    assert PrevOf(cut, k) == PrevOf(rows, k);
    assert forall m :: 0 <= m < k ==> cut[m] == rows[m];
    assert BoundaryBefore(cut, k) <==> BoundaryBefore(rows, k);
  }

  lemma ChainPrefix(rows: seq<Row>, n: nat)
    requires Chain(rows) && n <= |rows|
    ensures Chain(rows[..n])
  {
    forall k | 0 <= k < n
      ensures InPlace(rows[..n], k)
    {
      InPlaceInPrefix(rows, n, k);
    }
  }

  /** A chain grows by one row that is in place at its end. */
  lemma ChainExtend(rows: seq<Row>, row: Row)
    requires Chain(rows) && InPlace(rows + [row], |rows|)
    ensures Chain(rows + [row])
  {
    var all := rows + [row];
    assert all[..|rows|] == rows;
    forall k | 0 <= k < |all|
      ensures InPlace(all, k)
    {
      if k < |rows| {
        InPlaceInPrefix(all, |rows|, k);
      }
    }
  }

  /** A tip hash fixes the whole history: two intact ledgers with one tip have the same rows. */
  lemma {:induction false} TipBinding(a: seq<Row>, b: seq<Row>)
    requires Chain(a) && Chain(b) && a != [] && b != []
    requires a[|a| - 1].h == b[|b| - 1].h
    ensures a == b
    decreases |a|
  {
    var m, n := |a| - 1, |b| - 1;
    assert InPlace(a, m) && InPlace(b, n);
    assert a[m] == b[n] && m == n;
    if m > 0 {
      ChainPrefix(a, m);
      ChainPrefix(b, m);
      TipBinding(a[..m], b[..m]);
    }
    assert a == a[..m] + [a[m]] && b == b[..m] + [b[m]];
  }

  /** Passing `expect_tip` closes the truncation gap: only the very ledger with that tip passes. */
  lemma ExpectedTipFixesLedger(anchored: seq<Row>, rows: seq<Row>)
    requires Chain(anchored) && anchored != []
    ensures VerifyRows(rows, Some(anchored[|anchored| - 1].h)).Intact? <==> rows == anchored
  {
    IntactIffChain(rows);
    IntactIffChain(anchored);
    if VerifyRows(rows, Some(anchored[|anchored| - 1].h)).Intact? {
      TipBinding(rows, anchored);
    }
  }

  // ---- Repair ----------------------------------------------------------------

  /** The end of the last line that ends at or before `end`. */
  function LastBreak(data: Bytes, end: nat): (b: nat)
    requires end <= |data|
    ensures b <= end
    ensures b > 0 ==> data[b - 1] == NL
    ensures Unbroken(data[b..end])
  {
    if end == 0 || data[end - 1] == NL then end
    else
      var b := LastBreak(data, end - 1);
      assert data[b..end] == data[b..end - 1] + [data[end - 1]];
      b
  }

  /** Where `recover` truncates: before the last line, terminated or not. */
  function CutPoint(data: Bytes): nat
    requires data != []
    ensures CutPoint(data) < |data|
  {
    LastBreak(data, |data| - 1)
  }

  lemma TornIsNonEmpty(codec: Codec, data: Bytes)
    ensures VerifyFile(codec, data, None) == TornTail ==> data != []
  {
    if data == [] {
      assert SplitAtBreaks(data) == [data];
      assert CompleteLines(data) == [];
    }
  }

  datatype Repair = Repair(rest: Bytes, pieces: seq<Bytes>)

  /** What is left after repair, and the pieces taken off, in the order they were removed. */
  function Recovered(codec: Codec, data: Bytes): Repair
    decreases |data|
  {
    TornIsNonEmpty(codec, data);
    if VerifyFile(codec, data, None) == TornTail then
      var b := CutPoint(data);
      var before := Recovered(codec, data[..b]);
      Repair(before.rest, [data[b..]] + before.pieces)
    else Repair(data, [])
  }

  function Concat(pieces: seq<Bytes>): Bytes {
    if pieces == [] then [] else pieces[0] + Concat(pieces[1..])
  }

  /** The pieces in the order they stood in the file. */
  function ConcatReversed(pieces: seq<Bytes>): Bytes {
    if pieces == [] then [] else ConcatReversed(pieces[1..]) + pieces[0]
  }

  lemma {:induction false} ConcatSnoc(pieces: seq<Bytes>, last: Bytes)
    ensures Concat(pieces + [last]) == Concat(pieces) + last
  {
    if pieces == [] {
      assert pieces + [last] == [last];
      assert [last][1..] == [];
    } else {
      ConcatSnoc(pieces[1..], last);
      assert (pieces + [last])[1..] == pieces[1..] + [last];
    }
  }

  /** A quarantined piece is one line: unbroken but for a newline at its very end. */
  predicate OneLine(piece: Bytes) {
    piece != [] && Unbroken(piece[..|piece| - 1])
  }

  /** Repair loses no byte, stops only at a file that is not torn, and takes whole lines. */
  lemma {:induction false} RecoveredLaws(codec: Codec, data: Bytes)
    ensures var r := Recovered(codec, data);
            && r.rest + ConcatReversed(r.pieces) == data
            && |Concat(r.pieces)| == |data| - |r.rest|
            && VerifyFile(codec, r.rest, None) != TornTail
            && (forall k :: 0 <= k < |r.pieces| ==> OneLine(r.pieces[k]))
            && (r.pieces == [] <==> VerifyFile(codec, data, None) != TornTail)
    decreases |data|
  {
    hide VerifyFile;
    TornIsNonEmpty(codec, data);
    if VerifyFile(codec, data, None) == TornTail {
      var b := CutPoint(data);
      RecoveredLaws(codec, data[..b]);
      var before := Recovered(codec, data[..b]);
      assert data[..b] + data[b..] == data;
      Associative(before.rest, ConcatReversed(before.pieces), data[b..]);
      assert ([data[b..]] + before.pieces)[1..] == before.pieces;
      assert data[b..][..|data[b..]| - 1] == data[b..|data| - 1];
    }
  }

  lemma RecoveredUnfolds(codec: Codec, data: Bytes)
    ensures VerifyFile(codec, data, None) != TornTail ==> Recovered(codec, data) == Repair(data, [])
    ensures VerifyFile(codec, data, None) == TornTail ==>
              && data != []
              && var b := CutPoint(data);
              && Recovered(codec, data) ==
                 Repair(Recovered(codec, data[..b]).rest, [data[b..]] + Recovered(codec, data[..b]).pieces)
  {
    hide VerifyFile;
    TornIsNonEmpty(codec, data);
  }

  /** One repair round keeps the account of what was removed so far. */
  lemma RepairRound(codec: Codec, data: Bytes, done: seq<Bytes>, before: Bytes)
    requires VerifyFile(codec, data, None) == TornTail
    ensures data != []
    ensures var b := CutPoint(data);
            && Recovered(codec, data).rest == Recovered(codec, data[..b]).rest
            && done + Recovered(codec, data).pieces == done + [data[b..]] + Recovered(codec, data[..b]).pieces
            && before + Concat(done) + data[b..] == before + Concat(done + [data[b..]])
  {
    hide VerifyFile, Recovered, CutPoint, Concat;
    RecoveredUnfolds(codec, data);
    var torn := data[CutPoint(data)..];
    ConcatSnoc(done, torn);
    Associative(before, Concat(done), torn);
  }

  datatype RecoverResult = RecoveredBytes(count: nat) | LedgerError

  /** The ledger file, its quarantine file, and how much of the ledger is on durable storage. */
  class LedgerFile {
    var data: Bytes
    var quarantine: Bytes
    var synced: nat

    ghost predicate Valid()
      reads this
    {
      synced <= |data|
    }

    constructor ()
      ensures Valid() && data == [] && quarantine == [] && synced == 0
    {
      data, quarantine, synced := [], [], 0;
    }

    /** Quarantine and cut off final lines until the file is not torn. */
    method Recover(codec: Codec) returns (r: RecoverResult)
      requires Valid()
      modifies this
      ensures Valid()
      ensures data == Recovered(codec, old(data)).rest
      ensures quarantine == old(quarantine) + Concat(Recovered(codec, old(data)).pieces)
      ensures |data| <= |old(data)|
      ensures r == if VerifyFile(codec, data, None).Intact? then RecoveredBytes(|old(data)| - |data|) else LedgerError
      ensures r.RecoveredBytes? ==> synced == |data|
    {
      assert Concat([]) == [];
      hide VerifyFile, Recovered, CutPoint, Concat;
      ghost var start := Recovered(codec, data);
      ghost var done: seq<Bytes> := [];
      ghost var total := |data|;
      RecoveredLaws(codec, data);
      var quarantined := 0;
      while true
        invariant Valid()
        invariant start.rest == Recovered(codec, data).rest
        invariant start.pieces == done + Recovered(codec, data).pieces
        invariant quarantine == old(quarantine) + Concat(done)
        invariant quarantined + |data| == total
        decreases |data|
      {
        TornIsNonEmpty(codec, data);
        var verdict := VerifyChain(codec, data, None);
        match verdict {
          case Intact(_) =>
            RecoveredUnfolds(codec, data);
            assert start.pieces == done;
            synced := |data|;
            return RecoveredBytes(quarantined);
          case Broken =>
            RecoveredUnfolds(codec, data);
            assert start.pieces == done;
            return LedgerError;
          case TornTail =>
            var boundary := CutPoint(data);
            var torn := data[boundary..];
            RepairRound(codec, data, done, old(quarantine));
            done := done + [torn];
            quarantine := quarantine + torn;
            data := data[..boundary];
            synced := boundary;
            quarantined := quarantined + |torn|;
        }
      }
    }
  }

  // ---- Well-formed files -----------------------------------------------------

  /** The text of each row, in order. */
  function Texts(codec: Codec, rows: seq<Row>): (texts: seq<Bytes>)
    ensures |texts| == |rows|
    ensures forall k :: 0 <= k < |rows| ==> texts[k] == codec.text(rows[k])
  {
    seq(|rows|, k requires 0 <= k < |rows| => codec.text(rows[k]))
  }

  /** The file that holds exactly these rows. */
  function Render(codec: Codec, rows: seq<Row>): Bytes {
    Serialize(Texts(codec, rows))
  }

  predicate Accepted(codec: Codec, rows: seq<Row>) {
    forall k :: 0 <= k < |rows| ==> codec.accepts(rows[k])
  }

  lemma RenderConcat(codec: Codec, a: seq<Row>, b: seq<Row>)
    ensures Render(codec, a + b) == Render(codec, a) + Render(codec, b)
  {
    assert Texts(codec, a + b) == Texts(codec, a) + Texts(codec, b);
    SerializeConcat(Texts(codec, a), Texts(codec, b));
  }

  lemma RenderOne(codec: Codec, row: Row)
    ensures Render(codec, [row]) == codec.text(row) + [NL]
  {
    assert Texts(codec, [row]) == [codec.text(row)];
    SerializeOne(codec.text(row));
  }

  /** A well-formed file with an unterminated tail reads as its rows, or as torn when the tail
      is not empty. */
  lemma ReadRendered(codec: Codec, rows: seq<Row>, tail: Bytes)
    requires Faithful(codec) && Accepted(codec, rows) && Unbroken(tail)
    ensures ReadRows(codec, Render(codec, rows) + tail) == if tail == [] then Rows(rows) else Torn
    ensures Tail(Render(codec, rows) + tail) == tail
  {
    var texts := Texts(codec, rows);
    assert forall k :: 0 <= k < |rows| ==> ReadsBack(codec, rows[k]);
    SplitSerialized(texts, tail);
    ParseGood(codec, texts, rows);
  }

  lemma {:induction false} LastBreakStops(data: Bytes, b: nat, end: nat)
    requires b <= end <= |data| && Unbroken(data[b..end]) && (b == 0 || data[b - 1] == NL)
    ensures LastBreak(data, end) == b
    decreases end
  {
    if end > b {
      assert data[end - 1] == data[b..end][end - 1 - b];
      assert data[b..end - 1] == data[b..end][..end - 1 - b];
      LastBreakStops(data, b, end - 1);
    }
  }

  lemma RenderEnds(codec: Codec, rows: seq<Row>)
    ensures Render(codec, rows) == [] || Render(codec, rows)[|Render(codec, rows)| - 1] == NL
  {
    SerializeEnds(Texts(codec, rows));
    assert rows == [] ==> Texts(codec, rows) == [];
  }

  lemma CutAfter(whole: Bytes, line: Bytes)
    requires OneLine(line) && (whole == [] || whole[|whole| - 1] == NL)
    ensures CutPoint(whole + line) == |whole|
    ensures (whole + line)[..|whole|] == whole && (whole + line)[|whole|..] == line
  {
    var data := whole + line;
    assert data[|whole|..|data| - 1] == line[..|line| - 1];
    LastBreakStops(data, |whole|, |data| - 1);
  }

  lemma VerifyRendered(codec: Codec, rows: seq<Row>, tail: Bytes)
    requires Faithful(codec) && Accepted(codec, rows) && Unbroken(tail)
    ensures VerifyFile(codec, Render(codec, rows) + tail, None) ==
            if tail == [] then VerifyRows(rows, None) else TornTail
    ensures VerifyFile(codec, Render(codec, rows), None) == VerifyRows(rows, None)
  {
    ReadRendered(codec, rows, tail);
    ReadRendered(codec, rows, []);
    assert Render(codec, rows) + [] == Render(codec, rows);
  }

  /** Repair of a well-formed chain with a torn tail removes the tail and nothing else. */
  lemma RecoverRendered(codec: Codec, rows: seq<Row>, tail: Bytes)
    requires Faithful(codec) && Accepted(codec, rows) && Chain(rows) && Unbroken(tail)
    ensures Recovered(codec, Render(codec, rows) + tail) ==
            Repair(Render(codec, rows), if tail == [] then [] else [tail])
    ensures VerifyFile(codec, Render(codec, rows), None) == Intact(|rows|)
  {
    hide VerifyFile, Recovered, CutPoint;
    var whole := Render(codec, rows);
    VerifyRendered(codec, rows, tail);
    IntactIffChain(rows);
    RecoveredUnfolds(codec, whole);
    if tail == [] {
      assert whole + tail == whole;
    } else {
      RenderEnds(codec, rows);
      CutAfter(whole, tail);
      RecoveredUnfolds(codec, whole + tail);
      assert [tail] + [] == [tail];
    }
  }
}
