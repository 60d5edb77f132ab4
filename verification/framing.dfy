/** Newline framing: how append-only files are cut into records. */
module Framing {
  import opened Records

  predicate Unbroken(s: Bytes) {
    NL !in s
  }

  predicate AllUnbroken(items: seq<Bytes>) {
    forall i :: 0 <= i < |items| ==> Unbroken(items[i])
  }

  /** The position of the first newline, or `|data|`. */
  function FirstBreak(data: Bytes): (k: nat)
    ensures k <= |data| && Unbroken(data[..k])
    ensures k < |data| ==> data[k] == NL
  {
    if data == [] || data[0] == NL then 0
    else
      var k := FirstBreak(data[1..]);
      assert data[..k + 1] == [data[0]] + data[1..][..k];
      k + 1
  }

  /** Every piece between newlines, the unterminated last one included. */
  function SplitAtBreaks(data: Bytes): (pieces: seq<Bytes>)
    ensures pieces != [] && AllUnbroken(pieces)
    decreases |data|
  {
    var k := FirstBreak(data);
    if k == |data| then [data] else [data[..k]] + SplitAtBreaks(data[k + 1..])
  }

  /** The complete records of a file: what the pieces are without the last one. */
  function CompleteLines(data: Bytes): (lines: seq<Bytes>)
    ensures AllUnbroken(lines)
  {
    var pieces := SplitAtBreaks(data);
    pieces[..|pieces| - 1]
  }

  /** The bytes after the last newline. */
  function Tail(data: Bytes): (t: Bytes)
    ensures Unbroken(t)
  {
    var pieces := SplitAtBreaks(data);
    pieces[|pieces| - 1]
  }

  /** The file that holds exactly these records. */
  function Serialize(items: seq<Bytes>): Bytes {
    if items == [] then [] else items[0] + [NL] + Serialize(items[1..])
  }

  lemma {:induction false} SerializeConcat(a: seq<Bytes>, b: seq<Bytes>)
    ensures Serialize(a + b) == Serialize(a) + Serialize(b)
  {
    if a == [] {
      assert a + b == b;
    } else {
      SerializeConcat(a[1..], b);
      assert (a + b)[1..] == a[1..] + b;
    }
  }

  lemma SerializeCons(item: Bytes, rest: seq<Bytes>)
    ensures Serialize([item] + rest) == item + [NL] + Serialize(rest)
  {
    assert ([item] + rest)[1..] == rest;
  }

  lemma SerializeOne(item: Bytes)
    ensures Serialize([item]) == item + [NL]
  {
    assert [item][1..] == [];
  }

  lemma {:induction false} FirstBreakOf(item: Bytes, rest: Bytes)
    requires Unbroken(item)
    ensures FirstBreak(item + [NL] + rest) == |item|
    ensures FirstBreak(item) == |item|
  {
    if item != [] {
      assert (item + [NL] + rest)[1..] == item[1..] + [NL] + rest;
      FirstBreakOf(item[1..], rest);
    }
  }

  lemma Associative(a: Bytes, b: Bytes, c: Bytes)
    ensures a + b + c == a + (b + c)
  {
  }

  lemma SplitFirst(item: Bytes, rest: Bytes)
    requires Unbroken(item)
    ensures SplitAtBreaks(item + [NL] + rest) == [item] + SplitAtBreaks(rest)
  {
    var data := item + [NL] + rest;
    FirstBreakOf(item, rest);
    assert data[..|item|] == item;
    assert data[|item| + 1..] == rest;
  }

  lemma {:induction false} SplitPieces(items: seq<Bytes>, tail: Bytes)
    requires AllUnbroken(items) && Unbroken(tail)
    ensures SplitAtBreaks(Serialize(items) + tail) == items + [tail]
  {
    if items == [] {
      assert Serialize(items) + tail == tail;
      FirstBreakOf(tail, []);
    } else {
      var head, rest := items[0] + [NL], Serialize(items[1..]);
      SplitPieces(items[1..], tail);
      SplitFirst(items[0], rest + tail);
      Associative(head, rest, tail);
      assert items == [items[0]] + items[1..];
    }
  }

  /** Splitting undoes writing records and then an unterminated tail. */
  lemma SplitSerialized(items: seq<Bytes>, tail: Bytes)
    requires AllUnbroken(items) && Unbroken(tail)
    ensures CompleteLines(Serialize(items) + tail) == items
    ensures Tail(Serialize(items) + tail) == tail
  {
    SplitPieces(items, tail);
    assert (items + [tail])[..|items|] == items;
  }

  /** Reading a file takes off its first record and goes on with the rest. */
  lemma SplitStep(data: Bytes)
    requires FirstBreak(data) < |data|
    ensures var k := FirstBreak(data);
            && CompleteLines(data) == [data[..k]] + CompleteLines(data[k + 1..])
            && Tail(data) == Tail(data[k + 1..])
  {
    hide FirstBreak, Unbroken, AllUnbroken;
    var k := FirstBreak(data);
    DropLast(data[..k], SplitAtBreaks(data[k + 1..]));
  }

  lemma DropLast(first: Bytes, later: seq<Bytes>)
    requires later != []
    ensures var pieces := [first] + later;
            pieces[..|pieces| - 1] == [first] + later[..|later| - 1] && pieces[|pieces| - 1] == later[|later| - 1]
  {
  }

  lemma AroundBreak(data: Bytes, k: nat)
    requires k < |data| && data[k] == NL
    ensures data == data[..k] + [NL] + data[k + 1..]
  {
  }

  /** Writing undoes splitting: every file is its complete records and its tail. */
  lemma {:induction false} Reassemble(data: Bytes)
    ensures Serialize(CompleteLines(data)) + Tail(data) == data
    decreases |data|
  {
    var k := FirstBreak(data);
    if k == |data| {
      hide FirstBreak;
      assert CompleteLines(data) == [] && Tail(data) == data;
    } else {
      hide *;
      var rest := data[k + 1..];
      SplitStep(data);
      Reassemble(rest);
      SerializeCons(data[..k], CompleteLines(rest));
      Associative(data[..k] + [NL], Serialize(CompleteLines(rest)), Tail(rest));
      AroundBreak(data, k);
    }
  }

  lemma {:induction false} SerializeEnds(items: seq<Bytes>)
    ensures items != [] ==> Serialize(items) != [] && Serialize(items)[|Serialize(items)| - 1] == NL
  {
    if |items| > 1 {
      SerializeEnds(items[1..]);
    }
  }

  lemma SerializePrefix(a: seq<Bytes>, b: seq<Bytes>)
    requires a <= b
    ensures Serialize(a) <= Serialize(b)
  {
    assert b == a + b[|a|..];
    SerializeConcat(a, b[|a|..]);
  }

  /** Cutting a file short keeps whole records and at most a strict part of the next line. */
  lemma {:induction false} CutSerialized(items: seq<Bytes>, tail: Bytes, keep: nat)
      returns (whole: nat, part: Bytes)
    requires AllUnbroken(items) && Unbroken(tail) && keep <= |Serialize(items) + tail|
    ensures whole <= |items| && Unbroken(part)
    ensures (Serialize(items) + tail)[..keep] == Serialize(items[..whole]) + part
    ensures part <= if whole < |items| then items[whole] else tail
    ensures forall k :: 0 <= k <= |items| && |Serialize(items[..k])| <= keep ==> k <= whole
  {
    if items == [] {
      whole, part := 0, tail[..keep];
      assert (Serialize(items) + tail)[..keep] == part;
    } else {
      var first := items[0] + [NL];
      var data := Serialize(items) + tail;
      assert data == first + (Serialize(items[1..]) + tail);
      if keep <= |items[0]| {
        whole, part := 0, items[0][..keep];
        assert data[..keep] == part;
        forall k | 0 < k <= |items|
          ensures |Serialize(items[..k])| > keep
        {
          assert items[..k][0] == items[0];
        }
      } else {
        var w, p := CutSerialized(items[1..], tail, keep - |first|);
        whole, part := w + 1, p;
        assert data[..keep] == first + (Serialize(items[1..]) + tail)[..keep - |first|];
        assert items[..whole][1..] == items[1..][..w];
        forall k | 0 <= k <= |items| && |Serialize(items[..k])| <= keep
          ensures k <= whole
        {
          if k > 0 {
            assert items[..k][1..] == items[1..][..k - 1];
          }
        }
      }
    }
  }
}
