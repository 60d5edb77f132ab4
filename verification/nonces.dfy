/** The per-session nonce file.

A row is one JSON text and one newline, written by one call that a kill can cut anywhere.
The file is a sequence of cells: a whole row text, a newline, or a fragment of a row text.
*/
module Nonces {
  import opened Records

  datatype Cell = RowText(index: nat, nonce: Bytes) | Break | Fragment

  /** The cells on file and how many of them are on durable storage. */
  datatype NonceFile = NonceFile(cells: seq<Cell>, synced: nat)

  /** Read lines from `index` on: a line must be exactly one row text with the expected index. */
  function LoadFrom(cells: seq<Cell>, index: nat): Option<seq<Bytes>>
    decreases |cells|
  {
    if cells == [] then Some([])
    else if !cells[0].RowText? || cells[0].index != index || |cells[0].nonce| != NONCE_LEN then None
    else if |cells| == 1 then Some([cells[0].nonce])
    else if !cells[1].Break? then None
    else
      match LoadFrom(cells[2..], index + 1)
      case None => None
      case Some(rest) => Some([cells[0].nonce] + rest)
  }

  /** `load_nonces`: the nonces in item order, or None where the source raises. */
  function Load(cells: seq<Cell>): Option<seq<Bytes>> {
    LoadFrom(cells, 0)
  }

  method LoadNonces(cells: seq<Cell>) returns (r: Option<seq<Bytes>>)
    ensures r == Load(cells)
  {
    var nonces: seq<Bytes> := [];
    var at := 0;
    assert cells[0..] == cells;
    assert Load(cells).Some? ==> [] + Load(cells).value == Load(cells).value;
    while at < |cells|
      invariant 0 <= at <= |cells|
      invariant Load(cells) == match LoadFrom(cells[at..], |nonces|)
                               case None => None
                               case Some(rest) => Some(nonces + rest)
      decreases |cells| - at
    {
      var line := cells[at];
      if !line.RowText? || line.index != |nonces| || |line.nonce| != NONCE_LEN {
        return None;
      }
      if at + 1 == |cells| {
        return Some(nonces + [line.nonce]);
      }
      if !cells[at + 1].Break? {
        return None;
      }
      ghost var rest := LoadFrom(cells[at + 2..], |nonces| + 1);
      assert cells[at..][2..] == cells[at + 2..];
      if rest.Some? {
        assert nonces + ([line.nonce] + rest.value) == nonces + [line.nonce] + rest.value;
      }
      nonces := nonces + [line.nonce];
      at := at + 2;
    }
    assert nonces + [] == nonces;
    return Some(nonces);
  }

  /** Row texts at even places, each with the number of its line and 32 bytes, and newlines at odd ones. */
  predicate Rows(cells: seq<Cell>, from: nat) {
    forall i :: 0 <= i < |cells| ==>
      if i % 2 == 1 then cells[i].Break?
      else cells[i].RowText? && cells[i].index == from + i / 2 && |cells[i].nonce| == 32
  }

  lemma RowsRest(cells: seq<Cell>, from: nat)
    requires |cells| >= 2
    ensures Rows(cells, from) <==> Rows(cells[..2], from) && Rows(cells[2..], from + 1)
  {
    var rest := cells[2..];
    if Rows(cells[..2], from) && Rows(rest, from + 1) {
      forall i | 0 <= i < |cells|
        ensures if i % 2 == 1 then cells[i].Break?
                else cells[i].RowText? && cells[i].index == from + i / 2 && |cells[i].nonce| == 32
      {
        if i < 2 {
          assert cells[..2][i] == cells[i];
        } else {
          assert rest[i - 2] == cells[i];
        }
      }
    }
    if Rows(cells, from) {
      forall i | 0 <= i < |rest|
        ensures if i % 2 == 1 then rest[i].Break?
                else rest[i].RowText? && rest[i].index == from + 1 + i / 2 && |rest[i].nonce| == 32
      {
        assert rest[i] == cells[i + 2];
      }
    }
  }

  lemma {:induction false} LoadsFromIff(cells: seq<Cell>, from: nat)
    ensures LoadFrom(cells, from).Some? <==> Rows(cells, from)
    ensures LoadFrom(cells, from).Some? ==>
              && |LoadFrom(cells, from).value| == (|cells| + 1) / 2
              && forall i :: 0 <= i < |cells| && i % 2 == 0 ==>
                   cells[i].RowText? && LoadFrom(cells, from).value[i / 2] == cells[i].nonce
    decreases |cells|
  {
    if |cells| >= 2 {
      LoadsFromIff(cells[2..], from + 1);
      RowsRest(cells, from);
      assert Rows(cells[..2], from) <==>
             cells[0].RowText? && cells[0].index == from && |cells[0].nonce| == 32 && cells[1].Break?;
      if LoadFrom(cells, from).Some? {
        forall i | 0 <= i < |cells| && i % 2 == 0
          ensures cells[i].RowText? && LoadFrom(cells, from).value[i / 2] == cells[i].nonce
        {
          if i > 0 {
            assert cells[2..][i - 2] == cells[i];
          }
        }
      }
    }
  }

  /** A file loads if and only if it is rows in order, one to a line; the nonces are theirs. */
  lemma LoadsIff(cells: seq<Cell>)
    ensures Load(cells).Some? <==> Rows(cells, 0)
    ensures Load(cells).Some? ==>
              && |Load(cells).value| == (|cells| + 1) / 2
              && forall i :: 0 <= i < |cells| && i % 2 == 0 ==>
                   cells[i].RowText? && Load(cells).value[i / 2] == cells[i].nonce
  {
    LoadsFromIff(cells, 0);
  }

  /** The nonces whose row text is on file, whether or not the lines still parse. */
  function Carried(cells: seq<Cell>): seq<Bytes> {
    if cells == [] then []
    else (if cells[0].RowText? then [cells[0].nonce] else []) + Carried(cells[1..])
  }

  /** The file ends at a line boundary. */
  predicate Ended(cells: seq<Cell>) {
    cells == [] || cells[|cells| - 1].Break?
  }

  function RowCells(index: nat, nonce: Bytes): seq<Cell> {
    [RowText(index, nonce), Break]
  }

  /** What a kill during the write of one row can leave of it. */
  function RowPart(index: nat, nonce: Bytes, cut: nat): seq<Cell> {
    if cut == 0 then [] else if cut == 1 then [Fragment]
    else if cut == 2 then [RowText(index, nonce)] else RowCells(index, nonce)
  }

  lemma {:induction false} CarriedConcat(a: seq<Cell>, b: seq<Cell>)
    ensures Carried(a + b) == Carried(a) + Carried(b)
  {
    if a == [] {
      assert a + b == b;
    } else {
      CarriedConcat(a[1..], b);
      assert (a + b)[1..] == a[1..] + b && (a + b)[0] == a[0];
      hide Rows;
    }
  }

  lemma CarriedRow(cells: seq<Cell>, index: nat, nonce: Bytes)
    ensures Carried(cells + RowCells(index, nonce)) == Carried(cells) + [nonce]
  {
    CarriedConcat(cells, RowCells(index, nonce));
    assert RowCells(index, nonce)[1..] == [Break];
    assert [Break][1..] == [];
  }

  lemma CarriedMonotone(cells: seq<Cell>, more: seq<Cell>)
    ensures Carried(cells) <= Carried(cells + more)
  {
    CarriedConcat(cells, more);
  }

  lemma {:induction false} LoadIsCarried(cells: seq<Cell>, index: nat)
    ensures LoadFrom(cells, index).Some? ==> LoadFrom(cells, index).value == Carried(cells)
    decreases |cells|
  {
    if LoadFrom(cells, index).Some? && |cells| > 1 {
      LoadIsCarried(cells[2..], index + 1);
      assert cells[1..][1..] == cells[2..];
    } else if |cells| == 1 {
      assert cells[1..] == [];
    }
  }

  lemma {:induction false} AppendFrom(cells: seq<Cell>, index: nat, nonce: Bytes)
    requires LoadFrom(cells, index).Some? && |nonce| == NONCE_LEN
    ensures var n := index + |LoadFrom(cells, index).value|;
            LoadFrom(cells + RowCells(n, nonce), index) ==
            if Ended(cells) then Some(LoadFrom(cells, index).value + [nonce]) else None
    decreases |cells|
  {
    var n := index + |LoadFrom(cells, index).value|;
    var row := RowCells(n, nonce);
    if cells == [] {
      assert cells + row == row && row[2..] == [];
      assert LoadFrom(row[2..], index + 1) == Some([]);
      assert LoadFrom(cells, index) == Some([]) && n == index;
      assert [nonce] + [] == [nonce] == [] + [nonce];
      assert LoadFrom(row, index) == Some([nonce]);
    } else if |cells| > 1 {
      AppendFrom(cells[2..], index + 1, nonce);
      assert (cells + row)[2..] == cells[2..] + row;
      var rest := LoadFrom(cells[2..], index + 1).value;
      assert [cells[0].nonce] + (rest + [nonce]) == [cells[0].nonce] + rest + [nonce];
    } else {
      assert (cells + row)[1] == row[0];
    }
  }

  /** Appending one nonce to a loadable file leaves it loadable exactly when the file ended in a
      newline.  A kill that lost only the final newline therefore costs the next append: the two
      rows share a line that no later load accepts. */
  lemma AppendLoads(cells: seq<Cell>, nonce: Bytes)
    requires Load(cells).Some? && |nonce| == NONCE_LEN
    ensures var ns := Load(cells).value;
            Load(cells + RowCells(|ns|, nonce)) == if Ended(cells) then Some(ns + [nonce]) else None
  {
    AppendFrom(cells, 0, nonce);
  }
}
