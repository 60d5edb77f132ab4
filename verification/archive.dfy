/** The private transcript archive: one append-only file per session that may hold only what the
ledger has committed. */
module Archive {
  import opened Records
  import opened Framing
  import opened Commitments

  /** Decode a read-back: None when the last item is incomplete. */
  function ItemsFromReadback(data: Bytes): Option<seq<Bytes>> {
    if data == [] then Some([])
    else if data[|data| - 1] != NL then None
    else Some(SplitAtBreaks(data[..|data| - 1]))
  }

  /** The items of a file that authenticates against a ledger row, else None. */
  function VerifiedItems(data: Bytes, nonces: seq<Bytes>, count: nat, root: Digest): Option<seq<Bytes>>
    requires 0 < count <= |nonces|
  {
    match ItemsFromReadback(data)
    case None => None
    case Some(items) =>
      if |items| != count || RootFor(nonces, items) != root then None else Some(items)
  }

  /** A source snapshot that is the full, commitment-valid preimage of the row. */
  predicate SourceMatches(source: seq<Bytes>, nonces: seq<Bytes>, count: nat, root: Digest)
    requires 0 < count <= |nonces|
  {
    |source| == count && RootFor(nonces, source) == root
  }

  datatype Decision = Fail | AlreadyComplete | Extend(suffix: Bytes)

  /** What `archive_session` decides from the file (None when there is none yet), the live source
      and the row. */
  function Decide(file: Option<Bytes>, source: seq<Bytes>, nonces: seq<Bytes>, count: nat, root: Digest): Decision {
    if count == 0 || |nonces| < count then Fail
    else if file.None? && !SourceMatches(source, nonces, count, root) then Fail
    else
      var existing := if file.Some? then file.value else [];
      if VerifiedItems(existing, nonces, count, root).Some? then AlreadyComplete
      else if !SourceMatches(source, nonces, count, root) then Fail
      else if existing <= Serialize(source) then Extend(Serialize(source)[|existing|..])
      else Fail
  }

  lemma {:induction false} SplitWithoutLastBreak(data: Bytes)
    requires data != [] && data[|data| - 1] == NL
    ensures SplitAtBreaks(data[..|data| - 1]) == CompleteLines(data)
  {
    var init := data[..|data| - 1];
    assert data == init + [NL];
    var pieces := SplitAtBreaks(init);
    Reassemble(init);
    var lines, tail := CompleteLines(init), Tail(init);
    assert pieces == lines + [tail];
    SerializeConcat(lines, [tail]);
    SerializeOne(tail);
    Associative(Serialize(lines), tail, [NL]);
    assert Serialize(pieces) == data;
    SplitSerialized(pieces, []);
    assert data + [] == data;
  }

  /** Reading back undoes serializing, for items without a newline. */
  lemma ReadbackOfSerialized(items: seq<Bytes>)
    requires AllUnbroken(items) && items != []
    ensures ItemsFromReadback(Serialize(items)) == Some(items)
  {
    hide Serialize, CompleteLines;
    var data := Serialize(items);
    SerializeEnds(items);
    SplitWithoutLastBreak(data);
    SplitSerialized(items, []);
    assert data + [] == data;
  }

  /** A read-back determines the file: serializing undoes reading back. */
  lemma SerializedOfReadback(data: Bytes)
    requires ItemsFromReadback(data).Some? && data != []
    ensures Serialize(ItemsFromReadback(data).value) == data
    ensures AllUnbroken(ItemsFromReadback(data).value)
  {
    SplitWithoutLastBreak(data);
    Reassemble(data);
    var init := data[..|data| - 1];
    assert data == init + [NL];
    Reassemble(init);
    var lines, tail := CompleteLines(init), Tail(init);
    assert SplitAtBreaks(init) == lines + [tail];
    SerializeConcat(lines, [tail]);
    SerializeOne(tail);
    Associative(Serialize(lines), tail, [NL]);
  }

  /** A file authenticates against a row exactly when it is byte for byte the serialization of
      the items the row committed. */
  lemma AuthenticIff(data: Bytes, nonces: seq<Bytes>, items: seq<Bytes>)
    requires items != [] && AllUnbroken(items) && |items| <= |nonces|
    ensures VerifiedItems(data, nonces, |items|, RootFor(nonces, items)).Some? <==> data == Serialize(items)
    ensures VerifiedItems(Serialize(items), nonces, |items|, RootFor(nonces, items)) == Some(items)
  {
    hide Serialize;
    ReadbackOfSerialized(items);
    var v := VerifiedItems(data, nonces, |items|, RootFor(nonces, items));
    if v.Some? {
      RootBindsItems(nonces, v.value, nonces, items);
      SerializedOfReadback(data);
    }
  }

  lemma SourceMatchesIff(source: seq<Bytes>, nonces: seq<Bytes>, items: seq<Bytes>)
    requires items != [] && |items| <= |nonces|
    ensures SourceMatches(source, nonces, |items|, RootFor(nonces, items)) <==> source == items
  {
    hide RootFor;
    if |source| == |items| {
      RootBindsItems(nonces, source, nonces, items);
    }
  }

  /** Against a row that committed `items`, from a file that holds a prefix of them:
      the call gives up exactly when the file is incomplete and the source is not the committed
      one; otherwise it leaves exactly the committed bytes.  The divergence error cannot fire. */
  lemma DecisionTheorem(file: Option<Bytes>, source: seq<Bytes>, nonces: seq<Bytes>, items: seq<Bytes>)
    requires items != [] && AllUnbroken(items) && |items| <= |nonces|
    requires file.Some? ==> file.value <= Serialize(items)
    ensures var d := Decide(file, source, nonces, |items|, RootFor(nonces, items));
            && (d.AlreadyComplete? <==> file == Some(Serialize(items)))
            && (d.Fail? <==> file != Some(Serialize(items)) && source != items)
            && (d.Extend? ==> (if file.Some? then file.value else []) + d.suffix == Serialize(items))
  {
    hide Serialize, RootFor, VerifiedItems, SourceMatches;
    SourceMatchesIff(source, nonces, items);
    var existing := if file.Some? then file.value else [];
    AuthenticIff(existing, nonces, items);
    SerializeEnds(items);
    assert existing <= Serialize(items);
    assert existing + Serialize(items)[|existing|..] == Serialize(items);
  }

  datatype ArchiveResult = ArchiveError | Archived(bytesAppended: nat, itemsVerified: nat)

  /** The archive file of one session. */
  class ArchiveFile {
    var content: Option<Bytes>
    var synced: nat

    constructor ()
      ensures content == None && synced == 0
    {
      content, synced := None, 0;
    }

    /** Write all of `data`, however little each write call takes. */
    method WriteAll(data: Bytes)
      requires content.Some?
      modifies this`content
      ensures content == Some(old(content).value + data)
    {
      var view := data;
      while view != []
        invariant content.Some? && content.value + view == old(content).value + data
        decreases |view|
      {
        var written: nat :| 1 <= written <= |view|;
        assert view == view[..written] + view[written..];
        Associative(content.value, view[..written], view[written..]);
        content := Some(content.value + view[..written]);
        view := view[written..];
      }
      assert content.value + [] == content.value;
    }

    method ArchiveSession(source: seq<Bytes>, nonces: seq<Bytes>, count: nat, root: Digest)
      returns (r: ArchiveResult)
      modifies this
      ensures match Decide(old(content), source, nonces, count, root)
              case Fail => r == ArchiveError && content == old(content)
              case AlreadyComplete => r == Archived(0, count) && content == old(content) && synced == |content.value|
              case Extend(suffix) =>
                && content == Some((if old(content).Some? then old(content).value else []) + suffix)
                && content == Some(Serialize(source))
                && synced == |content.value|
                && r == if VerifiedItems(content.value, nonces, count, root).Some?
                        then Archived(|suffix|, count) else ArchiveError
    {
      hide Serialize;
      if count == 0 || |nonces| < count {
        return ArchiveError;
      }
      var existed := content.Some?;
      var sourceVerified := false;
      if !existed {
        if |source| != count {
          return ArchiveError;
        }
        if RootFor(nonces, source) != root {
          return ArchiveError;
        }
        sourceVerified := true;
      }
      var existing := if existed then content.value else [];
      var verified := VerifiedItems(existing, nonces, count, root);
      if verified.Some? {
        assert existed by {
          assert ItemsFromReadback([]) == Some([]);
        }
        synced := |existing|;
        return Archived(0, |verified.value|);
      }
      if !sourceVerified {
        if |source| != count {
          return ArchiveError;
        }
        if RootFor(nonces, source) != root {
          return ArchiveError;
        }
      }
      var target := Serialize(source);
      if !(existing <= target) {
        return ArchiveError;
      }
      var suffix := target[|existing|..];
      content := Some(existing);
      WriteAll(suffix);
      assert existing + suffix == target;
      synced := |content.value|;
      var readback := VerifiedItems(content.value, nonces, count, root);
      if readback.None? {
        return ArchiveError;
      }
      return Archived(|suffix|, |readback.value|);
    }

    /** The trusted read: all committed items or nothing. */
    method ReadVerified(nonces: seq<Bytes>, count: nat, root: Digest) returns (r: Option<seq<Bytes>>)
      ensures r.Some? <==>
              && 0 < count <= |nonces| && content.Some?
              && VerifiedItems(content.value, nonces, count, root).Some?
      ensures r.Some? ==> |r.value| == count && RootFor(nonces, r.value) == root && Serialize(r.value) == content.value
    {
      if count == 0 || |nonces| < count || content.None? {
        return None;
      }
      r := VerifiedItems(content.value, nonces, count, root);
      if r.Some? {
        SerializedOfReadback(content.value);
      }
    }
  }
}
