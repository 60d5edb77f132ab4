/** Salted item commitments and what a session root says about the items below it. */
module Commitments {
  import opened Records
  import opened CommitmentTree

  /** One commitment per item, each with its own nonce; surplus nonces are ignored. */
  function LeafCommitments(nonces: seq<Bytes>, items: seq<Bytes>): (leaves: seq<Digest>)
    requires |items| <= |nonces|
    ensures |leaves| == |items|
    ensures forall k :: 0 <= k < |items| ==> leaves[k] == LeafHash(nonces[k], items[k])
  {
    if items == [] then []
    else [LeafHash(nonces[0], items[0])] + LeafCommitments(nonces[1..], items[1..])
  }

  /** The session root over the first `|items|` nonces. */
  function RootFor(nonces: seq<Bytes>, items: seq<Bytes>): Digest
    requires items != [] && |items| <= |nonces|
  {
    SessionRoot(LeafCommitments(nonces, items))
  }

  function Contents(leaves: seq<Digest>): seq<Bytes> {
    if leaves == [] then []
    else [match leaves[0] case LeafHash(_, c) => c case _ => []] + Contents(leaves[1..])
  }

  function Salts(leaves: seq<Digest>): seq<Bytes> {
    if leaves == [] then []
    else [match leaves[0] case LeafHash(n, _) => n case _ => []] + Salts(leaves[1..])
  }

  /** The items a session root commits to. */
  function CommittedItems(root: Digest): seq<Bytes> {
    if root.SessionHash? then Contents(Frontier(root.sessionTree)) else []
  }

  /** The nonces that salted them. */
  function CommittedNonces(root: Digest): seq<Bytes> {
    if root.SessionHash? then Salts(Frontier(root.sessionTree)) else []
  }

  lemma {:induction false} LeafParts(nonces: seq<Bytes>, items: seq<Bytes>)
    requires |items| <= |nonces|
    ensures Contents(LeafCommitments(nonces, items)) == items
    ensures Salts(LeafCommitments(nonces, items)) == nonces[..|items|]
  {
    if items != [] {
      LeafParts(nonces[1..], items[1..]);
      assert nonces[..|items|] == [nonces[0]] + nonces[1..][..|items| - 1];
    }
  }

  /** A root reveals, to whoever could invert the hash, exactly what it was built from. */
  lemma RootReveals(nonces: seq<Bytes>, items: seq<Bytes>)
    requires items != [] && |items| <= |nonces|
    ensures CommittedItems(RootFor(nonces, items)) == items
    ensures CommittedNonces(RootFor(nonces, items)) == nonces[..|items|]
  {
    FrontierOfRoot(LeafCommitments(nonces, items));
    LeafParts(nonces, items);
  }

  lemma {:induction false} LeafCommitmentsPrefix(nonces: seq<Bytes>, items: seq<Bytes>)
    requires |items| <= |nonces|
    ensures LeafCommitments(nonces, items) == LeafCommitments(nonces[..|items|], items)
  {
  }

  /** The root check is exact: it passes for the committed items under the committed nonces only. */
  lemma RootBindsItems(nonces: seq<Bytes>, items: seq<Bytes>, nonces': seq<Bytes>, items': seq<Bytes>)
    requires items != [] && |items| <= |nonces| && items' != [] && |items'| <= |nonces'|
    ensures RootFor(nonces, items) == RootFor(nonces', items') <==>
            items == items' && nonces[..|items|] == nonces'[..|items'|]
  {
    RootReveals(nonces, items);
    RootReveals(nonces', items');
    if items == items' && nonces[..|items|] == nonces'[..|items'|] {
      LeafCommitmentsPrefix(nonces, items);
      LeafCommitmentsPrefix(nonces', items');
    }
  }
}
