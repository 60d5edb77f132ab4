/** Merkle roots and audit paths in the shape of section 2.1 of RFC 6962. */
module CommitmentTree {
  import opened Records

  datatype Side = Left | Right | OtherSide(tag: string)

  /** One audit-path entry: the side the sibling sits on, and its hash. */
  datatype Step = Step(side: Side, sibling: Digest)

  /** A bottom-up audit path. */
  type Proof = seq<Step>

  predicate PowerOfTwo(k: nat) {
    k == 1 || (k > 1 && k % 2 == 0 && PowerOfTwo(k / 2))
  }

  function Double(k: nat, n: nat): nat
    requires k > 0
    decreases if k < n then n - k else 0
  {
    if 2 * k < n then Double(2 * k, n) else k
  }

  lemma {:induction false} DoubleIsSplit(k: nat, n: nat)
    requires PowerOfTwo(k) && (k < n || (k == 1 && n <= 1))
    ensures PowerOfTwo(Double(k, n)) && k <= Double(k, n)
    ensures n >= 2 ==> Double(k, n) < n <= 2 * Double(k, n)
    ensures n < 2 ==> Double(k, n) == 1
    decreases if k < n then n - k else 0
  {
    if 2 * k < n {
      assert (2 * k) / 2 == k;
      DoubleIsSplit(2 * k, n);
    }
  }

  /** The split point of an `n`-leaf tree. */
  function SplitPoint(n: nat): (k: nat)
    ensures PowerOfTwo(k)
    ensures n >= 2 ==> k < n <= 2 * k
    ensures n < 2 ==> k == 1
  {
    DoubleIsSplit(1, n);
    Double(1, n)
  }

  method Split(n: nat) returns (k: nat)
    ensures PowerOfTwo(k)
    ensures n >= 2 ==> k < n <= 2 * k
    ensures n < 2 ==> k == 1
    ensures k == SplitPoint(n)
  {
    k := 1;
    while k * 2 < n
      invariant PowerOfTwo(k)
      invariant k == 1 || k < n
      invariant Double(k, n) == Double(1, n)
      decreases n - k
    {
      assert (k * 2) / 2 == k;
      k := k * 2;
    }
  }

  /** No other power of two has the defining property of the split point. */
  lemma {:induction false} SplitPointUnique(j: nat, k: nat, n: nat)
    requires PowerOfTwo(j) && PowerOfTwo(k)
    requires j < n <= 2 * j && k < n <= 2 * k
    ensures j == k
    decreases j + k
  {
    if j > 1 && k > 1 {
      SplitPointUnique(j / 2, k / 2, (n + 1) / 2);
    }
  }

  /** The root of a non-empty list; an empty list has none. */
  function MerkleRoot(hashes: seq<Digest>): Digest
    requires hashes != []
    decreases |hashes|
  {
    if |hashes| == 1 then hashes[0]
    else
      var k := SplitPoint(|hashes|);
      NodeHash(MerkleRoot(hashes[..k]), MerkleRoot(hashes[k..]))
  }

  function SessionRoot(leaves: seq<Digest>): Digest
    requires leaves != []
  {
    SessionHash(MerkleRoot(leaves))
  }

  function DayRoot(sessionRoots: seq<Digest>): Digest
    requires sessionRoots != []
  {
    DayHash(MerkleRoot(sessionRoots))
  }

  /** The audit path of `hashes[index]`; an index outside the tree has none. */
  function InclusionProof(hashes: seq<Digest>, index: nat): Proof
    requires index < |hashes|
    decreases |hashes|
  {
    if |hashes| == 1 then []
    else
      var k := SplitPoint(|hashes|);
      if index < k then
        InclusionProof(hashes[..k], index) + [Step(Right, MerkleRoot(hashes[k..]))]
      else
        InclusionProof(hashes[k..], index - k) + [Step(Left, MerkleRoot(hashes[..k]))]
  }

  function Climb(h: Digest, step: Step): Option<Digest> {
    match step.side
    case Right => Some(NodeHash(h, step.sibling))
    case Left => Some(NodeHash(step.sibling, h))
    case OtherSide(_) => None
  }

  /** The hash an audit path leads to, or None when a side is neither "L" nor "R". */
  function Fold(leaf: Digest, proof: Proof): Option<Digest> {
    if proof == [] then Some(leaf)
    else
      match Fold(leaf, proof[..|proof| - 1])
      case None => None
      case Some(h) => Climb(h, proof[|proof| - 1])
  }

  lemma {:induction false} FoldStuck(leaf: Digest, proof: Proof, i: nat)
    requires i <= |proof| && Fold(leaf, proof[..i]) == None
    ensures Fold(leaf, proof) == None
    decreases |proof| - i
  {
    if i == |proof| {
      assert proof[..i] == proof;
    } else {
      assert proof[..i + 1][..i] == proof[..i];
      FoldStuck(leaf, proof, i + 1);
    }
  }

  method FoldPath(leaf: Digest, proof: Proof) returns (r: Option<Digest>)
    ensures r == Fold(leaf, proof)
  {
    var h := leaf;
    for i := 0 to |proof|
      invariant Fold(leaf, proof[..i]) == Some(h)
    {
      assert proof[..i + 1][..i] == proof[..i];
      var next := Climb(h, proof[i]);
      if next.None? {
        FoldStuck(leaf, proof, i + 1);
        return None;
      }
      h := next.value;
    }
    assert proof[..|proof|] == proof;
    return Some(h);
  }

  predicate VerifyInclusion(leaf: Digest, proof: Proof, root: Digest) {
    Fold(leaf, proof) == Some(root)
  }

  predicate VerifySessionInclusion(leaf: Digest, proof: Proof, sessionRoot: Digest) {
    var h := Fold(leaf, proof);
    h.Some? && SessionHash(h.value) == sessionRoot
  }

  // ---- What a root determines ------------------------------------------------

  /** A list a tree is built over: item commitments or session roots, never interior nodes. */
  predicate Leaves(hashes: seq<Digest>) {
    forall i :: 0 <= i < |hashes| ==> !hashes[i].NodeHash?
  }

  /** The leaves below a hash, left to right. */
  function Frontier(d: Digest): (r: seq<Digest>)
    ensures r != []
  {
    match d
    case NodeHash(l, r) => Frontier(l) + Frontier(r)
    case _ => [d]
  }

  /** Reading the leaves off a root undoes building it. */
  lemma {:induction false} FrontierOfRoot(hashes: seq<Digest>)
    requires hashes != [] && Leaves(hashes)
    ensures Frontier(MerkleRoot(hashes)) == hashes
    decreases |hashes|
  {
    if |hashes| > 1 {
      var k := SplitPoint(|hashes|);
      FrontierOfRoot(hashes[..k]);
      FrontierOfRoot(hashes[k..]);
      assert hashes == hashes[..k] + hashes[k..];
    }
  }

  /** Equal roots bind equal lists, length included. */
  lemma RootBinding(xs: seq<Digest>, ys: seq<Digest>)
    requires xs != [] && ys != [] && Leaves(xs) && Leaves(ys)
    ensures MerkleRoot(xs) == MerkleRoot(ys) <==> xs == ys
    ensures SessionRoot(xs) == SessionRoot(ys) <==> xs == ys
    ensures DayRoot(xs) == DayRoot(ys) <==> xs == ys
  {
    FrontierOfRoot(xs);
    FrontierOfRoot(ys);
  }

  // ---- Audit paths -----------------------------------------------------------

  /** An honest path climbs from its leaf to the root. */
  lemma {:induction false} HonestPathVerifies(hashes: seq<Digest>, index: nat)
    requires index < |hashes|
    ensures VerifyInclusion(hashes[index], InclusionProof(hashes, index), MerkleRoot(hashes))
    decreases |hashes|
  {
    if |hashes| > 1 {
      var k := SplitPoint(|hashes|);
      var path := InclusionProof(hashes, index);
      if index < k {
        HonestPathVerifies(hashes[..k], index);
        assert path[..|path| - 1] == InclusionProof(hashes[..k], index);
      } else {
        HonestPathVerifies(hashes[k..], index - k);
        assert path[..|path| - 1] == InclusionProof(hashes[k..], index - k);
      }
    }
  }

  /** The least `d` with `n <= 2^d`. */
  function CeilLog2(n: nat): nat {
    if n <= 1 then 0 else 1 + CeilLog2((n + 1) / 2)
  }

  lemma {:induction false} CeilLog2Monotone(m: nat, n: nat)
    requires m <= n
    ensures CeilLog2(m) <= CeilLog2(n)
  {
    if m > 1 {
      CeilLog2Monotone((m + 1) / 2, (n + 1) / 2);
    }
  }

  lemma {:induction false} CeilLog2OfPower(k: nat, n: nat)
    requires PowerOfTwo(k) && k < n <= 2 * k
    ensures CeilLog2(n) == CeilLog2(k) + 1
    decreases k
  {
    if k > 1 {
      CeilLog2OfPower(k / 2, (n + 1) / 2);
      assert (k + 1) / 2 == k / 2;
    }
  }

  lemma {:induction false} PathLength(hashes: seq<Digest>, index: nat)
    requires index < |hashes|
    ensures |InclusionProof(hashes, index)| <= CeilLog2(|hashes|)
    decreases |hashes|
  {
    if |hashes| > 1 {
      var k := SplitPoint(|hashes|);
      CeilLog2OfPower(k, |hashes|);
      if index < k {
        PathLength(hashes[..k], index);
      } else {
        PathLength(hashes[k..], index - k);
        CeilLog2Monotone(|hashes| - k, k);
      }
    }
  }

  /** Any path that verifies a non-node leaf against the root is the honest path of an occurrence. */
  lemma {:induction false} VerifiedPathIsHonest(hashes: seq<Digest>, leaf: Digest, proof: Proof)
      returns (index: nat)
    requires hashes != [] && Leaves(hashes) && !leaf.NodeHash?
    requires VerifyInclusion(leaf, proof, MerkleRoot(hashes))
    ensures index < |hashes| && hashes[index] == leaf && proof == InclusionProof(hashes, index)
    decreases |hashes|
  {
    if |hashes| == 1 {
      index := 0;
    } else {
      var k := SplitPoint(|hashes|);
      var last, init := proof[|proof| - 1], proof[..|proof| - 1];
      assert proof == init + [last];
      if last.side == Right {
        index := VerifiedPathIsHonest(hashes[..k], leaf, init);
      } else {
        var j := VerifiedPathIsHonest(hashes[k..], leaf, init);
        index := j + k;
      }
    }
  }

  /** The path determines the position: no two positions share one. */
  lemma {:induction false} PathFixesIndex(hashes: seq<Digest>, i: nat, j: nat)
    requires i < |hashes| && j < |hashes|
    requires InclusionProof(hashes, i) == InclusionProof(hashes, j)
    ensures i == j
    decreases |hashes|
  {
    if |hashes| > 1 {
      var k := SplitPoint(|hashes|);
      var p, q := InclusionProof(hashes, i), InclusionProof(hashes, j);
      assert p[|p| - 1].side == q[|q| - 1].side;
      if i < k {
        assert p[..|p| - 1] == InclusionProof(hashes[..k], i);
        assert q[..|q| - 1] == InclusionProof(hashes[..k], j);
        PathFixesIndex(hashes[..k], i, j);
      } else {
        assert p[..|p| - 1] == InclusionProof(hashes[k..], i - k);
        assert q[..|q| - 1] == InclusionProof(hashes[k..], j - k);
        PathFixesIndex(hashes[k..], i - k, j - k);
      }
    }
  }

  ghost predicate HonestPath(hashes: seq<Digest>, leaf: Digest, proof: Proof, index: nat) {
    index < |hashes| && hashes[index] == leaf && proof == InclusionProof(hashes, index)
  }

  /** Soundness, completeness and uniqueness together, for raw and for wrapped roots: a path
      verifies exactly when it is the honest path of one single position. */
  lemma InclusionTheorem(hashes: seq<Digest>, leaf: Digest, proof: Proof)
    requires hashes != [] && Leaves(hashes) && !leaf.NodeHash?
    ensures VerifyInclusion(leaf, proof, MerkleRoot(hashes)) <==> exists i :: HonestPath(hashes, leaf, proof, i)
    ensures VerifySessionInclusion(leaf, proof, SessionRoot(hashes)) <==> exists i :: HonestPath(hashes, leaf, proof, i)
    ensures forall i, j :: HonestPath(hashes, leaf, proof, i) && HonestPath(hashes, leaf, proof, j) ==> i == j
  {
    if VerifyInclusion(leaf, proof, MerkleRoot(hashes)) {
      var i := VerifiedPathIsHonest(hashes, leaf, proof);
      assert HonestPath(hashes, leaf, proof, i);
    }
    forall i | HonestPath(hashes, leaf, proof, i)
      ensures VerifyInclusion(leaf, proof, MerkleRoot(hashes))
    {
      HonestPathVerifies(hashes, i);
    }
    forall i, j | HonestPath(hashes, leaf, proof, i) && HonestPath(hashes, leaf, proof, j)
      ensures i == j
    {
      PathFixesIndex(hashes, i, j);
    }
  }

  /** Why soundness needs a leaf that is not a node: the root of any larger tree verifies with
      the empty path, at no position. */
  lemma NodeLeafVerifies(hashes: seq<Digest>)
    requires |hashes| >= 2 && Leaves(hashes)
    ensures VerifyInclusion(MerkleRoot(hashes), [], MerkleRoot(hashes))
    ensures forall i :: !HonestPath(hashes, MerkleRoot(hashes), [], i)
  {
    assert MerkleRoot(hashes).NodeHash?;
  }
}
