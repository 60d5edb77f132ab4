/** Values shared by every store: bytes, digests and ledger rows.

A digest is the term that was hashed.  Two digests are therefore equal exactly when
the same kind of value was hashed under the same domain tag; `Preimages` shows that
the byte strings the program really hashes have this property.
*/
module Records {

  newtype Byte = x: int | 0 <= x < 256
  type Bytes = seq<Byte>

  const NONCE_LEN: nat := 32
  const HASH_LEN: nat := 32

  /** The byte that ends every record of an append-only store. */
  const NL: Byte := 10

  datatype Option<+T> = None | Some(value: T)

  datatype Digest =
    | LeafHash(nonce: Bytes, content: Bytes)
    | NodeHash(left: Digest, right: Digest)
    | SessionHash(sessionTree: Digest)
    | DayHash(dayTree: Digest)
    | RowHash(row: RowBody)
    | Unhashed(raw: Bytes)  // 32 bytes that no tagged hash produced, such as 64 hex zeros

  datatype SchemaVersion = V1 | V2 | V3

  datatype Provenance = Imported | Live

  datatype EventKind = SessionStart | SessionEnd | CompactPre | ModelChange

  datatype Trigger = Startup | Resume | Clear | Compact | Manual | Auto | UnknownTrigger

  datatype Payload =
    | Genesis
    | Session(sessionId: string, root: Digest, itemCount: nat, source: string, provenance: Option<Provenance>)
    | Binding(commitHash: string, repoId: string, bindingProvenance: Option<Provenance>)
    | Event(eventSession: string, kind: EventKind, trigger: Trigger, contextGen: nat)
    | AnchorReceipt(rowStart: int, rowEnd: int, anchorRoot: Digest, anchorTip: Digest, receiptTs: string,
                    receiptId: string)
    | Boundary(boundaryProvenance: Provenance)

  /** A ledger row without its own hash: the part the hash covers. */
  datatype RowBody = RowBody(version: SchemaVersion, i: nat, ts: string, prev: Digest, payload: Payload)

  datatype Row = Row(body: RowBody, h: Digest)

  function Sealed(body: RowBody): Row {
    Row(body, RowHash(body))
  }

  function Zeros(n: nat): (r: Bytes)
    ensures |r| == n
  {
    if n == 0 then [] else [0] + Zeros(n - 1)
  }

  /** The `prev` of the first row: 64 hex zeros, the output of no hash. */
  const GENESIS_PREV: Digest := Unhashed(Zeros(HASH_LEN))
}

/** The byte strings hashed under the five domain tags, and why they never collide. */
module Preimages {
  import opened Records

  datatype Preimage =
    | Leaf(nonce: Bytes, content: Bytes)
    | Node(left: Bytes, right: Bytes)
    | SessionRoot(tree: Bytes)
    | DayRoot(tree: Bytes)
    | LedgerRow(canonical: Bytes)

  const PREFIX: Bytes := [109, 121, 98, 101, 110, 99, 104, 58, 118, 49, 58]  // "mybench:v1:"
  const TAG_LEAF: Bytes := PREFIX + [108, 101, 97, 102]  // "leaf"
  const TAG_NODE: Bytes := PREFIX + [110, 111, 100, 101]  // "node"
  const TAG_SESSION: Bytes := PREFIX + [115, 101, 115, 115, 105, 111, 110]  // "session"
  const TAG_DAY: Bytes := PREFIX + [100, 97, 121]  // "day"
  const TAG_ROW: Bytes := PREFIX + [108, 101, 100, 103, 101, 114, 114, 111, 119]  // "ledgerrow"

  /** `n` as `width` big-endian bytes. */
  function BigEndian(n: nat, width: nat): (r: Bytes)
    ensures |r| == width
  {
    if width == 0 then [] else BigEndian(n / 256, width - 1) + [(n % 256) as Byte]
  }

  predicate Valid(p: Preimage) {
    match p
    case Leaf(nonce, _) => |nonce| == NONCE_LEN
    case Node(l, r) => |l| == HASH_LEN && |r| == HASH_LEN
    case SessionRoot(t) => |t| == HASH_LEN
    case DayRoot(t) => |t| == HASH_LEN
    case LedgerRow(_) => true
  }

  function Encode(p: Preimage): Bytes {
    match p
    case Leaf(nonce, content) => TAG_LEAF + nonce + BigEndian(|content|, 8) + content
    case Node(l, r) => TAG_NODE + l + r
    case SessionRoot(t) => TAG_SESSION + t
    case DayRoot(t) => TAG_DAY + t
    case LedgerRow(c) => TAG_ROW + c
  }

  lemma SplitConcat(a: Bytes, b: Bytes, c: Bytes, d: Bytes)
    requires |a| == |c| && a + b == c + d
    ensures a == c && b == d
  {
    assert a == (a + b)[..|a|] == (c + d)[..|a|] == c;
    assert b == (a + b)[|a|..] == (c + d)[|a|..] == d;
  }

  /** Bytes 11 to 13 of a preimage name its kind. */
  lemma KindBytes(p: Preimage)
    ensures |Encode(p)| >= 14
    ensures Encode(p)[11..14] == match p
                                 case Leaf(_, _) => [108, 101, 97]
                                 case Node(_, _) => [110, 111, 100]
                                 case SessionRoot(_) => [115, 101, 115]
                                 case DayRoot(_) => [100, 97, 121]
                                 case LedgerRow(_) => [108, 101, 100]
  {
    var e := Encode(p);
    match p
    case Leaf(nonce, content) => assert e == TAG_LEAF + (nonce + BigEndian(|content|, 8) + content);
    case Node(l, r) => assert e == TAG_NODE + (l + r);
    case SessionRoot(t) =>
    case DayRoot(t) =>
    case LedgerRow(c) =>
  }

  /** Distinct values never share a preimage: the tags keep the kinds apart and the fixed
      lengths make each kind uniquely decodable. */
  lemma EncodeInjective(p: Preimage, q: Preimage)
    requires Valid(p) && Valid(q) && Encode(p) == Encode(q)
    ensures p == q
  {
    KindBytes(p);
    KindBytes(q);
    var kp, kq := Encode(p)[11..14], Encode(q)[11..14];
    assert kp[0] == kq[0] && kp[2] == kq[2];
    match p {
      case Leaf(n1, c1) =>
        var Leaf(n2, c2) := q;
        var l1, l2 := BigEndian(|c1|, 8), BigEndian(|c2|, 8);
        assert Encode(p) == (TAG_LEAF + n1 + l1) + c1;
        assert Encode(q) == (TAG_LEAF + n2 + l2) + c2;
        SplitConcat(TAG_LEAF + n1 + l1, c1, TAG_LEAF + n2 + l2, c2);
        SplitConcat(TAG_LEAF + n1, l1, TAG_LEAF + n2, l2);
        SplitConcat(TAG_LEAF, n1, TAG_LEAF, n2);
      case Node(l1, r1) =>
        var Node(l2, r2) := q;
        SplitConcat(TAG_NODE + l1, r1, TAG_NODE + l2, r2);
        SplitConcat(TAG_NODE, l1, TAG_NODE, l2);
      case SessionRoot(t1) =>
        SplitConcat(TAG_SESSION, t1, TAG_SESSION, q.tree);
      case DayRoot(t1) =>
        SplitConcat(TAG_DAY, t1, TAG_DAY, q.tree);
      case LedgerRow(c1) =>
        SplitConcat(TAG_ROW, c1, TAG_ROW, q.canonical);
    }
  }
}
