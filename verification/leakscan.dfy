/** The canary scanner: which byte strings it looks for, and why a base64 stream that carries a
canary of six bytes or more always contains one of them.
*/
module LeakScan {
  import opened Records

  // ---- Base64 (sections 4 and 5 of RFC 4648) ---------------------------------

  datatype Alphabet = Standard | UrlSafe

  const PAD: Byte := 61

  function Symbol(alphabet: Alphabet, v: nat): Byte
    requires v < 64
  {
    if v < 26 then (65 + v) as Byte
    else if v < 52 then (97 + v - 26) as Byte
    else if v < 62 then (48 + v - 52) as Byte
    else if v == 62 then (if alphabet == Standard then 43 else 45)
    else (if alphabet == Standard then 47 else 95)
  }

  function Group(alphabet: Alphabet, a: nat, b: nat, c: nat): (r: Bytes)
    requires a < 256 && b < 256 && c < 256
    ensures |r| == 4
  {
    [Symbol(alphabet, a / 4), Symbol(alphabet, a % 4 * 16 + b / 16),
     Symbol(alphabet, b % 16 * 4 + c / 64), Symbol(alphabet, c % 64)]
  }

  function Encode(alphabet: Alphabet, data: Bytes): (r: Bytes)
    ensures |r| == (|data| + 2) / 3 * 4
  {
    if |data| == 0 then []
    else if |data| == 1 then Group(alphabet, data[0] as nat, 0, 0)[..2] + [PAD, PAD]
    else if |data| == 2 then Group(alphabet, data[0] as nat, data[1] as nat, 0)[..3] + [PAD]
    else Group(alphabet, data[0] as nat, data[1] as nat, data[2] as nat) + Encode(alphabet, data[3..])
  }

  /** Whole groups encode on their own. */
  lemma {:induction false} EncodeConcat(alphabet: Alphabet, a: Bytes, b: Bytes)
    requires |a| % 3 == 0
    ensures Encode(alphabet, a + b) == Encode(alphabet, a) + Encode(alphabet, b)
  {
    hide Group;
    if |a| == 0 {
      assert a + b == b;
    } else {
      EncodeConcat(alphabet, a[3..], b);
      assert (a + b)[3..] == a[3..] + b;
    }
  }

  // ---- Needles ---------------------------------------------------------------

  predicate At(haystack: Bytes, needle: Bytes, i: nat) {
    i + |needle| <= |haystack| && haystack[i..i + |needle|] == needle
  }

  ghost predicate Contains(haystack: Bytes, needle: Bytes) {
    exists i: nat :: At(haystack, needle, i)
  }

  /** The canary's bytes that fill whole groups when it starts `phase` bytes into a group. */
  function Skipped(phase: nat): nat
    requires phase < 3
  {
    if phase == 0 then 0 else 3 - phase
  }

  function Aligned(canary: Bytes, phase: nat): (r: Bytes)
    requires phase < 3
    ensures |r| % 3 == 0
    ensures |r| > 0 <==> |canary| > Skipped(phase) + 3
  {
    if |canary| <= Skipped(phase) then []
    else canary[Skipped(phase)..Skipped(phase) + (|canary| - Skipped(phase) - 1) / 3 * 3]
  }

  /** What the scanner looks for in base64: the aligned middle of the canary, encoded, at every
      phase where there is one, in both alphabets. */
  function Base64Needles(canary: Bytes): seq<Bytes> {
    PhaseNeedles(Standard, canary, 3) + PhaseNeedles(UrlSafe, canary, 3)
  }

  function PhaseNeedles(alphabet: Alphabet, canary: Bytes, phases: nat): seq<Bytes>
    requires phases <= 3
  {
    if phases == 0 then []
    else PhaseNeedles(alphabet, canary, phases - 1) +
         (if Aligned(canary, phases - 1) == [] then [] else [Encode(alphabet, Aligned(canary, phases - 1))])
  }

  lemma Groups(n: nat)
    requires n > 0
    ensures var q := (n - 1) / 3; 3 * q < n <= 3 * q + 3 && (n + 2) / 3 == q + 1
    ensures (n - 1) / 3 * 3 == 3 * ((n - 1) / 3)
  {
  }

  lemma WholeGroups(alphabet: Alphabet, data: Bytes, q: nat)
    requires |data| == 3 * q
    ensures |Encode(alphabet, data)| == 4 * q
  {
    hide Encode;
    assert (3 * q + 2) / 3 == q;
  }

  lemma Middle(a: Bytes, b: Bytes, c: Bytes)
    ensures (a + b + c)[|a|..|a + b + c| - |c|] == b
  {
  }

  /** Dropping the last group and the first `h` groups of the encoding. */
  lemma TrimmedGroups(alphabet: Alphabet, data: Bytes, h: nat)
    requires 3 * h < |data|
    ensures var m := (|data| - 1) / 3 * 3;
            var enc := Encode(alphabet, data);
            && 3 * h <= m < |data| && 4 * h <= |enc| - 4
            && enc[4 * h..|enc| - 4] == Encode(alphabet, data[3 * h..m])
  {
    hide Encode;
    Groups(|data|);
    var q := (|data| - 1) / 3;
    var m := 3 * q;
    var a, b, c := data[..3 * h], data[3 * h..m], data[m..];
    assert data == (a + b) + c;
    EncodeThree(alphabet, a, b, c, h, q - h);
    Middle(Encode(alphabet, a), Encode(alphabet, b), Encode(alphabet, c));
  }

  lemma EncodeThree(alphabet: Alphabet, a: Bytes, b: Bytes, c: Bytes, h: nat, k: nat)
    requires |a| == 3 * h && |b| == 3 * k && 0 < |c| <= 3
    ensures Encode(alphabet, (a + b) + c) == Encode(alphabet, a) + Encode(alphabet, b) + Encode(alphabet, c)
    ensures |Encode(alphabet, a)| == 4 * h && |Encode(alphabet, c)| == 4
  {
    hide Encode;
    Thrice(h);
    Thrice(h + k);
    assert |a + b| == 3 * (h + k);
    EncodeConcat(alphabet, a + b, c);
    EncodeConcat(alphabet, a, b);
    WholeGroups(alphabet, a, h);
    LastGroup(alphabet, c);
  }

  lemma Thrice(h: nat)
    ensures 3 * h % 3 == 0
  {
  }

  lemma LastGroup(alphabet: Alphabet, c: Bytes)
    requires 0 < |c| <= 3
    ensures |Encode(alphabet, c)| == 4
  {
    hide Encode;
    assert (|c| + 2) / 3 == 1;
  }

  lemma AlignedIsMiddle(canary: Bytes, phase: nat)
    requires phase < 3
    ensures var data := Zeros(phase) + canary;
            var h := if phase == 0 then 0 else 1;
            if 3 * h < |data| then 3 * h <= (|data| - 1) / 3 * 3 <= |data|
                && data[3 * h..(|data| - 1) / 3 * 3] == Aligned(canary, phase)
            else Aligned(canary, phase) == []
  {
    var data := Zeros(phase) + canary;
    var h := if phase == 0 then 0 else 1;
    var skip := Skipped(phase);
    assert 3 * h == phase + skip;
    if 3 * h < |data| {
      Groups(|data|);
      Groups(|canary| - skip);
      var q := (|data| - 1) / 3;
      var r := (|canary| - skip - 1) / 3;
      assert |data| - 1 == (|canary| - skip - 1) + 3 * h;
      assert q == r + h;
      SliceAfter(Zeros(phase), canary, skip, 3 * r);
    }
  }

  lemma SliceAfter(head: Bytes, tail: Bytes, skip: nat, n: nat)
    requires skip + n <= |tail|
    ensures (head + tail)[|head| + skip..|head| + skip + n] == tail[skip..skip + n]
  {
  }

  /** The scanner's way to the same bytes: pad with zeros up to the phase, encode, and drop the
      first group when it blends with the padding and the last group always. */
  lemma TrimmedIsAligned(alphabet: Alphabet, canary: Bytes, phase: nat)
    requires phase < 3
    ensures var enc := Encode(alphabet, Zeros(phase) + canary);
            var start := if phase == 0 then 0 else 4;
            (if start + 4 <= |enc| then enc[start..|enc| - 4] else []) == Encode(alphabet, Aligned(canary, phase))
  {
    hide Encode, Aligned, Zeros;
    var data := Zeros(phase) + canary;
    var h := if phase == 0 then 0 else 1;
    AlignedIsMiddle(canary, phase);
    if 3 * h < |data| {
      TrimmedGroups(alphabet, data, h);
    } else {
      assert |Encode(alphabet, [])| == 0;
    }
  }

  lemma NoPhases(canary: Bytes)
    ensures PhaseNeedles(Standard, canary, 0) == [] && PhaseNeedles(UrlSafe, canary, 0) == []
  {
  }

  lemma PhaseStep(alphabet: Alphabet, canary: Bytes, phase: nat)
    requires phase < 3
    ensures var needle := Encode(alphabet, Aligned(canary, phase));
            PhaseNeedles(alphabet, canary, phase + 1) ==
            PhaseNeedles(alphabet, canary, phase) + (if needle == [] then [] else [needle])
  {
    hide Encode, Aligned;
    assert |Encode(alphabet, [])| == 0;
  }

  method FindBase64Needles(data: Bytes) returns (needles: seq<Bytes>)
    ensures needles == Base64Needles(data)
  {
    needles := [];
    var alphabets := [Standard, UrlSafe];
    hide Encode, Aligned, PhaseNeedles, Zeros;
    NoPhases(data);
    for a := 0 to 2
      invariant needles == (if a > 0 then PhaseNeedles(Standard, data, 3) else []) +
                           (if a > 1 then PhaseNeedles(UrlSafe, data, 3) else [])
    {
      ghost var sofar := needles;
      for phase := 0 to 3
        invariant needles == sofar + PhaseNeedles(alphabets[a], data, phase)
      {
        TrimmedIsAligned(alphabets[a], data, phase);
        PhaseStep(alphabets[a], data, phase);
        var enc := Encode(alphabets[a], Zeros(phase) + data);
        var start := if phase == 0 then 0 else 4;
        var trimmed := if start + 4 <= |enc| then enc[start..|enc| - 4] else [];
        if trimmed != [] {
          needles := needles + [trimmed];
        }
      }
    }
  }

  lemma {:induction false} PhaseNeedleListed(alphabet: Alphabet, canary: Bytes, phase: nat, phases: nat)
    requires phase < phases <= 3 && Aligned(canary, phase) != []
    ensures Encode(alphabet, Aligned(canary, phase)) in PhaseNeedles(alphabet, canary, phases)
  {
    hide Encode, Aligned;
    if phase < phases - 1 {
      PhaseNeedleListed(alphabet, canary, phase, phases - 1);
    }
  }

  /** A stream that carries the canary at some phase contains that phase's aligned middle. */
  lemma AlignedInStream(alphabet: Alphabet, prefix: Bytes, canary: Bytes, suffix: Bytes)
    ensures Contains(Encode(alphabet, prefix + canary + suffix), Encode(alphabet, Aligned(canary, |prefix| % 3)))
  {
    hide Encode;
    var phase := |prefix| % 3;
    var middle := Aligned(canary, phase);
    var skip := if middle == [] then 0 else Skipped(phase);
    if middle == [] {
      assert |Encode(alphabet, [])| == 0;
      assert Encode(alphabet, middle) == [];
      var stream := Encode(alphabet, prefix + canary + suffix);
      assert At(stream, [], 0);
    } else {
      var before := prefix + canary[..skip];
      var after := canary[skip + |middle|..] + suffix;
      assert prefix + canary + suffix == before + (middle + after);
      EncodeConcat(alphabet, before, middle + after);
      EncodeConcat(alphabet, middle, after);
      InfixContains(Encode(alphabet, before), Encode(alphabet, middle), Encode(alphabet, after));
    }
  }

  lemma InfixContains(a: Bytes, b: Bytes, c: Bytes)
    ensures Contains(a + (b + c), b)
  {
    assert At(a + (b + c), b, |a|);
  }

  /** Needle completeness: however a canary of six bytes or more is surrounded, the base64 encoding
      of the whole, in either alphabet, contains one of the needles. */
  lemma NeedleCompleteness(alphabet: Alphabet, prefix: Bytes, canary: Bytes, suffix: Bytes)
    requires |canary| >= 6
    ensures exists needle :: needle in Base64Needles(canary) && needle != []
                             && Contains(Encode(alphabet, prefix + canary + suffix), needle)
  {
    hide Encode, Aligned, PhaseNeedles, Contains;
    var phase := |prefix| % 3;
    AlignedInStream(alphabet, prefix, canary, suffix);
    PhaseNeedleListed(alphabet, canary, phase, 3);
    assert Encode(alphabet, Aligned(canary, phase)) in Base64Needles(canary);
  }

  /** Six is exact: the needle of a phase is there if and only if the canary is longer than three
      bytes plus what that phase skips, and phase 1 skips two. */
  lemma SixIsExact(canary: Bytes)
    ensures (forall phase: nat :: phase < 3 ==> Aligned(canary, phase) != []) <==> |canary| >= 6
  {
    assert Aligned(canary, 0) != [] && Aligned(canary, 1) != [] && Aligned(canary, 2) != [] <==> |canary| >= 6;
  }

  /** A five-byte canary one byte into a stream whose encoding contains none of its needles. */
  lemma FiveIsTooShort()
    ensures var canary: Bytes := [1, 2, 3, 4, 5];
            forall needle :: needle in Base64Needles(canary) ==> !Contains(Encode(Standard, [0] + canary), needle)
  {
    var canary: Bytes := [1, 2, 3, 4, 5];
    var stream := Encode(Standard, [0] + canary);
    assert [0] + canary == [0, 1, 2, 3, 4, 5];
    assert canary[0..3] == [1, 2, 3] && canary[1..4] == [2, 3, 4];
    assert ([0] + canary)[3..] == [3, 4, 5];
    assert Encode(Standard, [3, 4, 5]) == Group(Standard, 3, 4, 5);
    assert stream == Group(Standard, 0, 1, 2) + Encode(Standard, [3, 4, 5]);
    assert stream == [65, 65, 69, 67, 65, 119, 81, 70];
    forall alphabet: Alphabet
      ensures Encode(alphabet, [1, 2, 3]) == [65, 81, 73, 68] && Encode(alphabet, [2, 3, 4]) == [65, 103, 77, 69]
    {
    }
    var first: Bytes := [65, 81, 73, 68];
    var third: Bytes := [65, 103, 77, 69];
    forall needle | needle in Base64Needles(canary)
      ensures needle == first || needle == third
    {
      assert Aligned(canary, 0) == [1, 2, 3] && Aligned(canary, 1) == [] && Aligned(canary, 2) == [2, 3, 4];
    }
    forall i: nat
      ensures !At(stream, first, i) && !At(stream, third, i)
    {
      if i + 4 <= 8 {
        assert stream[i..i + 4][0] == stream[i] && stream[i..i + 4][1] == stream[i + 1];
      }
    }
  }

  // ---- Scanning one file -----------------------------------------------------

  datatype Form = Raw | Hex(upper: bool) | Base64(alphabet: Alphabet)

  function HexDigit(upper: bool, v: nat): Byte
    requires v < 16
  {
    if v < 10 then (48 + v) as Byte else if upper then (55 + v) as Byte else (87 + v) as Byte
  }

  function HexOf(upper: bool, data: Bytes): Bytes {
    if data == [] then []
    else [HexDigit(upper, data[0] as nat / 16), HexDigit(upper, data[0] as nat % 16)] + HexOf(upper, data[1..])
  }

  lemma {:induction false} HexConcat(upper: bool, a: Bytes, b: Bytes)
    ensures HexOf(upper, a + b) == HexOf(upper, a) + HexOf(upper, b)
  {
    if a == [] {
      assert a + b == b;
    } else {
      assert (a + b)[1..] == a[1..] + b;
      HexConcat(upper, a[1..], b);
    }
  }

  function Written(form: Form, data: Bytes): Bytes {
    match form
    case Raw => data
    case Hex(upper) => HexOf(upper, data)
    case Base64(alphabet) => Encode(alphabet, data)
  }

  function Needles(canary: Bytes): seq<Bytes> {
    [canary, HexOf(false, canary), HexOf(true, canary)] + Base64Needles(canary)
  }

  const GZIP_MAGIC: Bytes := [31, 139]

  /** What is searched: the file, and what inflates from any place where the gzip magic stands. */
  ghost predicate Searched(data: Bytes, stack: Bytes, inflate: Bytes -> Option<Bytes>) {
    stack == data || exists off: nat :: InflatesAt(data, stack, inflate, off)
  }

  predicate InflatesAt(data: Bytes, stack: Bytes, inflate: Bytes -> Option<Bytes>, off: nat) {
    At(data, GZIP_MAGIC, off) && stack != [] && inflate(data[off..]) == Some(stack)
  }

  ghost predicate FoundIn(stack: Bytes, needles: seq<Bytes>) {
    exists needle :: needle in needles && Contains(stack, needle)
  }

  ghost predicate Leaks(data: Bytes, canary: Bytes, inflate: Bytes -> Option<Bytes>) {
    exists stack :: Searched(data, stack, inflate) && FoundIn(stack, Needles(canary))
  }

  lemma ContainsInside(a: Bytes, b: Bytes, c: Bytes, needle: Bytes)
    requires Contains(b, needle)
    ensures Contains(a + (b + c), needle)
  {
    var i: nat :| At(b, needle, i);
    var whole := a + (b + c);
    assert whole[|a| + i..|a| + i + |needle|] == b[i..i + |needle|];
    assert At(whole, needle, |a| + i);
  }

  /** A file leaks a canary of six bytes or more whenever something searched in it carries the
      canary raw, in hex of either case, or in base64 of either alphabet, whatever surrounds it. */
  lemma EmbeddedLeaks(data: Bytes, stack: Bytes, inflate: Bytes -> Option<Bytes>, form: Form,
                      prefix: Bytes, canary: Bytes, suffix: Bytes, a: Bytes, b: Bytes)
    requires |canary| >= 6 && Searched(data, stack, inflate)
    requires stack == a + (Written(form, prefix + canary + suffix) + b)
    ensures Leaks(data, canary, inflate)
  {
    hide Encode, Base64Needles, HexOf, Searched, Contains;
    var inner := Written(form, prefix + canary + suffix);
    var needle: Bytes;
    assert prefix + canary + suffix == prefix + (canary + suffix);
    match form {
      case Raw =>
        needle := canary;
        InfixContains(prefix, canary, suffix);
      case Hex(upper) =>
        needle := HexOf(upper, canary);
        HexConcat(upper, prefix, canary + suffix);
        HexConcat(upper, canary, suffix);
        InfixContains(HexOf(upper, prefix), needle, HexOf(upper, suffix));
        assert needle in Needles(canary) by {
          assert Needles(canary)[1] == HexOf(false, canary) && Needles(canary)[2] == HexOf(true, canary);
        }
      case Base64(alphabet) =>
        NeedleCompleteness(alphabet, prefix, canary, suffix);
        needle :| needle in Base64Needles(canary) && needle != [] && Contains(inner, needle);
    }
    assert needle in Needles(canary) by { assert Needles(canary)[0] == canary; }
    ContainsInside(a, inner, b, needle);
  }

  /** The first place at or after `start` where the needle stands. */
  method Find(haystack: Bytes, needle: Bytes, start: nat) returns (off: Option<nat>)
    ensures off.Some? ==> off.value >= start && At(haystack, needle, off.value)
    ensures off.Some? ==> forall i: nat :: start <= i < off.value ==> !At(haystack, needle, i)
    ensures off.None? ==> forall i: nat :: start <= i ==> !At(haystack, needle, i)
  {
    var i := start;
    while i + |needle| <= |haystack|
      invariant i >= start
      invariant forall j: nat :: start <= j < i ==> !At(haystack, needle, j)
    {
      if haystack[i..i + |needle|] == needle {
        return Some(i);
      }
      i := i + 1;
    }
    off := None;
  }

  method Haystacks(data: Bytes, inflate: Bytes -> Option<Bytes>) returns (stacks: seq<Bytes>)
    ensures forall stack :: stack in stacks <==> Searched(data, stack, inflate)
    ensures |stacks| > 0 && stacks[0] == data
  {
    stacks := [data];
    var off := Find(data, GZIP_MAGIC, 0);
    var from := 0;
    while off.Some?
      invariant off.Some? ==> from <= off.value && At(data, GZIP_MAGIC, off.value)
      invariant forall i: nat :: from <= i && At(data, GZIP_MAGIC, i) ==> off.Some? && off.value <= i
      invariant |stacks| > 0 && stacks[0] == data
      invariant forall stack :: stack in stacks ==> Searched(data, stack, inflate)
      invariant forall i: nat, stack :: i < from && InflatesAt(data, stack, inflate, i) ==> stack in stacks
      decreases if off.Some? then |data| - off.value else -1
    {
      var out := inflate(data[off.value..]);
      if out.Some? && out.value != [] {
        assert InflatesAt(data, out.value, inflate, off.value);
        stacks := stacks + [out.value];
      }
      from := off.value + 1;
      off := Find(data, GZIP_MAGIC, off.value + 1);
    }
  }

  /** One hit for each searched part and canary: the file is reported for a canary exactly when it
      leaks it. */
  method ScanFile(data: Bytes, canaries: seq<Bytes>, inflate: Bytes -> Option<Bytes>) returns (hits: seq<nat>)
    ensures forall k: nat :: k in hits <==> k < |canaries| && Leaks(data, canaries[k], inflate)
  {
    hide Needles, FoundIn, Searched;
    hits := [];
    var stacks := Haystacks(data, inflate);
    for s := 0 to |stacks|
      invariant forall k: nat :: k in hits <==>
                    k < |canaries| && exists j :: 0 <= j < s && FoundIn(stacks[j], Needles(canaries[k]))
    {
      ghost var before := hits;
      for c := 0 to |canaries|
        invariant forall k: nat :: k in hits <==>
                      (k in before || (k < c && FoundIn(stacks[s], Needles(canaries[k]))))
      {
        var found := Holds(stacks[s], Needles(canaries[c]));
        if found {
          hits := hits + [c];
        }
      }
    }
    forall k: nat | k < |canaries|
      ensures k in hits <==> Leaks(data, canaries[k], inflate)
    {
      assert forall j :: 0 <= j < |stacks| ==> stacks[j] in stacks;
    }
  }

  method Holds(stack: Bytes, needles: seq<Bytes>) returns (found: bool)
    ensures found <==> FoundIn(stack, needles)
  {
    for n := 0 to |needles|
      invariant forall j :: 0 <= j < n ==> !Contains(stack, needles[j])
    {
      var off := Find(stack, needles[n], 0);
      if off.Some? {
        assert needles[n] in needles;
        return true;
      }
    }
    found := false;
  }
}
