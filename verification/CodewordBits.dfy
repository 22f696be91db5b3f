/** Codewords as bits, most significant first, and back. */
module CodewordBits {
  import opened GaloisField

  // 1 << k, for k below 8.
  function Mask(k: nat): bv8 {
    match k
    case 0 => 0x01
    case 1 => 0x02
    case 2 => 0x04
    case 3 => 0x08
    case 4 => 0x10
    case 5 => 0x20
    case 6 => 0x40
    case _ => 0x80
  }

  function Or(a: bv8, b: bv8): bv8 { a | b }

  // Bit i of a codeword stream.
  predicate CodewordBit(codewords: seq<bv8>, i: nat)
    requires i < 8 * |codewords|
  {
    Bit(codewords[i / 8], 7 - i % 8)
  }

  // Most significant first.
  lemma CodewordBitMeaning(codewords: seq<bv8>, k: nat, j: nat)
    requires k < |codewords| && j < 8
    ensures CodewordBit(codewords, 8 * k + j) == ((codewords[k] >> (7 - j)) & 1 == 1)
  {
    assert (8 * k + j) / 8 == k && (8 * k + j) % 8 == j;
    BitIsShift(codewords[k], 7 - j);
    hide Bit;
  }

  lemma BitIsShift(y: bv8, i: nat)
    requires i < 8
    ensures Bit(y, i) == ((y >> i) & 1 == 1)
  {
    match i
    case 0 => case 1 => case 2 => case 3 => case 4 => case 5 => case 6 => case 7 =>
  }

  function AllBits(codewords: seq<bv8>): (bits: seq<bool>)
    ensures |bits| == 8 * |codewords|
  {
    seq(8 * |codewords|, i requires 0 <= i < 8 * |codewords| => CodewordBit(codewords, i))
  }

  lemma BitOfZero(n: nat)
    ensures !Bit(0, n)
  {}

  lemma BitOfOr(a: bv8, b: bv8, n: nat)
    ensures Bit(Or(a, b), n) <==> Bit(a, n) || Bit(b, n)
  {
    match n
    case 0 => case 1 => case 2 => case 3 => case 4 => case 5 => case 6 => case 7 => case _ =>
  }

  lemma BitOfMask(m: nat, n: nat)
    requires m < 8 && n < 8
    ensures Bit(Mask(m), n) <==> m == n
  {
    match m
    case 0 => case 1 => case 2 => case 3 => case 4 => case 5 => case 6 => case 7 =>
  }

  lemma BitsDetermineByte(a: bv8, b: bv8)
    requires Bit(a, 0) == Bit(b, 0) && Bit(a, 1) == Bit(b, 1) && Bit(a, 2) == Bit(b, 2) && Bit(a, 3) == Bit(b, 3)
    requires Bit(a, 4) == Bit(b, 4) && Bit(a, 5) == Bit(b, 5) && Bit(a, 6) == Bit(b, 6) && Bit(a, 7) == Bit(b, 7)
    ensures a == b
  {}

  lemma SameBit(a: seq<bv8>, b: seq<bv8>, k: nat, m: nat)
    requires |a| == |b| && AllBits(a) == AllBits(b) && k < |a| && m < 8
    ensures Bit(a[k], m) == Bit(b[k], m)
  {
    hide Bit;
    var i := 8 * k + (7 - m);
    assert AllBits(a)[i] == CodewordBit(a, i);
    assert AllBits(b)[i] == CodewordBit(b, i);
  }

  // A codeword stream is determined by its bits.
  lemma BitsDetermineCodewords(a: seq<bv8>, b: seq<bv8>)
    requires AllBits(a) == AllBits(b)
    ensures a == b
  {
    hide Bit;
    assert |a| == |b|;
    forall k | 0 <= k < |a|
      ensures a[k] == b[k]
    {
      SameBit(a, b, k, 0);
      SameBit(a, b, k, 1);
      SameBit(a, b, k, 2);
      SameBit(a, b, k, 3);
      SameBit(a, b, k, 4);
      SameBit(a, b, k, 5);
      SameBit(a, b, k, 6);
      SameBit(a, b, k, 7);
      BitsDetermineByte(a[k], b[k]);
    }
  }

  function PackPrefix(bits: seq<bool>, n: nat): (codewords: seq<bv8>)
    requires n <= |bits| && |bits| % 8 == 0
    ensures |codewords| == |bits| / 8
  {
    if n == 0 then seq(|bits| / 8, _ => 0)
    else
      OrBit(PackPrefix(bits, n - 1), n - 1, bits[n - 1])
  }

  // codewords[i >>> 3] |= bit << (7 - (i & 7))
  function OrBit(codewords: seq<bv8>, i: nat, bit: bool): (r: seq<bv8>)
    requires i < 8 * |codewords|
    ensures |r| == |codewords|
  {
    codewords[i / 8 := Or(codewords[i / 8], if bit then Mask(7 - i % 8) else 0)]
  }

  lemma {:induction false} PackPrefixBits(bits: seq<bool>, n: nat)
    requires n <= |bits| && |bits| % 8 == 0
    ensures forall k: nat | k < |bits| :: CodewordBit(PackPrefix(bits, n), k) <==> k < n && bits[k]
  {
    hide Bit, Or, Mask;
    if n == 0 {
      BitOfZeroAll();
    } else {
      PackPrefixBits(bits, n - 1);
      PackStep(PackPrefix(bits, n - 1), bits, n - 1);
    }
  }

  lemma BitOfZeroAll()
    ensures forall n: nat :: !Bit(0, n)
  {
    forall n: nat
      ensures !Bit(0, n)
    {
      BitOfZero(n);
    }
  }

  lemma PackStep(before: seq<bv8>, bits: seq<bool>, i: nat)
    requires i < |bits| && |bits| % 8 == 0 && |before| == |bits| / 8
    requires forall k: nat | k < |bits| :: CodewordBit(before, k) <==> k < i && bits[k]
    ensures forall k: nat | k < |bits| :: CodewordBit(OrBit(before, i, bits[i]), k) <==> k < i + 1 && bits[k]
  {
    hide Bit, Or, Mask;
    var mask := if bits[i] then Mask(7 - i % 8) else 0;
    var after := OrBit(before, i, bits[i]);
    BitOfZeroAll();
    forall k: nat | k < |bits|
      ensures CodewordBit(after, k) <==> k < i + 1 && bits[k]
    {
      assert CodewordBit(before, k) <==> k < i && bits[k];
      if k / 8 == i / 8 {
        assert k == i <==> k % 8 == i % 8;
        BitOfOr(before[i / 8], mask, 7 - k % 8);
        BitOfMask(7 - i % 8, 7 - k % 8);
        assert Bit(mask, 7 - k % 8) <==> bits[i] && k == i;
      }
    }
  }

  // The codewords whose bits these are.
  function Pack(bits: seq<bool>): (codewords: seq<bv8>)
    requires |bits| % 8 == 0
    ensures |codewords| == |bits| / 8 && AllBits(codewords) == bits
  {
    PackPrefixBits(bits, |bits|);
    PackPrefix(bits, |bits|)
  }

  lemma PackAllBits(codewords: seq<bv8>)
    ensures Pack(AllBits(codewords)) == codewords
  {
    hide Pack, AllBits;
    BitsDetermineCodewords(Pack(AllBits(codewords)), codewords);
  }

  method PackBits(bits: seq<bool>) returns (codewords: seq<bv8>)
    requires |bits| % 8 == 0
    ensures codewords == Pack(bits)
  {
    hide Bit, Or, Mask;
    codewords := seq(|bits| / 8, _ => 0);
    for i := 0 to |bits|
      invariant codewords == PackPrefix(bits, i)
    {
      codewords := OrBit(codewords, i, bits[i]);
    }
  }
}
