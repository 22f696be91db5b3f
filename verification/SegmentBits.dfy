/** The bit stream of a byte-mode segment (ISO/IEC 18004:2015, section 7.4), and a parser for it. */
module SegmentBits {
  import opened Basics
  import opened QrTables

  type Byte = b: nat | b < 256

  function Pow2(n: nat): (p: nat)
    ensures p >= 1
  {
    if n == 0 then 1 else 2 * Pow2(n - 1)
  }

  // The low len bits of val, most significant first.
  function Bits(val: nat, len: nat): (b: seq<bool>)
    ensures |b| == len
  {
    if len == 0 then [] else Bits(val / 2, len - 1) + [val % 2 == 1]
  }

  function Number(bits: seq<bool>): nat {
    if bits == [] then 0 else 2 * Number(bits[..|bits| - 1]) + if bits[|bits| - 1] then 1 else 0
  }

  function Zeros(n: nat): (z: seq<bool>)
    ensures |z| == n
  {
    seq(n, _ => false)
  }

  function Payload(data: seq<Byte>): (b: seq<bool>)
    ensures |b| == 8 * |data|
  {
    if data == [] then [] else Payload(data[..|data| - 1]) + Bits(data[|data| - 1], 8)
  }

  // Mode indicator, character count and payload.
  function Segment(data: seq<Byte>, version: nat): (b: seq<bool>)
    ensures |b| == 4 + NumCharCountBits(version) + 8 * |data|
  {
    Bits(0x4, 4) + Bits(|data|, NumCharCountBits(version)) + Payload(data)
  }

  // n pad codewords, in alternation.
  function Pads(n: nat): (b: seq<bool>)
    ensures |b| == 8 * n
  {
    if n == 0 then [] else Pads(n - 1) + Bits(Pad(n - 1), 8)
  }

  function Pad(n: nat): nat { if n % 2 == 0 then 0xEC else 0x11 }

  // The segment, a terminator of at most four bits, alignment to a byte, and pad codewords up to
  // the capacity.
  function Padded(data: seq<Byte>, version: nat, capacity: nat): (b: seq<bool>)
    requires 4 + NumCharCountBits(version) + 8 * |data| <= capacity && capacity % 8 == 0
    ensures |b| == capacity
    ensures Segment(data, version) <= b
  {
    var segment := Segment(data, version);
    var terminated := segment + Zeros(Min(4, capacity - |segment|));
    ToByte(|terminated|, capacity);
    var aligned := terminated + Zeros((8 - |terminated| % 8) % 8);
    aligned + Pads((capacity - |aligned|) / 8)
  }

  lemma ToByte(n: nat, capacity: nat)
    requires n <= capacity && capacity % 8 == 0
    ensures var aligned := n + (8 - n % 8) % 8;
      aligned <= capacity && aligned % 8 == 0 && 8 * ((capacity - aligned) / 8) == capacity - aligned
  {}

  // val >>> i
  function ShiftRight(val: nat, i: nat): nat {
    if i == 0 then val else ShiftRight(val, i - 1) / 2
  }

  class BitBuffer {
    var bits: seq<bool>

    constructor ()
      ensures bits == []
    {
      bits := [];
    }

    // Append the len low bits of a 32-bit value, most significant first.
    method Append(val: nat, len: nat)
      requires val < 0x1_0000_0000 && len <= 32
      modifies this
      ensures bits == old(bits) + Bits(val, len)
    {
      for i := len downto 0
        invariant bits == old(bits) + Bits(ShiftRight(val, i), len - i)
      {
        assert ShiftRight(val, i + 1) == ShiftRight(val, i) / 2;
        bits := bits + [ShiftRight(val, i) % 2 == 1];
      }
    }
  }

  lemma BitsOfZero(len: nat)
    ensures Bits(0, len) == Zeros(len)
  {}

  method AppendPayload(bb: BitBuffer, data: seq<Byte>)
    modifies bb
    ensures bb.bits == old(bb.bits) + Payload(data)
  {
    hide Bits;
    ghost var before := bb.bits;
    assert before + [] == before;
    for i := 0 to |data|
      invariant bb.bits == before + Payload(data[..i])
    {
      assert data[..i + 1][..i] == data[..i];
      bb.Append(data[i], 8);
    }
    assert data[..|data|] == data;
  }

  method AppendPads(bb: BitBuffer, capacityBits: nat)
    requires |bb.bits| <= capacityBits && |bb.bits| % 8 == capacityBits % 8 == 0
    modifies bb
    ensures bb.bits == old(bb.bits) + Pads((capacityBits - |old(bb.bits)|) / 8)
  {
    hide Bits;
    var pad := 0xEC;
    ghost var before := bb.bits;
    ghost var n := 0;
    assert before + [] == before;
    while |bb.bits| < capacityBits
      invariant |bb.bits| <= capacityBits && |bb.bits| % 8 == 0
      invariant bb.bits == before + Pads(n) && pad == Pad(n)
    {
      bb.Append(pad, 8);
      pad := if pad == 0xEC then 0x11 else 0xEC;
      n := n + 1;
    }
  }

  // The whole bit stream of a symbol.
  method BuildBits(data: seq<Byte>, version: nat, capacityBits: nat) returns (bits: seq<bool>)
    requires 4 + NumCharCountBits(version) + 8 * |data| <= capacityBits && capacityBits % 8 == 0
    requires capacityBits < 0x1_0000_0000
    ensures bits == Padded(data, version, capacityBits)
  {
    hide Bits, Payload, Pads;
    var bb := new BitBuffer();
    bb.Append(0x4, 4);
    bb.Append(|data|, NumCharCountBits(version));
    AppendPayload(bb, data);
    assert bb.bits == Segment(data, version);
    var terminator := Min(4, capacityBits - |bb.bits|);
    BitsOfZero(terminator);
    bb.Append(0, terminator);
    var alignment := (8 - |bb.bits| % 8) % 8;
    BitsOfZero(alignment);
    bb.Append(0, alignment);
    AppendPads(bb, capacityBits);
    bits := bb.bits;
  }

  // ---------- Choosing the version ----------

  predicate Fits(version: nat, ecl: nat, length: nat) {
    4 + NumCharCountBits(version) + 8 * length <= NumDataCodewords(version, ecl) * 8
  }

  // The smallest version whose capacity holds the segment, or none of the forty.
  method ChooseVersion(length: nat, ecl: nat) returns (r: Option<nat>)
    ensures r.Some? ==> 1 <= r.value <= 40 && Fits(r.value, ecl, length)
    ensures r.Some? ==> forall v: nat :: 1 <= v < r.value ==> !Fits(v, ecl, length)
    ensures r.None? ==> forall v: nat :: 1 <= v <= 40 ==> !Fits(v, ecl, length)
  {
    hide Fits, NumDataCodewords;
    var version := 1;
    while true
      invariant 1 <= version <= 40
      invariant forall v: nat :: 1 <= v < version ==> !Fits(v, ecl, length)
      decreases 40 - version
    {
      if Fits(version, ecl, length) {
        return Some(version);
      }
      if version >= 40 {
        return None;
      }
      version := version + 1;
    }
  }

  // The overfull entries of the tables are never chosen, and the length fits its count field.
  lemma FittingSymbol(version: nat, ecl: nat, length: nat)
    requires 1 <= version <= 40 && ecl < 4 && Fits(version, ecl, length)
    ensures IsSymbol(version, ecl)
    ensures length < Pow2(NumCharCountBits(version))
  {
    hide NumDataCodewords;
    PowersOfTwo();
    CapacityBound(version, ecl);
  }

  lemma PowersOfTwo()
    ensures Pow2(4) == 16 && Pow2(8) == 256 && Pow2(16) == 65536
  {
    assert Pow2(8) == 256;
    assert Pow2(12) == 4096;
  }

  // ---------- The parser ----------

  function ParseBytes(bits: seq<bool>, n: nat): (data: seq<Byte>)
    requires |bits| == 8 * n
    ensures |data| == n
  {
    if n == 0 then []
    else
      NumberBelow(bits[8 * (n - 1)..]);
      PowersOfTwo();
      ParseBytes(bits[..8 * (n - 1)], n - 1) + [Number(bits[8 * (n - 1)..])]
  }

  // The width of the character count that a reader of byte-mode segments expects.
  function CountWidth(version: nat): nat { if version < 10 then 8 else 16 }

  // Read a byte-mode segment off the front of a bit stream.
  function Parse(bits: seq<bool>, version: nat): (r: Option<seq<Byte>>) {
    var header := 4 + CountWidth(version);
    if |bits| < header || Number(bits[..4]) != 0x4 then None
    else
      var count := Number(bits[4..header]);
      if |bits| < header + 8 * count then None
      else Some(ParseBytes(bits[header..header + 8 * count], count))
  }

  lemma {:induction false} NumberBelow(bits: seq<bool>)
    ensures Number(bits) < Pow2(|bits|)
  {
    if bits != [] {
      NumberBelow(bits[..|bits| - 1]);
    }
  }

  lemma {:induction false} NumberOfBits(val: nat, len: nat)
    requires val < Pow2(len)
    ensures Number(Bits(val, len)) == val
  {
    if len > 0 {
      NumberOfBits(val / 2, len - 1);
      assert Bits(val, len)[..len - 1] == Bits(val / 2, len - 1);
    }
  }

  lemma {:induction false} ParsePayload(data: seq<Byte>)
    ensures ParseBytes(Payload(data), |data|) == data
  {
    if data != [] {
      hide Bits, Number, ParseBytes;
      var n := |data| - 1;
      ParsePayload(data[..n]);
      PowersOfTwo();
      NumberOfBits(data[n], 8);
      ParseBytesSnoc(Payload(data[..n]), Bits(data[n], 8), n);
    }
  }

  lemma ParseBytesSnoc(bits: seq<bool>, last: seq<bool>, n: nat)
    requires |bits| == 8 * n && |last| == 8 && Number(last) < 256
    ensures ParseBytes(bits + last, n + 1) == ParseBytes(bits, n) + [Number(last)]
  {
    hide Number;
    assert (bits + last)[..8 * n] == bits;
    assert (bits + last)[8 * n..] == last;
  }

  // Whatever follows a segment, parsing returns the data it was made from.
  lemma ParseSegment(data: seq<Byte>, version: nat, bits: seq<bool>)
    requires Segment(data, version) <= bits && |data| < Pow2(NumCharCountBits(version))
    ensures Parse(bits, version) == Some(data)
  {
    var c := NumCharCountBits(version);
    PowersOfTwo();
    NumberOfBits(0x4, 4);
    NumberOfBits(|data|, c);
    ParsePayload(data);
    hide Bits, Number, Payload, ParseBytes, Pow2;
    Split(Bits(0x4, 4), Bits(|data|, c), Payload(data), bits);
  }

  lemma Split<T>(a: seq<T>, b: seq<T>, c: seq<T>, s: seq<T>)
    requires a + b + c <= s
    ensures s[..|a|] == a && s[|a|..|a| + |b|] == b && s[|a| + |b|..|a| + |b| + |c|] == c
  {
    var abc := a + b + c;
    assert s[..|abc|] == abc;
    assert abc[..|a|] == a;
    assert abc[|a|..|a| + |b|] == b;
    assert abc[|a| + |b|..] == c;
  }

  // ---------- What the bits are ----------

  // Most significant first.
  lemma {:induction false} BitsMeaning(val: nat, len: nat, i: nat)
    requires i < len
    ensures Bits(val, len)[i] == (val / Pow2(len - 1 - i) % 2 == 1)
  {
    if i < len - 1 {
      BitsMeaning(val / 2, len - 1, i);
      Halves(val, Pow2(len - 2 - i));
    }
  }

  lemma Halves(val: nat, p: nat)
    requires p >= 1
    ensures val / 2 / p == val / (2 * p)
  {
    var q := val / (2 * p);
    var r := val % (2 * p);
    assert val == 2 * p * q + r;
    assert val / 2 == p * q + r / 2;
    assert 0 <= r / 2 < p;
    QuotientIs(val / 2, p, q, r / 2);
  }

  lemma QuotientIs(a: nat, p: nat, q: nat, r: nat)
    requires p >= 1 && a == p * q + r && r < p
    ensures a / p == q
  {
    var d := a / p;
    assert a == p * d + a % p;
    if d < q {
      Grows(p, d, q);
    } else if d > q {
      Grows(p, q, d);
    }
  }

  lemma {:induction false} Grows(p: nat, a: nat, b: nat)
    requires a < b
    ensures p * a + p <= p * b
    decreases b
  {
    if a + 1 < b {
      Grows(p, a, b - 1);
    }
    OneMore(p, b - 1);
  }

  lemma OneMore(p: nat, n: nat)
    ensures p * (n + 1) == p * n + p
  {}

  // The bits of the two pad codewords of section 7.4.10 of ISO/IEC 18004:2015.
  predicate PadBit(second: bool, j: nat) {
    if second then j == 3 || j == 7 else j < 6 && j != 3
  }

  lemma {:induction false} PadsMeaning(n: nat, i: nat)
    requires i < 8 * n
    ensures Pads(n)[i] == PadBit(i / 8 % 2 == 1, i % 8)
  {
    PadsSnoc(n);
    hide Pads, Bits, PadBit, Pad;
    if i < 8 * (n - 1) {
      PadsMeaning(n - 1, i);
    } else {
      LastByte(i, n);
      PadCodeword(n - 1, i - 8 * (n - 1));
    }
  }

  lemma LastByte(i: nat, n: nat)
    requires 8 * (n - 1) <= i < 8 * n
    ensures i / 8 == n - 1 && i % 8 == i - 8 * (n - 1)
  {}

  lemma PadsSnoc(n: nat)
    requires n > 0
    ensures Pads(n) == Pads(n - 1) + Bits(Pad(n - 1), 8)
  {}

  lemma PadCodeword(n: nat, j: nat)
    requires j < 8
    ensures Bits(Pad(n), 8)[j] == PadBit(n % 2 == 1, j)
  {
    PadCodewords();
    hide Bits;
  }

  lemma PadCodewords()
    ensures Bits(0xEC, 8) == [true, true, true, false, true, true, false, false]
    ensures Bits(0x11, 8) == [false, false, false, true, false, false, false, true]
  {
    assert Bits(0xE, 4) == [true, true, true, false];
    assert Bits(0x1, 4) == [false, false, false, true];
  }

  // After the segment come zeros, four of them or as many as fit and then up to a byte, and after those
  // the two pad codewords in turn.
  lemma PaddedMeaning(data: seq<Byte>, version: nat, capacity: nat, i: nat)
    requires 4 + NumCharCountBits(version) + 8 * |data| <= capacity && capacity % 8 == 0
    requires |Segment(data, version)| <= i < capacity
    ensures var segment := |Segment(data, version)|;
      var end := if segment + 4 <= capacity then segment + 4 else capacity;
      var pads := (end + 7) / 8 * 8;
      Padded(data, version, capacity)[i] == if i < pads then false else PadBit((i - pads) / 8 % 2 == 1, (i - pads) % 8)
  {
    hide Segment, Pads, PadBit, Bits, Payload;
    var segment := Segment(data, version);
    var terminated := segment + Zeros(Min(4, capacity - |segment|));
    ToByte(|terminated|, capacity);
    var aligned := terminated + Zeros((8 - |terminated| % 8) % 8);
    RoundsUp(|terminated|);
    assert forall k | |segment| <= k < |aligned| :: !aligned[k];
    if i >= |aligned| {
      PadsMeaning((capacity - |aligned|) / 8, i - |aligned|);
    }
  }

  lemma RoundsUp(n: nat)
    ensures n + (8 - n % 8) % 8 == (n + 7) / 8 * 8
  {}
}
