/** How far apart the words of format and version information are (ISO/IEC 18004:2015, sections 7.9 and 7.10). */
module InformationDistance {
  import opened QrSymbol

  function Xor32(a: bv32, b: bv32): bv32 { a ^ b }

  // The number of ones among the 18 low bits.
  function Weight(x: bv32): bv32 {
    (x & 1) + ((x >> 1) & 1) + ((x >> 2) & 1) + ((x >> 3) & 1) + ((x >> 4) & 1) + ((x >> 5) & 1)
    + ((x >> 6) & 1) + ((x >> 7) & 1) + ((x >> 8) & 1) + ((x >> 9) & 1) + ((x >> 10) & 1) + ((x >> 11) & 1)
    + ((x >> 12) & 1) + ((x >> 13) & 1) + ((x >> 14) & 1) + ((x >> 15) & 1) + ((x >> 16) & 1) + ((x >> 17) & 1)
  }

  // ---------- Format information ----------

  lemma FormatStepLinear(a: bv32, b: bv32)
    requires a < 1024 && b < 1024
    ensures FormatStep(Xor32(a, b)) == Xor32(FormatStep(a), FormatStep(b))
    ensures FormatStep(a) < 1024 && FormatStep(b) < 1024
  {}

  lemma {:induction false} FormatRemainderLinear(a: bv32, b: bv32, n: nat)
    requires a < 32 && b < 32
    ensures FormatRemainder(Xor32(a, b), n) == Xor32(FormatRemainder(a, n), FormatRemainder(b, n))
    ensures FormatRemainder(a, n) < 1024 && FormatRemainder(b, n) < 1024
  {
    hide FormatStep, Xor32;
    if n > 0 {
      FormatRemainderLinear(a, b, n - 1);
      FormatStepLinear(FormatRemainder(a, n - 1), FormatRemainder(b, n - 1));
    }
  }

  lemma FormatBitsLinear(a: bv32, b: bv32, r: bv32, s: bv32)
    requires a < 32 && b < 32 && r < 1024 && s < 1024
    ensures Xor32(FormatBits(a, r), FormatBits(b, s)) == (Xor32(a, b) << 10) | Xor32(r, s)
  {}

  // The ten division steps written out.
  function TenSteps(d: bv32): bv32 {
    var a := FormatStep(FormatStep(FormatStep(FormatStep(FormatStep(d)))));
    FormatStep(FormatStep(FormatStep(FormatStep(FormatStep(a)))))
  }

  lemma FormatUnrolls(d: bv32, n: nat)
    ensures FormatRemainder(d, 0) == d
    ensures FormatRemainder(d, n + 2) == FormatStep(FormatStep(FormatRemainder(d, n)))
  {}

  lemma TenStepsIsRemainder(d: bv32)
    ensures FormatRemainder(d, 10) == TenSteps(d)
  {
    hide FormatStep, FormatRemainder;
    FormatUnrolls(d, 0);
    FormatUnrolls(d, 2);
    FormatUnrolls(d, 4);
    FormatUnrolls(d, 6);
    FormatUnrolls(d, 8);
  }

  lemma FormatWeight(d: bv32)
    requires 0 < d < 32
    ensures Weight((d << 10) | TenSteps(d)) >= 7
  {}

  lemma FormatDataDiffers(ecl: nat, mask: nat, ecl': nat, mask': nat)
    requires ecl < 4 && mask < 8 && ecl' < 4 && mask' < 8 && (ecl != ecl' || mask != mask')
    ensures 0 < Xor32(FormatData(ecl, mask), FormatData(ecl', mask')) < 32
    ensures FormatData(ecl, mask) < 32 && FormatData(ecl', mask') < 32
  {}

  // Two words of format information differ in at least 7 bits, so 3 wrong bits can be corrected.
  lemma FormatDistance(ecl: nat, mask: nat, ecl': nat, mask': nat)
    requires ecl < 4 && mask < 8 && ecl' < 4 && mask' < 8 && (ecl != ecl' || mask != mask')
    ensures Weight(Xor32(FormatWord(ecl, mask), FormatWord(ecl', mask'))) >= 7
  {
    hide FormatData, Xor32, FormatBits, FormatRemainder, TenSteps, Weight;
    var a, b := FormatData(ecl, mask), FormatData(ecl', mask');
    FormatDataDiffers(ecl, mask, ecl', mask');
    FormatRemainderLinear(a, b, 10);
    FormatBitsLinear(a, b, FormatRemainder(a, 10), FormatRemainder(b, 10));
    TenStepsIsRemainder(Xor32(a, b));
    FormatWeight(Xor32(a, b));
  }

  // ---------- Version information ----------

  function Shifted(a: bv32): bv32 { a << 1 }

  function Reduced(a: bv32): bv32 { a ^ 0x1F25 }

  predicate Low(a: bv32) { a < 2048 }

  predicate Small(a: bv32) { a < 4096 }

  lemma StepCases(a: bv32)
    requires Small(a)
    ensures VersionStep(a) == (if Low(a) then Shifted(a) else Reduced(Shifted(a)))
    ensures Small(VersionStep(a))
  {}

  lemma XorCases(a: bv32, b: bv32)
    requires Small(a) && Small(b)
    ensures Low(Xor32(a, b)) <==> (Low(a) <==> Low(b))
    ensures Small(Xor32(a, b))
  {}

  lemma ShiftXor(a: bv32, b: bv32)
    requires Small(a) && Small(b)
    ensures Shifted(Xor32(a, b)) == Xor32(Shifted(a), Shifted(b))
  {}

  predicate Wide(a: bv32) { a < 8192 }

  lemma ShiftWide(a: bv32)
    requires Small(a)
    ensures Wide(Shifted(a))
  {}

  lemma ReduceLeft(x: bv32, y: bv32)
    requires Wide(x) && Wide(y)
    ensures Reduced(Xor32(x, y)) == Xor32(Reduced(x), y)
  {}

  lemma ReduceRight(x: bv32, y: bv32)
    requires Wide(x) && Wide(y)
    ensures Reduced(Xor32(x, y)) == Xor32(x, Reduced(y))
  {}

  lemma ReduceBoth(x: bv32, y: bv32)
    requires Wide(x) && Wide(y)
    ensures Xor32(Reduced(x), Reduced(y)) == Xor32(x, y)
  {}

  lemma VersionStepLinear(a: bv32, b: bv32)
    requires Small(a) && Small(b)
    ensures VersionStep(Xor32(a, b)) == Xor32(VersionStep(a), VersionStep(b))
    ensures Small(VersionStep(a)) && Small(VersionStep(b))
  {
    hide VersionStep, Xor32, Shifted, Reduced, Low, Small, Wide;
    StepCases(a);
    StepCases(b);
    XorCases(a, b);
    StepCases(Xor32(a, b));
    ShiftXor(a, b);
    ShiftWide(a);
    ShiftWide(b);
    ReduceLeft(Shifted(a), Shifted(b));
    ReduceRight(Shifted(a), Shifted(b));
    ReduceBoth(Shifted(a), Shifted(b));
  }

  lemma SixBits(a: bv32)
    requires a < 64
    ensures Small(a)
  {}

  lemma {:induction false} VersionRemainderLinear(a: bv32, b: bv32, n: nat)
    requires Small(a) && Small(b)
    ensures VersionRemainder(Xor32(a, b), n) == Xor32(VersionRemainder(a, n), VersionRemainder(b, n))
    ensures Small(VersionRemainder(a, n)) && Small(VersionRemainder(b, n))
  {
    hide VersionStep, Xor32, Small;
    if n > 0 {
      VersionRemainderLinear(a, b, n - 1);
      VersionStepLinear(VersionRemainder(a, n - 1), VersionRemainder(b, n - 1));
    }
  }

  function Upper(a: bv32): bv32 { a << 12 }

  lemma BitsAreXor(a: bv32, r: bv32)
    requires a < 64 && Small(r)
    ensures VersionBits(a, r) == Xor32(Upper(a), r)
  {}

  lemma UpperXor(a: bv32, b: bv32)
    requires a < 64 && b < 64
    ensures Upper(Xor32(a, b)) == Xor32(Upper(a), Upper(b))
    ensures Xor32(a, b) < 64
  {}

  lemma XorAssoc(a: bv32, b: bv32, c: bv32)
    ensures Xor32(Xor32(a, b), c) == Xor32(a, Xor32(b, c))
  {}

  lemma XorComm(a: bv32, b: bv32)
    ensures Xor32(a, b) == Xor32(b, a)
  {}

  lemma XorAcross(a: bv32, r: bv32, b: bv32, s: bv32)
    ensures Xor32(Xor32(a, r), Xor32(b, s)) == Xor32(Xor32(a, b), Xor32(r, s))
  {
    hide Xor32;
    XorAssoc(a, r, Xor32(b, s));
    XorAssoc(r, b, s);
    XorComm(r, b);
    XorAssoc(b, r, s);
    XorAssoc(a, b, Xor32(r, s));
  }

  lemma VersionBitsLinear(a: bv32, b: bv32, r: bv32, s: bv32)
    requires a < 64 && b < 64 && Small(r) && Small(s)
    ensures Xor32(VersionBits(a, r), VersionBits(b, s)) == VersionBits(Xor32(a, b), Xor32(r, s))
  {
    XorCases(r, s);
    hide VersionBits, Xor32, Small, Upper;
    BitsAreXor(a, r);
    BitsAreXor(b, s);
    UpperXor(a, b);
    BitsAreXor(Xor32(a, b), Xor32(r, s));
    XorAcross(Upper(a), r, Upper(b), s);
  }

  function SixSteps(d: bv32): bv32 {
    VersionStep(VersionStep(VersionStep(VersionStep(VersionStep(VersionStep(d))))))
  }

  lemma VersionUnrolls(d: bv32, n: nat)
    ensures VersionRemainder(d, 0) == d
    ensures VersionRemainder(d, n + 2) == VersionStep(VersionStep(VersionRemainder(d, n)))
  {}

  lemma TwelveSteps(d: bv32)
    ensures VersionRemainder(d, 12) == SixSteps(SixSteps(d))
  {
    hide VersionStep, VersionRemainder;
    VersionUnrolls(d, 0);
    VersionUnrolls(d, 2);
    VersionUnrolls(d, 4);
    VersionUnrolls(d, 6);
    VersionUnrolls(d, 8);
    VersionUnrolls(d, 10);
  }

  lemma VersionWeight(d: bv32)
    requires 0 < d < 64
    ensures Weight(VersionBits(d, SixSteps(SixSteps(d)))) >= 8
  {}

  lemma VersionDiffers(v: nat, v': nat)
    requires v <= 40 && v' <= 40 && v != v'
    ensures 0 < Xor32(v as bv32, v' as bv32) && v as bv32 < 64 && v' as bv32 < 64
  {
    AsWord(v);
    AsWord(v');
    XorDiffers(v as bv32, v' as bv32);
  }

  lemma XorDiffers(a: bv32, b: bv32)
    requires a != b
    ensures 0 < Xor32(a, b)
  {}

  lemma AsWord(v: nat)
    requires v <= 40
    ensures v as bv32 < 64 && (v as bv32) as int == v
  {
    if v <= 13 {
      AsWordLow(v);
    } else if v <= 27 {
      AsWordMiddle(v);
    } else {
      AsWordHigh(v);
    }
  }

  lemma AsWordLow(v: nat)
    requires v <= 13
    ensures v as bv32 < 64 && (v as bv32) as int == v
  {
    match v
    case 0 => case 1 => case 2 => case 3 => case 4 => case 5 => case 6 =>
    case 7 => case 8 => case 9 => case 10 => case 11 => case 12 => case 13 =>
  }

  lemma AsWordMiddle(v: nat)
    requires 13 < v <= 27
    ensures v as bv32 < 64 && (v as bv32) as int == v
  {
    match v
    case 14 => case 15 => case 16 => case 17 => case 18 => case 19 => case 20 =>
    case 21 => case 22 => case 23 => case 24 => case 25 => case 26 => case 27 =>
  }

  lemma AsWordHigh(v: nat)
    requires 27 < v <= 40
    ensures v as bv32 < 64 && (v as bv32) as int == v
  {
    match v
    case 28 => case 29 => case 30 => case 31 => case 32 => case 33 => case 34 =>
    case 35 => case 36 => case 37 => case 38 => case 39 => case 40 =>
  }

  // The upper bits of the version information are the version.
  lemma VersionReads(v: nat)
    requires v <= 40
    ensures VersionWord(v) >> 12 == v as bv32
  {
    hide VersionBits, VersionRemainder, Small;
    AsWord(v);
    SixBits(v as bv32);
    VersionRemainderLinear(v as bv32, v as bv32, 12);
    BitsReadBack(v as bv32, VersionRemainder(v as bv32, 12));
  }

  lemma BitsReadBack(a: bv32, r: bv32)
    requires a < 64 && Small(r)
    ensures VersionBits(a, r) >> 12 == a
  {}

  // Two words of version information differ in at least 8 bits.
  lemma VersionDistance(v: nat, v': nat)
    requires v <= 40 && v' <= 40 && v != v'
    ensures Weight(Xor32(VersionWord(v), VersionWord(v'))) >= 8
  {
    hide Xor32, VersionBits, VersionRemainder, SixSteps, Weight, Small;
    VersionDiffers(v, v');
    WordsApart(v as bv32, v' as bv32);
  }

  lemma WordsApart(a: bv32, b: bv32)
    requires a < 64 && b < 64 && 0 < Xor32(a, b)
    ensures Weight(Xor32(VersionBits(a, VersionRemainder(a, 12)), VersionBits(b, VersionRemainder(b, 12)))) >= 8
  {
    hide Xor32, VersionBits, VersionRemainder, SixSteps, Weight, Small;
    SixBits(a);
    SixBits(b);
    VersionRemainderLinear(a, b, 12);
    VersionBitsLinear(a, b, VersionRemainder(a, 12), VersionRemainder(b, 12));
    TwelveSteps(Xor32(a, b));
    UpperXor(a, b);
    VersionWeight(Xor32(a, b));
  }
}
