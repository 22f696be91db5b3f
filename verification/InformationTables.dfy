/**
 The words of format and version information, as ISO/IEC 18004:2015 prints them in tables C.1 and D.1.
 */
module InformationTables {
  import opened InformationDistance
  import opened QrSymbol

  // The correction levels in the order L, M, Q, H.
  function FormatTable(ecl: nat, mask: nat): bv32 {
    match ecl
    case 0 => TableLow(mask)
    case 1 => TableMedium(mask)
    case 2 => TableQuartile(mask)
    case _ => TableHigh(mask)
  }

  function TableLow(mask: nat): bv32 {
    match mask
    case 0 => 0x77C4 case 1 => 0x72F3 case 2 => 0x7DAA case 3 => 0x789D
    case 4 => 0x662F case 5 => 0x6318 case 6 => 0x6C41 case _ => 0x6976
  }

  function TableMedium(mask: nat): bv32 {
    match mask
    case 0 => 0x5412 case 1 => 0x5125 case 2 => 0x5E7C case 3 => 0x5B4B
    case 4 => 0x45F9 case 5 => 0x40CE case 6 => 0x4F97 case _ => 0x4AA0
  }

  function TableQuartile(mask: nat): bv32 {
    match mask
    case 0 => 0x355F case 1 => 0x3068 case 2 => 0x3F31 case 3 => 0x3A06
    case 4 => 0x24B4 case 5 => 0x2183 case 6 => 0x2EDA case _ => 0x2BED
  }

  function TableHigh(mask: nat): bv32 {
    match mask
    case 0 => 0x1689 case 1 => 0x13BE case 2 => 0x1CE7 case 3 => 0x19D0
    case 4 => 0x0762 case 5 => 0x0255 case 6 => 0x0D0C case _ => 0x083B
  }

  lemma WordsLow(mask: nat)
    requires mask < 8
    ensures FormatWord(0, mask) == TableLow(mask)
  {
    TenStepsIsRemainder(FormatData(0, mask));
    hide FormatRemainder;
    match mask
    case 0 => case 1 => case 2 => case 3 => case 4 => case 5 => case 6 => case 7 =>
  }

  lemma WordsMedium(mask: nat)
    requires mask < 8
    ensures FormatWord(1, mask) == TableMedium(mask)
  {
    TenStepsIsRemainder(FormatData(1, mask));
    hide FormatRemainder;
    match mask
    case 0 => case 1 => case 2 => case 3 => case 4 => case 5 => case 6 => case 7 =>
  }

  lemma WordsQuartile(mask: nat)
    requires mask < 8
    ensures FormatWord(2, mask) == TableQuartile(mask)
  {
    TenStepsIsRemainder(FormatData(2, mask));
    hide FormatRemainder;
    match mask
    case 0 => case 1 => case 2 => case 3 => case 4 => case 5 => case 6 => case 7 =>
  }

  lemma WordsHigh(mask: nat)
    requires mask < 8
    ensures FormatWord(3, mask) == TableHigh(mask)
  {
    TenStepsIsRemainder(FormatData(3, mask));
    hide FormatRemainder;
    match mask
    case 0 => case 1 => case 2 => case 3 => case 4 => case 5 => case 6 => case 7 =>
  }

  // The division by the generator computes the printed words.
  lemma FormatWords(ecl: nat, mask: nat)
    requires ecl < 4 && mask < 8
    ensures FormatWord(ecl, mask) == FormatTable(ecl, mask)
  {
    hide FormatWord, TableLow, TableMedium, TableQuartile, TableHigh;
    match ecl
    case 0 => WordsLow(mask);
    case 1 => WordsMedium(mask);
    case 2 => WordsQuartile(mask);
    case 3 => WordsHigh(mask);
  }

  function VersionTable(version: nat): bv32 {
    match version
    case 7 => 0x07C94 case 8 => 0x085BC case 9 => 0x09A99 case 10 => 0x0A4D3
    case 11 => 0x0BBF6 case 12 => 0x0C762 case 13 => 0x0D847 case 14 => 0x0E60D
    case 15 => 0x0F928 case 16 => 0x10B78 case 17 => 0x1145D case 18 => 0x12A17
    case 19 => 0x13532 case 20 => 0x149A6 case 21 => 0x15683 case 22 => 0x168C9
    case 23 => 0x177EC case 24 => 0x18EC4 case 25 => 0x191E1 case 26 => 0x1AFAB
    case 27 => 0x1B08E case 28 => 0x1CC1A case 29 => 0x1D33F case 30 => 0x1ED75
    case 31 => 0x1F250 case 32 => 0x209D5 case 33 => 0x216F0 case 34 => 0x228BA
    case 35 => 0x2379F case 36 => 0x24B0B case 37 => 0x2542E case 38 => 0x26A64
    case 39 => 0x27541 case 40 => 0x28C69
    case _ => 0
  }

  // The version as a word.
  function Literal(version: nat): bv32 {
    match version
    case 7 => 7 case 8 => 8 case 9 => 9 case 10 => 10 case 11 => 11 case 12 => 12 case 13 => 13 case 14 => 14
    case 15 => 15 case 16 => 16 case 17 => 17 case 18 => 18 case 19 => 19 case 20 => 20 case 21 => 21 case 22 => 22
    case 23 => 23 case 24 => 24 case 25 => 25 case 26 => 26 case 27 => 27 case 28 => 28 case 29 => 29 case 30 => 30
    case 31 => 31 case 32 => 32 case 33 => 33 case 34 => 34 case 35 => 35 case 36 => 36 case 37 => 37 case 38 => 38
    case 39 => 39 case 40 => 40
    case _ => 0
  }

  // The word of a version, the division written out.
  function Divided(d: bv32): bv32 { VersionBits(d, SixSteps(SixSteps(d))) }

  lemma Words7To11()
    ensures Divided(7) == 0x07C94
    ensures Divided(8) == 0x085BC
    ensures Divided(9) == 0x09A99
    ensures Divided(10) == 0x0A4D3
    ensures Divided(11) == 0x0BBF6
  {}

  lemma Literal7To11(version: nat)
    requires 7 <= version <= 11
    ensures version as bv32 == Literal(version)
  {
    match version
    case 7 => case 8 => case 9 => case 10 => case 11 =>
  }

  lemma Table7To11(version: nat)
    requires 7 <= version <= 11
    ensures Divided(version as bv32) == VersionTable(version)
  {
    hide Divided;
    Words7To11();
    Literal7To11(version);
  }

  lemma Words12To16()
    ensures Divided(12) == 0x0C762
    ensures Divided(13) == 0x0D847
    ensures Divided(14) == 0x0E60D
    ensures Divided(15) == 0x0F928
    ensures Divided(16) == 0x10B78
  {}

  lemma Literal12To16(version: nat)
    requires 12 <= version <= 16
    ensures version as bv32 == Literal(version)
  {
    match version
    case 12 => case 13 => case 14 => case 15 => case 16 =>
  }

  lemma Table12To16(version: nat)
    requires 12 <= version <= 16
    ensures Divided(version as bv32) == VersionTable(version)
  {
    hide Divided;
    Words12To16();
    Literal12To16(version);
  }

  lemma Words17To21()
    ensures Divided(17) == 0x1145D
    ensures Divided(18) == 0x12A17
    ensures Divided(19) == 0x13532
    ensures Divided(20) == 0x149A6
    ensures Divided(21) == 0x15683
  {}

  lemma Literal17To21(version: nat)
    requires 17 <= version <= 21
    ensures version as bv32 == Literal(version)
  {
    match version
    case 17 => case 18 => case 19 => case 20 => case 21 =>
  }

  lemma Table17To21(version: nat)
    requires 17 <= version <= 21
    ensures Divided(version as bv32) == VersionTable(version)
  {
    hide Divided;
    Words17To21();
    Literal17To21(version);
  }

  lemma Words22To26()
    ensures Divided(22) == 0x168C9
    ensures Divided(23) == 0x177EC
    ensures Divided(24) == 0x18EC4
    ensures Divided(25) == 0x191E1
    ensures Divided(26) == 0x1AFAB
  {}

  lemma Literal22To26(version: nat)
    requires 22 <= version <= 26
    ensures version as bv32 == Literal(version)
  {
    match version
    case 22 => case 23 => case 24 => case 25 => case 26 =>
  }

  lemma Table22To26(version: nat)
    requires 22 <= version <= 26
    ensures Divided(version as bv32) == VersionTable(version)
  {
    hide Divided;
    Words22To26();
    Literal22To26(version);
  }

  lemma Words27To31()
    ensures Divided(27) == 0x1B08E
    ensures Divided(28) == 0x1CC1A
    ensures Divided(29) == 0x1D33F
    ensures Divided(30) == 0x1ED75
    ensures Divided(31) == 0x1F250
  {}

  lemma Literal27To31(version: nat)
    requires 27 <= version <= 31
    ensures version as bv32 == Literal(version)
  {
    match version
    case 27 => case 28 => case 29 => case 30 => case 31 =>
  }

  lemma Table27To31(version: nat)
    requires 27 <= version <= 31
    ensures Divided(version as bv32) == VersionTable(version)
  {
    hide Divided;
    Words27To31();
    Literal27To31(version);
  }

  lemma Words32To36()
    ensures Divided(32) == 0x209D5
    ensures Divided(33) == 0x216F0
    ensures Divided(34) == 0x228BA
    ensures Divided(35) == 0x2379F
    ensures Divided(36) == 0x24B0B
  {}

  lemma Literal32To36(version: nat)
    requires 32 <= version <= 36
    ensures version as bv32 == Literal(version)
  {
    match version
    case 32 => case 33 => case 34 => case 35 => case 36 =>
  }

  lemma Table32To36(version: nat)
    requires 32 <= version <= 36
    ensures Divided(version as bv32) == VersionTable(version)
  {
    hide Divided;
    Words32To36();
    Literal32To36(version);
  }

  lemma Words37To40()
    ensures Divided(37) == 0x2542E
    ensures Divided(38) == 0x26A64
    ensures Divided(39) == 0x27541
    ensures Divided(40) == 0x28C69
  {}

  lemma Literal37To40(version: nat)
    requires 37 <= version <= 40
    ensures version as bv32 == Literal(version)
  {
    match version
    case 37 => case 38 => case 39 => case 40 =>
  }

  lemma Table37To40(version: nat)
    requires 37 <= version <= 40
    ensures Divided(version as bv32) == VersionTable(version)
  {
    hide Divided;
    Words37To40();
    Literal37To40(version);
  }

  lemma VersionWords(version: nat)
    requires 7 <= version <= 40
    ensures VersionWord(version) == VersionTable(version)
  {
    TwelveSteps(version as bv32);
    assert VersionWord(version) == Divided(version as bv32);
    hide VersionTable, Divided, VersionWord;
    match (version - 7) / 5
    case 0 => Table7To11(version);
    case 1 => Table12To16(version);
    case 2 => Table17To21(version);
    case 3 => Table22To26(version);
    case 4 => Table27To31(version);
    case 5 => Table32To36(version);
    case _ => Table37To40(version);
  }

  // ---------- The bits of a word ----------

  // Bit 0 is the least significant one.
  lemma Digits(x: bv32)
    ensures GetBit(x, 0) <==> HasWeight(x, 0x1)
    ensures GetBit(x, 1) <==> HasWeight(x, 0x2)
    ensures GetBit(x, 2) <==> HasWeight(x, 0x4)
    ensures GetBit(x, 3) <==> HasWeight(x, 0x8)
    ensures GetBit(x, 4) <==> HasWeight(x, 0x10)
    ensures GetBit(x, 5) <==> HasWeight(x, 0x20)
    ensures GetBit(x, 6) <==> HasWeight(x, 0x40)
    ensures GetBit(x, 7) <==> HasWeight(x, 0x80)
    ensures GetBit(x, 8) <==> HasWeight(x, 0x100)
    ensures GetBit(x, 9) <==> HasWeight(x, 0x200)
    ensures GetBit(x, 10) <==> HasWeight(x, 0x400)
    ensures GetBit(x, 11) <==> HasWeight(x, 0x800)
    ensures GetBit(x, 12) <==> HasWeight(x, 0x1000)
    ensures GetBit(x, 13) <==> HasWeight(x, 0x2000)
    ensures GetBit(x, 14) <==> HasWeight(x, 0x4000)
    ensures GetBit(x, 15) <==> HasWeight(x, 0x8000)
    ensures GetBit(x, 16) <==> HasWeight(x, 0x10000)
    ensures GetBit(x, 17) <==> HasWeight(x, 0x20000)
  {
    hide GetBit, HasWeight;
    Digits0To5(x);
    Digits6To11(x);
    Digits12To17(x);
  }

  predicate HasWeight(x: bv32, w: bv32) { x & w != 0 }

  lemma Digits0To5(x: bv32)
    ensures GetBit(x, 0) <==> HasWeight(x, 0x1)
    ensures GetBit(x, 1) <==> HasWeight(x, 0x2)
    ensures GetBit(x, 2) <==> HasWeight(x, 0x4)
    ensures GetBit(x, 3) <==> HasWeight(x, 0x8)
    ensures GetBit(x, 4) <==> HasWeight(x, 0x10)
    ensures GetBit(x, 5) <==> HasWeight(x, 0x20)
  {}

  lemma Digits6To11(x: bv32)
    ensures GetBit(x, 6) <==> HasWeight(x, 0x40)
    ensures GetBit(x, 7) <==> HasWeight(x, 0x80)
    ensures GetBit(x, 8) <==> HasWeight(x, 0x100)
    ensures GetBit(x, 9) <==> HasWeight(x, 0x200)
    ensures GetBit(x, 10) <==> HasWeight(x, 0x400)
    ensures GetBit(x, 11) <==> HasWeight(x, 0x800)
  {}

  lemma Digits12To17(x: bv32)
    ensures GetBit(x, 12) <==> HasWeight(x, 0x1000)
    ensures GetBit(x, 13) <==> HasWeight(x, 0x2000)
    ensures GetBit(x, 14) <==> HasWeight(x, 0x4000)
    ensures GetBit(x, 15) <==> HasWeight(x, 0x8000)
    ensures GetBit(x, 16) <==> HasWeight(x, 0x10000)
    ensures GetBit(x, 17) <==> HasWeight(x, 0x20000)
  {}
}
