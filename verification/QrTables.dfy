/**
 The sizes of a QR code symbol (ISO/IEC 18004:2015, tables 1 and 9): the tables of the encoder and
 what the rest of the model relies on in them. Error correction levels L, M, Q and H are 0 to 3.
 */
module QrTables {

  // The symbols the tables leave room for.
  predicate IsSymbol(version: nat, ecl: nat) {
    1 <= version <= 40 && ecl < 4 && (ecl == 3 ==> version <= 30)
  }

  // Check codewords per block.
  function EccLength(version: nat, ecl: nat): nat {
    match ecl
    case 0 => EccLengthLow(version)
    case 1 => EccLengthMedium(version)
    case 2 => EccLengthQuartile(version)
    case 3 => EccLengthHigh(version)
    case _ => 0
  }

  function EccLengthLow(version: nat): nat {
    match version
    case 1 => 7 case 2 => 10 case 3 => 15 case 4 => 20 case 5 => 26 case 6 => 18 case 7 => 20 case 8 => 24
    case 9 => 30 case 10 => 18 case 11 => 20 case 12 => 24 case 13 => 26 case 14 => 30 case 15 => 22 case 16 => 24
    case 17 => 28 case 18 => 30 case 19 => 28 case 20 => 28 case 21 => 28 case 22 => 28 case 23 => 30 case 24 => 30
    case 25 => 26 case 26 => 28 case 27 => 30 case 28 => 30 case 29 => 30 case 30 => 30 case 31 => 30 case 32 => 30
    case 33 => 30 case 34 => 30 case 35 => 30 case 36 => 30 case 37 => 30 case 38 => 30 case 39 => 30 case 40 => 30
    case _ => 0
  }

  function EccLengthMedium(version: nat): nat {
    match version
    case 1 => 10 case 2 => 16 case 3 => 26 case 4 => 18 case 5 => 24 case 6 => 16 case 7 => 18 case 8 => 22
    case 9 => 22 case 10 => 26 case 11 => 30 case 12 => 22 case 13 => 22 case 14 => 24 case 15 => 24 case 16 => 28
    case 17 => 28 case 18 => 26 case 19 => 26 case 20 => 26 case 21 => 26 case 22 => 28 case 23 => 28 case 24 => 28
    case 25 => 28 case 26 => 28 case 27 => 28 case 28 => 28 case 29 => 28 case 30 => 28 case 31 => 28 case 32 => 28
    case 33 => 28 case 34 => 28 case 35 => 28 case 36 => 28 case 37 => 28 case 38 => 28 case 39 => 28 case 40 => 28
    case _ => 0
  }

  function EccLengthQuartile(version: nat): nat {
    match version
    case 1 => 13 case 2 => 22 case 3 => 18 case 4 => 26 case 5 => 18 case 6 => 24 case 7 => 18 case 8 => 22
    case 9 => 20 case 10 => 24 case 11 => 28 case 12 => 26 case 13 => 24 case 14 => 20 case 15 => 30 case 16 => 24
    case 17 => 28 case 18 => 28 case 19 => 26 case 20 => 30 case 21 => 28 case 22 => 30 case 23 => 30 case 24 => 30
    case 25 => 30 case 26 => 28 case 27 => 30 case 28 => 30 case 29 => 30 case 30 => 30 case 31 => 30 case 32 => 30
    case 33 => 30 case 34 => 30 case 35 => 30 case 36 => 30 case 37 => 30 case 38 => 30 case 39 => 30 case 40 => 30
    case _ => 0
  }

  function EccLengthHigh(version: nat): nat {
    match version
    case 1 => 17 case 2 => 28 case 3 => 22 case 4 => 16 case 5 => 22 case 6 => 28 case 7 => 26 case 8 => 26
    case 9 => 24 case 10 => 28 case 11 => 24 case 12 => 28 case 13 => 22 case 14 => 24 case 15 => 24 case 16 => 30
    case 17 => 28 case 18 => 28 case 19 => 26 case 20 => 28 case 21 => 30 case 22 => 24 case 23 => 30 case 24 => 30
    case 25 => 30 case 26 => 30 case 27 => 30 case 28 => 30 case 29 => 30 case 30 => 30 case 31 => 30 case 32 => 30
    case 33 => 30 case 34 => 30 case 35 => 30 case 36 => 30 case 37 => 30 case 38 => 30 case 39 => 30 case 40 => 30
    case _ => 0
  }

  // Blocks per symbol.
  function NumBlocks(version: nat, ecl: nat): nat {
    match ecl
    case 0 => NumBlocksLow(version)
    case 1 => NumBlocksMedium(version)
    case 2 => NumBlocksQuartile(version)
    case 3 => NumBlocksHigh(version)
    case _ => 0
  }

  function NumBlocksLow(version: nat): nat {
    match version
    case 1 => 1 case 2 => 1 case 3 => 1 case 4 => 1 case 5 => 1 case 6 => 2 case 7 => 2 case 8 => 2
    case 9 => 2 case 10 => 4 case 11 => 4 case 12 => 4 case 13 => 4 case 14 => 4 case 15 => 6 case 16 => 6
    case 17 => 6 case 18 => 6 case 19 => 7 case 20 => 8 case 21 => 8 case 22 => 9 case 23 => 9 case 24 => 10
    case 25 => 12 case 26 => 12 case 27 => 12 case 28 => 13 case 29 => 14 case 30 => 15 case 31 => 16 case 32 => 17
    case 33 => 18 case 34 => 19 case 35 => 19 case 36 => 20 case 37 => 21 case 38 => 22 case 39 => 24 case 40 => 25
    case _ => 0
  }

  function NumBlocksMedium(version: nat): nat {
    match version
    case 1 => 1 case 2 => 1 case 3 => 1 case 4 => 2 case 5 => 2 case 6 => 4 case 7 => 4 case 8 => 4
    case 9 => 5 case 10 => 5 case 11 => 5 case 12 => 8 case 13 => 9 case 14 => 9 case 15 => 10 case 16 => 10
    case 17 => 11 case 18 => 13 case 19 => 14 case 20 => 16 case 21 => 17 case 22 => 17 case 23 => 18 case 24 => 20
    case 25 => 21 case 26 => 23 case 27 => 25 case 28 => 26 case 29 => 28 case 30 => 29 case 31 => 31 case 32 => 33
    case 33 => 35 case 34 => 37 case 35 => 38 case 36 => 40 case 37 => 43 case 38 => 45 case 39 => 47 case 40 => 49
    case _ => 0
  }

  function NumBlocksQuartile(version: nat): nat {
    match version
    case 1 => 1 case 2 => 1 case 3 => 2 case 4 => 2 case 5 => 4 case 6 => 4 case 7 => 6 case 8 => 6
    case 9 => 8 case 10 => 8 case 11 => 8 case 12 => 10 case 13 => 12 case 14 => 16 case 15 => 12 case 16 => 17
    case 17 => 16 case 18 => 18 case 19 => 21 case 20 => 20 case 21 => 23 case 22 => 23 case 23 => 25 case 24 => 27
    case 25 => 29 case 26 => 34 case 27 => 34 case 28 => 35 case 29 => 38 case 30 => 40 case 31 => 43 case 32 => 45
    case 33 => 48 case 34 => 51 case 35 => 53 case 36 => 56 case 37 => 59 case 38 => 62 case 39 => 65 case 40 => 68
    case _ => 0
  }

  function NumBlocksHigh(version: nat): nat {
    match version
    case 1 => 1 case 2 => 1 case 3 => 2 case 4 => 4 case 5 => 4 case 6 => 4 case 7 => 5 case 8 => 5
    case 9 => 8 case 10 => 9 case 11 => 9 case 12 => 11 case 13 => 13 case 14 => 15 case 15 => 19 case 16 => 23
    case 17 => 17 case 18 => 19 case 19 => 34 case 20 => 34 case 21 => 28 case 22 => 31 case 23 => 39 case 24 => 46
    case 25 => 49 case 26 => 48 case 27 => 57 case 28 => 60 case 29 => 63 case 30 => 72 case 31 => 80 case 32 => 89
    case 33 => 98 case 34 => 109 case 35 => 121 case 36 => 133 case 37 => 142 case 38 => 150 case 39 => 161 case 40 => 180
    case _ => 0
  }

  function Size(version: nat): nat { version * 4 + 17 }

  function NumRawDataModules(version: nat): int {
    var result := (16 * version + 128) * version + 64;
    if version >= 2 then
      var numAlign := version / 7 + 2;
      var aligned := result - ((25 * numAlign - 10) * numAlign - 55);
      if version >= 7 then aligned - 36 else aligned
    else result
  }

  function RawCodewords(version: nat): int { NumRawDataModules(version) / 8 }

  function NumDataCodewords(version: nat, ecl: nat): int {
    RawCodewords(version) - EccLength(version, ecl) * NumBlocks(version, ecl)
  }

  function NumCharCountBits(version: nat): nat { if version <= 9 then 8 else 16 }

  // The blocks have room for their check codewords and fit the 255 positions of the code.
  ghost predicate BlocksFit(raw: int, numBlocks: nat, eccLength: nat) {
    numBlocks >= 1 && 1 <= eccLength <= raw / numBlocks <= 254
  }

  lemma BlocksFitLow(version: nat)
    requires 1 <= version <= 40
    ensures BlocksFit(RawCodewords(version), NumBlocksLow(version), EccLengthLow(version))
  {
    match version
    case 1 => case 2 => case 3 => case 4 => case 5 => case 6 => case 7 => case 8 => case 9 => case 10 =>
    case 11 => case 12 => case 13 => case 14 => case 15 => case 16 => case 17 => case 18 => case 19 => case 20 =>
    case 21 => case 22 => case 23 => case 24 => case 25 => case 26 => case 27 => case 28 => case 29 => case 30 =>
    case 31 => case 32 => case 33 => case 34 => case 35 => case 36 => case 37 => case 38 => case 39 => case 40 =>
  }

  lemma BlocksFitMedium(version: nat)
    requires 1 <= version <= 40
    ensures BlocksFit(RawCodewords(version), NumBlocksMedium(version), EccLengthMedium(version))
  {
    match version
    case 1 => case 2 => case 3 => case 4 => case 5 => case 6 => case 7 => case 8 => case 9 => case 10 =>
    case 11 => case 12 => case 13 => case 14 => case 15 => case 16 => case 17 => case 18 => case 19 => case 20 =>
    case 21 => case 22 => case 23 => case 24 => case 25 => case 26 => case 27 => case 28 => case 29 => case 30 =>
    case 31 => case 32 => case 33 => case 34 => case 35 => case 36 => case 37 => case 38 => case 39 => case 40 =>
  }

  lemma BlocksFitQuartile(version: nat)
    requires 1 <= version <= 40
    ensures BlocksFit(RawCodewords(version), NumBlocksQuartile(version), EccLengthQuartile(version))
  {
    match version
    case 1 => case 2 => case 3 => case 4 => case 5 => case 6 => case 7 => case 8 => case 9 => case 10 =>
    case 11 => case 12 => case 13 => case 14 => case 15 => case 16 => case 17 => case 18 => case 19 => case 20 =>
    case 21 => case 22 => case 23 => case 24 => case 25 => case 26 => case 27 => case 28 => case 29 => case 30 =>
    case 31 => case 32 => case 33 => case 34 => case 35 => case 36 => case 37 => case 38 => case 39 => case 40 =>
  }

  lemma BlocksFitHigh(version: nat)
    requires 1 <= version <= 30
    ensures BlocksFit(RawCodewords(version), NumBlocksHigh(version), EccLengthHigh(version))
  {
    match version
    case 1 => case 2 => case 3 => case 4 => case 5 => case 6 => case 7 => case 8 => case 9 => case 10 =>
    case 11 => case 12 => case 13 => case 14 => case 15 => case 16 => case 17 => case 18 => case 19 => case 20 =>
    case 21 => case 22 => case 23 => case 24 => case 25 => case 26 => case 27 => case 28 => case 29 => case 30 =>
  }

  lemma BlocksOverfullHigh(version: nat)
    requires 31 <= version <= 40
    ensures !BlocksFit(RawCodewords(version), NumBlocksHigh(version), EccLengthHigh(version))
  {
    match version
    case 31 => case 32 => case 33 => case 34 => case 35 => case 36 => case 37 => case 38 => case 39 => case 40 =>
  }

  // At level H the block counts of versions 31 to 40 ask for more check codewords than the symbol
  // has codewords; every other entry of the tables leaves room.
  lemma TablesFit(version: nat, ecl: nat)
    requires 1 <= version <= 40 && ecl < 4
    ensures BlocksFit(RawCodewords(version), NumBlocks(version, ecl), EccLength(version, ecl))
            <==> IsSymbol(version, ecl)
  {
    hide BlocksFit, RawCodewords;
    match ecl
    case 0 => BlocksFitLow(version);
    case 1 => BlocksFitMedium(version);
    case 2 => BlocksFitQuartile(version);
    case 3 =>
      if version <= 30 {
        BlocksFitHigh(version);
      } else {
        BlocksOverfullHigh(version);
      }
  }

  lemma RawBound(version: nat)
    requires 1 <= version <= 40
    ensures RawCodewords(version) <= 3848
  {
    Product(16 * version + 128, 768, version);
    Product(40, 25 * (version / 7 + 2) - 10, version / 7 + 2);
  }

  lemma Product(a: nat, b: nat, x: nat)
    requires a <= b
    ensures a * x <= b * x
  {}

  lemma SmallRawBound(version: nat)
    requires 1 <= version <= 8
    ensures RawCodewords(version) <= 242
  {
    match version
    case 1 => case 2 => case 3 => case 4 => case 5 => case 6 => case 7 => case 8 =>
  }

  lemma CapacityOfNine(ecl: nat)
    requires ecl < 4
    ensures NumDataCodewords(9, ecl) <= 232
  {
    match ecl
    case 0 => case 1 => case 2 => case 3 =>
  }

  // No capacity is left at level H beyond version 30.
  lemma OverfullCapacity(version: nat)
    requires 31 <= version <= 40
    ensures NumDataCodewords(version, 3) < 0
  {
    match version
    case 31 => case 32 => case 33 => case 34 => case 35 => case 36 => case 37 => case 38 => case 39 => case 40 =>
  }

  // The capacity fits a character count of 8 bits up to version 9 and of 16 bits beyond.
  lemma CapacityBound(version: nat, ecl: nat)
    requires 1 <= version <= 40 && ecl < 4
    ensures NumDataCodewords(version, ecl) < if version <= 9 then 256 else 65536
    ensures !IsSymbol(version, ecl) ==> NumDataCodewords(version, ecl) < 0
  {
    hide RawCodewords, EccLength, NumBlocks;
    RawBound(version);
    if version <= 8 {
      SmallRawBound(version);
    }
    assert EccLength(version, ecl) * NumBlocks(version, ecl) >= 0;
    CapacityOfNine(ecl);
    if version > 30 && ecl == 3 {
      OverfullCapacity(version);
    }
  }
}
