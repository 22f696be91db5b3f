/**
 The sizes of a symbol as ISO/IEC 18004:2015 prints them: codewords in table 1, data codewords in
 table 7, centres of the alignment patterns in table E.1. The encoder computes them instead.
 */
module SymbolTables {
  import opened QrTables
  import opened SymbolGeometry

  // ---------- Codewords ----------

  function Codewords(version: nat): nat {
    match version
    case 1 => 26 case 2 => 44 case 3 => 70 case 4 => 100 case 5 => 134 case 6 => 172 case 7 => 196 case 8 => 242
    case 9 => 292 case 10 => 346 case 11 => 404 case 12 => 466
    case 13 => 532 case 14 => 581 case 15 => 655 case 16 => 733
    case 17 => 815 case 18 => 901 case 19 => 991 case 20 => 1085
    case 21 => 1156 case 22 => 1258 case 23 => 1364 case 24 => 1474
    case 25 => 1588 case 26 => 1706 case 27 => 1828 case 28 => 1921
    case 29 => 2051 case 30 => 2185 case 31 => 2323 case 32 => 2465
    case 33 => 2611 case 34 => 2761 case 35 => 2876 case 36 => 3034
    case 37 => 3196 case 38 => 3362 case 39 => 3532 case 40 => 3706
    case _ => 0
  }

  lemma CodewordsAsPrinted(version: nat)
    requires 1 <= version <= 40
    ensures RawCodewords(version) == Codewords(version)
  {
    match version
    case 1 => case 2 => case 3 => case 4 => case 5 => case 6 => case 7 => case 8 => case 9 => case 10 =>
    case 11 => case 12 => case 13 => case 14 => case 15 => case 16 => case 17 => case 18 => case 19 => case 20 =>
    case 21 => case 22 => case 23 => case 24 => case 25 => case 26 => case 27 => case 28 => case 29 => case 30 =>
    case 31 => case 32 => case 33 => case 34 => case 35 => case 36 => case 37 => case 38 => case 39 => case 40 =>
  }

  // ---------- Data codewords ----------
  function DataLow(version: nat): nat {
    match version
    case 1 => 19 case 2 => 34 case 3 => 55 case 4 => 80 case 5 => 108 case 6 => 136 case 7 => 156 case 8 => 194
    case 9 => 232 case 10 => 274 case 11 => 324 case 12 => 370
    case 13 => 428 case 14 => 461 case 15 => 523 case 16 => 589
    case 17 => 647 case 18 => 721 case 19 => 795 case 20 => 861
    case 21 => 932 case 22 => 1006 case 23 => 1094 case 24 => 1174
    case 25 => 1276 case 26 => 1370 case 27 => 1468 case 28 => 1531
    case 29 => 1631 case 30 => 1735 case 31 => 1843 case 32 => 1955
    case 33 => 2071 case 34 => 2191 case 35 => 2306 case 36 => 2434
    case 37 => 2566 case 38 => 2702 case 39 => 2812 case 40 => 2956
    case _ => 0
  }

  function DataMedium(version: nat): nat {
    match version
    case 1 => 16 case 2 => 28 case 3 => 44 case 4 => 64 case 5 => 86 case 6 => 108 case 7 => 124 case 8 => 154
    case 9 => 182 case 10 => 216 case 11 => 254 case 12 => 290
    case 13 => 334 case 14 => 365 case 15 => 415 case 16 => 453
    case 17 => 507 case 18 => 563 case 19 => 627 case 20 => 669
    case 21 => 714 case 22 => 782 case 23 => 860 case 24 => 914
    case 25 => 1000 case 26 => 1062 case 27 => 1128 case 28 => 1193
    case 29 => 1267 case 30 => 1373 case 31 => 1455 case 32 => 1541
    case 33 => 1631 case 34 => 1725 case 35 => 1812 case 36 => 1914
    case 37 => 1992 case 38 => 2102 case 39 => 2216 case 40 => 2334
    case _ => 0
  }

  function DataQuartile(version: nat): nat {
    match version
    case 1 => 13 case 2 => 22 case 3 => 34 case 4 => 48 case 5 => 62 case 6 => 76 case 7 => 88 case 8 => 110
    case 9 => 132 case 10 => 154 case 11 => 180 case 12 => 206
    case 13 => 244 case 14 => 261 case 15 => 295 case 16 => 325
    case 17 => 367 case 18 => 397 case 19 => 445 case 20 => 485
    case 21 => 512 case 22 => 568 case 23 => 614 case 24 => 664
    case 25 => 718 case 26 => 754 case 27 => 808 case 28 => 871
    case 29 => 911 case 30 => 985 case 31 => 1033 case 32 => 1115
    case 33 => 1171 case 34 => 1231 case 35 => 1286 case 36 => 1354
    case 37 => 1426 case 38 => 1502 case 39 => 1582 case 40 => 1666
    case _ => 0
  }

  function DataHigh(version: nat): nat {
    match version
    case 1 => 9 case 2 => 16 case 3 => 26 case 4 => 36 case 5 => 46 case 6 => 60 case 7 => 66 case 8 => 86
    case 9 => 100 case 10 => 122 case 11 => 140 case 12 => 158
    case 13 => 180 case 14 => 197 case 15 => 223 case 16 => 253
    case 17 => 283 case 18 => 313 case 19 => 341 case 20 => 385
    case 21 => 406 case 22 => 442 case 23 => 464 case 24 => 514
    case 25 => 538 case 26 => 596 case 27 => 628 case 28 => 661
    case 29 => 701 case 30 => 745 case 31 => 793 case 32 => 845
    case 33 => 901 case 34 => 961 case 35 => 986 case 36 => 1054
    case 37 => 1096 case 38 => 1142 case 39 => 1222 case 40 => 1276
    case _ => 0
  }

  function DataPrinted(version: nat, ecl: nat): nat {
    match ecl
    case 0 => DataLow(version)
    case 1 => DataMedium(version)
    case 2 => DataQuartile(version)
    case _ => DataHigh(version)
  }

  lemma LowAsPrinted(version: nat)
    requires 1 <= version <= 40
    ensures Codewords(version) - EccLengthLow(version) * NumBlocksLow(version) == DataLow(version)
  {
    match version
    case 1 => case 2 => case 3 => case 4 => case 5 => case 6 => case 7 => case 8 => case 9 => case 10 =>
    case 11 => case 12 => case 13 => case 14 => case 15 => case 16 => case 17 => case 18 => case 19 => case 20 =>
    case 21 => case 22 => case 23 => case 24 => case 25 => case 26 => case 27 => case 28 => case 29 => case 30 =>
    case 31 => case 32 => case 33 => case 34 => case 35 => case 36 => case 37 => case 38 => case 39 => case 40 =>
  }

  lemma MediumAsPrinted(version: nat)
    requires 1 <= version <= 40
    ensures Codewords(version) - EccLengthMedium(version) * NumBlocksMedium(version) == DataMedium(version)
  {
    match version
    case 1 => case 2 => case 3 => case 4 => case 5 => case 6 => case 7 => case 8 => case 9 => case 10 =>
    case 11 => case 12 => case 13 => case 14 => case 15 => case 16 => case 17 => case 18 => case 19 => case 20 =>
    case 21 => case 22 => case 23 => case 24 => case 25 => case 26 => case 27 => case 28 => case 29 => case 30 =>
    case 31 => case 32 => case 33 => case 34 => case 35 => case 36 => case 37 => case 38 => case 39 => case 40 =>
  }

  lemma QuartileAsPrinted(version: nat)
    requires 1 <= version <= 40
    ensures Codewords(version) - EccLengthQuartile(version) * NumBlocksQuartile(version) == DataQuartile(version)
  {
    match version
    case 1 => case 2 => case 3 => case 4 => case 5 => case 6 => case 7 => case 8 => case 9 => case 10 =>
    case 11 => case 12 => case 13 => case 14 => case 15 => case 16 => case 17 => case 18 => case 19 => case 20 =>
    case 21 => case 22 => case 23 => case 24 => case 25 => case 26 => case 27 => case 28 => case 29 => case 30 =>
    case 31 => case 32 => case 33 => case 34 => case 35 => case 36 => case 37 => case 38 => case 39 => case 40 =>
  }

  // The versions whose block count at level H is the printed one.
  predicate HighAgrees(version: nat) { version <= 7 || version == 9 || version == 12 }

  lemma HighAsPrinted(version: nat)
    requires 1 <= version <= 40
    ensures Codewords(version) - EccLengthHigh(version) * NumBlocksHigh(version) == DataHigh(version)
            <==> HighAgrees(version)
  {
    match version
    case 1 => case 2 => case 3 => case 4 => case 5 => case 6 => case 7 => case 8 => case 9 => case 10 =>
    case 11 => case 12 => case 13 => case 14 => case 15 => case 16 => case 17 => case 18 => case 19 => case 20 =>
    case 21 => case 22 => case 23 => case 24 => case 25 => case 26 => case 27 => case 28 => case 29 => case 30 =>
    case 31 => case 32 => case 33 => case 34 => case 35 => case 36 => case 37 => case 38 => case 39 => case 40 =>
  }

  // The capacity is the printed one for every symbol of levels L, M and Q, and at level H for nine versions.
  lemma CapacityAsPrinted(version: nat, ecl: nat)
    requires 1 <= version <= 40 && ecl < 4
    ensures NumDataCodewords(version, ecl) == DataPrinted(version, ecl) <==> ecl < 3 || HighAgrees(version)
  {
    hide RawCodewords, Codewords, HighAgrees;
    CodewordsAsPrinted(version);
    match ecl
    case 0 => LowAsPrinted(version);
    case 1 => MediumAsPrinted(version);
    case 2 => QuartileAsPrinted(version);
    case 3 => HighAsPrinted(version);
  }

  // ---------- Alignment patterns ----------

  function Centres(version: nat): seq<int> {
    match version
    case 2 => [6, 18]
    case 3 => [6, 22]
    case 4 => [6, 26]
    case 5 => [6, 30]
    case 6 => [6, 34]
    case 7 => [6, 22, 38]
    case 8 => [6, 24, 42]
    case 9 => [6, 26, 46]
    case 10 => [6, 28, 50]
    case 11 => [6, 30, 54]
    case 12 => [6, 32, 58]
    case 13 => [6, 34, 62]
    case 14 => [6, 26, 46, 66]
    case 15 => [6, 26, 48, 70]
    case 16 => [6, 26, 50, 74]
    case 17 => [6, 30, 54, 78]
    case 18 => [6, 30, 56, 82]
    case 19 => [6, 30, 58, 86]
    case 20 => [6, 34, 62, 90]
    case 21 => [6, 28, 50, 72, 94]
    case 22 => [6, 26, 50, 74, 98]
    case 23 => [6, 30, 54, 78, 102]
    case 24 => [6, 28, 54, 80, 106]
    case 25 => [6, 32, 58, 84, 110]
    case 26 => [6, 30, 58, 86, 114]
    case 27 => [6, 34, 62, 90, 118]
    case 28 => [6, 26, 50, 74, 98, 122]
    case 29 => [6, 30, 54, 78, 102, 126]
    case 30 => [6, 26, 52, 78, 104, 130]
    case 31 => [6, 30, 56, 82, 108, 134]
    case 32 => [6, 34, 60, 86, 112, 138]
    case 33 => [6, 30, 58, 86, 114, 142]
    case 34 => [6, 34, 62, 90, 118, 146]
    case 35 => [6, 30, 54, 78, 102, 126, 150]
    case 36 => [6, 24, 50, 76, 102, 128, 154]
    case 37 => [6, 28, 54, 80, 106, 132, 158]
    case 38 => [6, 32, 58, 84, 110, 136, 162]
    case 39 => [6, 26, 54, 82, 110, 138, 166]
    case 40 => [6, 30, 58, 86, 114, 142, 170]
    case _ => []
  }

  lemma Centres1To4(version: nat)
    requires 1 <= version <= 4
    ensures |Centres(version)| == AlignmentCount(version)
    ensures forall i: nat | i < AlignmentCount(version) :: Centres(version)[i] == AlignmentPosition(version, i)
  {
    match version
    case 1 => case 2 => case 3 => case 4 =>
  }

  lemma Centres5To8(version: nat)
    requires 5 <= version <= 8
    ensures |Centres(version)| == AlignmentCount(version)
    ensures forall i: nat | i < AlignmentCount(version) :: Centres(version)[i] == AlignmentPosition(version, i)
  {
    match version
    case 5 => case 6 => case 7 => case 8 =>
  }

  lemma Centres9To12(version: nat)
    requires 9 <= version <= 12
    ensures |Centres(version)| == AlignmentCount(version)
    ensures forall i: nat | i < AlignmentCount(version) :: Centres(version)[i] == AlignmentPosition(version, i)
  {
    match version
    case 9 => case 10 => case 11 => case 12 =>
  }

  lemma Centres13To16(version: nat)
    requires 13 <= version <= 16
    ensures |Centres(version)| == AlignmentCount(version)
    ensures forall i: nat | i < AlignmentCount(version) :: Centres(version)[i] == AlignmentPosition(version, i)
  {
    match version
    case 13 => case 14 => case 15 => case 16 =>
  }

  lemma Centres17To20(version: nat)
    requires 17 <= version <= 20
    ensures |Centres(version)| == AlignmentCount(version)
    ensures forall i: nat | i < AlignmentCount(version) :: Centres(version)[i] == AlignmentPosition(version, i)
  {
    match version
    case 17 => case 18 => case 19 => case 20 =>
  }

  lemma Centres21To24(version: nat)
    requires 21 <= version <= 24
    ensures |Centres(version)| == AlignmentCount(version)
    ensures forall i: nat | i < AlignmentCount(version) :: Centres(version)[i] == AlignmentPosition(version, i)
  {
    match version
    case 21 => case 22 => case 23 => case 24 =>
  }

  lemma Centres25To28(version: nat)
    requires 25 <= version <= 28
    ensures |Centres(version)| == AlignmentCount(version)
    ensures forall i: nat | i < AlignmentCount(version) :: Centres(version)[i] == AlignmentPosition(version, i)
  {
    match version
    case 25 => case 26 => case 27 => case 28 =>
  }

  lemma Centres29To32(version: nat)
    requires 29 <= version <= 32
    ensures |Centres(version)| == AlignmentCount(version)
    ensures forall i: nat | i < AlignmentCount(version) :: Centres(version)[i] == AlignmentPosition(version, i)
  {
    match version
    case 29 => case 30 => case 31 => case 32 =>
  }

  lemma Centres33To36(version: nat)
    requires 33 <= version <= 36
    ensures |Centres(version)| == AlignmentCount(version)
    ensures forall i: nat | i < AlignmentCount(version) :: Centres(version)[i] == AlignmentPosition(version, i)
  {
    match version
    case 33 => case 34 => case 35 => case 36 =>
  }

  lemma Centres37To40(version: nat)
    requires 37 <= version <= 40
    ensures |Centres(version)| == AlignmentCount(version)
    ensures forall i: nat | i < AlignmentCount(version) :: Centres(version)[i] == AlignmentPosition(version, i)
  {
    match version
    case 37 => case 38 => case 39 => case 40 =>
  }

  lemma CentresAsPrinted(version: nat)
    requires 1 <= version <= 40
    ensures |Centres(version)| == AlignmentCount(version)
    ensures forall i: nat | i < AlignmentCount(version) :: Centres(version)[i] == AlignmentPosition(version, i)
  {
    hide Centres, AlignmentPosition;
    match (version - 1) / 4
    case 0 => Centres1To4(version);
    case 1 => Centres5To8(version);
    case 2 => Centres9To12(version);
    case 3 => Centres13To16(version);
    case 4 => Centres17To20(version);
    case 5 => Centres21To24(version);
    case 6 => Centres25To28(version);
    case 7 => Centres29To32(version);
    case 8 => Centres33To36(version);
    case _ => Centres37To40(version);
  }
}
