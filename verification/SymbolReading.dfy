/** Reading a symbol back, from nothing but the colours of its modules. */
module SymbolReading {
  import opened Basics
  import opened CodewordBits
  import opened ErrorCorrection
  import opened Masking
  import opened QrSymbol
  import opened QrTables
  import opened SegmentBits
  import opened SymbolCapacity
  import opened SymbolGeometry
  import opened Zigzag

  // ---------- Format information ----------

  // Bits 10 to 14 of the format information name the correction level and the mask, XORed with 10101.
  datatype Format = Format(ecl: nat, mask: nat)

  function Digit(bit: bool): nat { if bit then 1 else 0 }

  function ReadFormat(b10: bool, b11: bool, b12: bool, b13: bool, b14: bool): (f: Format)
    ensures f.ecl < 4 && f.mask < 8
  {
    Format(2 * Digit(!b14) + Digit(!b13), 4 * Digit(!b12) + 2 * Digit(b11) + Digit(!b10))
  }

  // Bits 10 to 14 of x are the five low bits of data, XORed with 10101.
  predicate Carries(x: bv32, data: bv32) {
    && ((x >> 10) & 1 != 0) == (data & 1 == 0)
    && ((x >> 11) & 1 != 0) == (data & 2 != 0)
    && ((x >> 12) & 1 != 0) == (data & 4 == 0)
    && ((x >> 13) & 1 != 0) == (data & 8 != 0)
    && ((x >> 14) & 1 != 0) == (data & 16 == 0)
  }

  lemma StepBelow(rem: bv32)
    requires rem < 1024
    ensures FormatStep(rem) < 1024
  {}

  lemma {:induction false} RemainderBelow(data: bv32, n: nat)
    requires data < 32
    ensures FormatRemainder(data, n) < 1024
  {
    hide FormatStep;
    if n > 0 {
      RemainderBelow(data, n - 1);
      StepBelow(FormatRemainder(data, n - 1));
    }
  }

  lemma BitsCarry(data: bv32, rem: bv32)
    requires data < 32 && rem < 1024
    ensures Carries(FormatBits(data, rem), data)
  {}

  lemma DataBelow(ecl: nat, mask: nat)
    requires ecl < 4 && mask < 8
    ensures FormatData(ecl, mask) < 32
  {}

  lemma DigitsOf(ecl: nat, mask: nat)
    requires ecl < 4 && mask < 8
    ensures var data := FormatData(ecl, mask);
      ReadFormat(data & 1 == 0, data & 2 != 0, data & 4 == 0, data & 8 != 0, data & 16 == 0) == Format(ecl, mask)
  {
    match ecl case 0 => case 1 => case 2 => case 3 =>
    match mask case 0 => case 1 => case 2 => case 3 => case 4 => case 5 => case 6 => case 7 =>
  }

  lemma FormatReads(ecl: nat, mask: nat)
    requires ecl < 4 && mask < 8
    ensures var w := FormatWord(ecl, mask);
      ReadFormat(GetBit(w, 10), GetBit(w, 11), GetBit(w, 12), GetBit(w, 13), GetBit(w, 14)) == Format(ecl, mask)
  {
    hide FormatData, FormatRemainder, FormatBits, ReadFormat;
    var data := FormatData(ecl, mask);
    var rem := FormatRemainder(data, 10);
    DataBelow(ecl, mask);
    RemainderBelow(data, 10);
    BitsCarry(data, rem);
    DigitsOf(ecl, mask);
  }

  // The format information beside the upper left finder pattern.
  function FormatOf(rows: Grid): (f: Format)
    requires Square(rows, |rows|) && |rows| >= 21
    ensures f.ecl < 4 && f.mask < 8
  {
    ReadFormat(rows[8][4], rows[8][3], rows[8][2], rows[8][1], rows[8][0])
  }

  lemma FormatModules(version: nat, ecl: nat, mask: nat, i: nat)
    requires 1 <= version <= 40 && ecl < 4 && mask < 8 && 10 <= i < 15
    ensures IsFunction(version, 14 - i, 8)
    ensures PatternColor(version, ecl, mask, 14 - i, 8) == GetBit(FormatWord(ecl, mask), i)
  {
    hide FormatWord, GetBit, VersionWord;
  }

  lemma CandidateFormat(version: nat, ecl: nat, mask: nat, stream: seq<bv8>)
    requires 1 <= version <= 40 && ecl < 4 && mask < 8
    ensures FormatOf(Candidate(version, ecl, mask, stream)) == Format(ecl, mask)
  {
    hide FormatWord, GetBit, IsFunction, PatternColor, ReadFormat;
    FormatReads(ecl, mask);
    FormatModules(version, ecl, mask, 10);
    FormatModules(version, ecl, mask, 11);
    FormatModules(version, ecl, mask, 12);
    FormatModules(version, ecl, mask, 13);
    FormatModules(version, ecl, mask, 14);
  }

  // ---------- Codewords ----------

  lemma DataCellsFit(version: nat)
    requires 1 <= version <= 40
    ensures |DataCells(version)| >= 8 * RawCodewords(version)
    ensures Distinct(DataCells(version))
    ensures forall c :: c in DataCells(version) ==> InSymbol(version, c.x, c.y) && !IsFunction(version, c.x, c.y)
  {
    hide Path, FreeOf, NumRawDataModules, Distinct, IsFunction;
    var size, marked := Size(version), FunctionCells(version);
    RoomForCodewords(version, marked);
    FreeCells(marked, size);
    FreeMembers(marked, Path(size));
    PathInside(size);
  }

  lemma PathInside(size: int)
    requires size >= 9 && size % 2 == 1
    ensures forall c :: c in Path(size) ==> 0 <= c.x < size && 0 <= c.y < size
  {
    PathCovers(size);
  }

  // ---------- Where a reader finds the codeword bits ----------

  // The condition of table 10 of ISO/IEC 18004:2015, on row and column; products are taken modulo 6
  // where the table adds their remainders.
  predicate Flips(mask: int, row: int, column: int) {
    match mask
    case 0 => (row + column) % 2 == 0
    case 1 => row % 2 == 0
    case 2 => column % 3 == 0
    case 3 => (row + column) % 3 == 0
    case 4 => (row / 2 + column / 3) % 2 == 0
    case 5 => row * column % 6 == 0
    case 6 => row * column % 6 < 3
    case 7 => (row + column + row * column % 3) % 2 == 0
    case _ => false
  }

  lemma Sixths(p: int)
    ensures p % 2 + p % 3 == 0 <==> p % 6 == 0
    ensures (p % 2 + p % 3) % 2 == 0 <==> p % 6 < 3
  {
    var q, r := p / 6, p % 6;
    assert p == 6 * q + r;
    assert p % 2 == r % 2 && p % 3 == r % 3;
  }

  lemma Parity(a: int, b: int)
    ensures (a % 2 + b) % 2 == (a + b) % 2
  {}

  // What the encoder inverts is what a reader flips back.
  lemma FlipsUndoesMask(mask: int, x: int, y: int)
    ensures Inverts(mask, x, y) <==> Flips(mask, y, x)
  {
    if 5 <= mask <= 7 {
      ProductMasks(mask, x, y, x * y);
    } else {
      match mask
      case 0 => case 1 => case 2 => case 3 => case 4 => case _ =>
    }
  }

  lemma ProductMasks(mask: int, x: int, y: int, p: int)
    requires 5 <= mask <= 7 && p == x * y
    ensures Inverts(mask, x, y) <==> Flips(mask, y, x)
  {
    Commutes(x, y);
    Sixths(p);
    Parity(x + y, p % 3);
    match mask
    case 5 => assert Inverts(mask, x, y) <==> p % 2 + p % 3 == 0;
    case 6 => assert Inverts(mask, x, y) <==> (p % 2 + p % 3) % 2 == 0;
    case 7 => assert Inverts(mask, x, y) <==> ((x + y) % 2 + p % 3) % 2 == 0;
  }

  lemma Commutes(x: int, y: int)
    ensures x * y == y * x
  {}

  ghost function DataModules(version: nat): (cells: set<Cell>)
    requires version >= 1
    ensures forall c: Cell :: c in cells <==> InSymbol(version, c.x, c.y) && c.x != 6 && !IsFunction(version, c.x, c.y)
  {
    set x, y | 0 <= x < Size(version) && 0 <= y < Size(version) && x != 6 && !IsFunction(version, x, y) :: Cell(x, y)
  }

  // The data modules before one of them, in the order of their coordinates.
  ghost function Earlier(version: nat, c: Cell): set<Cell>
    requires version >= 1
  {
    set d | d in DataModules(version) && PlaceOf(Size(version), d.x, d.y) < PlaceOf(Size(version), c.x, c.y)
  }

  // Module c carries bit k: k data modules come before it.
  ghost predicate Carrier(version: nat, k: nat, c: Cell)
    requires version >= 1
  {
    c in DataModules(version) && |Earlier(version, c)| == k
  }

  ghost predicate Placed(size: int, s: seq<Cell>) {
    forall i | 0 <= i < |s| :: PlaceOf(size, s[i].x, s[i].y) == i
  }

  ghost predicate Increasing(size: int, s: seq<Cell>) {
    forall i, j | 0 <= i < j < |s| :: PlaceOf(size, s[i].x, s[i].y) < PlaceOf(size, s[j].x, s[j].y)
  }

  lemma {:induction false} FreeIncreases(marked: set<Cell>, size: int, s: seq<Cell>)
    requires Placed(size, s)
    ensures Increasing(size, FreeOf(marked, s))
    ensures forall c | c in FreeOf(marked, s) :: PlaceOf(size, c.x, c.y) < |s|
  {
    hide PlaceOf;
    if s != [] {
      FreeIncreases(marked, size, s[..|s| - 1]);
      var before := FreeOf(marked, s[..|s| - 1]);
      forall i | 0 <= i < |before|
        ensures PlaceOf(size, before[i].x, before[i].y) < |s| - 1
      {
        assert before[i] in before;
      }
    }
  }

  lemma {:induction false} DistinctSize(s: seq<Cell>)
    requires Distinct(s)
    ensures |Elements(s)| == |s|
  {
    if s != [] {
      DistinctSize(s[..|s| - 1]);
      ElementsSnoc(s);
    }
  }

  lemma DataCellsIncrease(version: nat)
    requires 1 <= version <= 40
    ensures Increasing(Size(version), DataCells(version)) && Distinct(DataCells(version))
    ensures forall c :: c in DataCells(version) <==> c in DataModules(version)
  {
    hide PlaceOf, Path, FreeOf, IsFunction;
    var size, marked := Size(version), FunctionCells(version);
    forall i | 0 <= i < |Path(size)|
      ensures PlaceOf(size, Path(size)[i].x, Path(size)[i].y) == i
    {
      PlaceOfPath(size, i);
    }
    FreeIncreases(marked, size, Path(size));
    PathCovers(size);
    FreeMembers(marked, Path(size));
    FreeCells(marked, size);
  }

  // The k-th module the encoder fills is the one that carries bit k.
  lemma CarrierIsFilled(version: nat, k: nat, c: Cell)
    requires 1 <= version <= 40 && k < |DataCells(version)|
    ensures Carrier(version, k, c) <==> c == DataCells(version)[k]
  {
    hide PlaceOf, DataCells, IsFunction, DataModules;
    DataCellsIncrease(version);
    var free := DataCells(version);
    EarlierThan(version, k);
    if Carrier(version, k, c) {
      var i :| 0 <= i < |free| && free[i] == c;
      EarlierThan(version, i);
    }
    assert free[k] in free;
  }

  lemma EarlierThan(version: nat, k: nat)
    requires 1 <= version <= 40 && k < |DataCells(version)|
    ensures |Earlier(version, DataCells(version)[k])| == k
  {
    hide PlaceOf, DataCells, IsFunction, DataModules;
    DataCellsIncrease(version);
    var free := DataCells(version);
    var before := free[..k];
    forall d
      ensures d in Earlier(version, free[k]) <==> d in Elements(before)
    {
      if d in free {
        var i :| 0 <= i < |free| && free[i] == d;
        assert i < k ==> before[i] == d;
      }
      if d in before {
        var i :| 0 <= i < k && before[i] == d;
        assert free[i] == d;
      }
    }
    assert Earlier(version, free[k]) == Elements(before);
    DistinctSize(before);
  }

  // Bit k of the codewords of a symbol, unmasked.
  ghost predicate ReadBit(rows: Grid, version: nat, mask: nat, k: nat)
    requires 1 <= version <= 40 && Square(rows, Size(version))
  {
    exists c :: Carrier(version, k, c) && rows[c.y][c.x] != Flips(mask, c.y, c.x)
  }

  // The codeword bits of a symbol, in the order they were placed.
  ghost function ReadBits(rows: Grid, version: nat, mask: nat): (bits: seq<bool>)
    requires 1 <= version <= 40 && Square(rows, Size(version))
    ensures |bits| == 8 * RawCodewords(version)
  {
    seq(8 * RawCodewords(version), k requires 0 <= k < 8 * RawCodewords(version) => ReadBit(rows, version, mask, k))
  }

  lemma CandidateBits(version: nat, ecl: nat, mask: nat, stream: seq<bv8>)
    requires 1 <= version <= 40 && ecl < 4 && mask < 8 && |stream| == RawCodewords(version)
    ensures ReadBits(Candidate(version, ecl, mask, stream), version, mask) == AllBits(stream)
  {
    hide CodewordBit, IsFunction, PatternColor, Inverts, Flips, DataCells, RawCodewords, Carrier;
    DataCellsFit(version);
    var free := DataCells(version);
    var rows := Candidate(version, ecl, mask, stream);
    forall k: nat | k < 8 * |stream|
      ensures ReadBits(rows, version, mask)[k] == AllBits(stream)[k]
    {
      var c := free[k];
      assert c in free;
      forall d
        ensures Carrier(version, k, d) <==> d == c
      {
        CarrierIsFilled(version, k, d);
      }
      FlipsUndoesMask(mask, c.x, c.y);
      DataColorAt(version, stream, k);
      assert rows[c.y][c.x] == ModuleColor(version, ecl, mask, mask, stream, c.x, c.y);
    }
  }

  lemma DataColorAt(version: nat, stream: seq<bv8>, k: nat)
    requires 1 <= version <= 40 && k < |DataCells(version)| && k < 8 * |stream|
    ensures DataColor(version, stream, DataCells(version)[k].x, DataCells(version)[k].y) == CodewordBit(stream, k)
  {
    hide CodewordBit, DataCells, IsFunction;
    DataCellsFit(version);
  }

  // ---------- The whole symbol ----------

  // The bytes a symbol stands for: its size gives the version, its format information the level and
  // the mask, its data modules the codewords.
  ghost function Decode(rows: Grid): Option<seq<Byte>> {
    var size := |rows|;
    var version := (size - 17) / 4;
    if !Square(rows, size) || size % 4 != 1 || !(1 <= version <= 40) then None
    else
      var f := FormatOf(rows);
      if !IsSymbol(version, f.ecl) then None
      else
        var l := LayoutOf(version, f.ecl);
        Parse(AllBits(l.ReadAll(Pack(ReadBits(rows, version, f.mask)), l.numBlocks)), version)
  }

  // A symbol drawn from codewords reads as those codewords do, under any of the masks.
  lemma DecodeCandidate(version: nat, ecl: nat, mask: nat, codewords: seq<bv8>)
    requires IsSymbol(version, ecl) && |codewords| == NumDataCodewords(version, ecl) && mask < 8
    ensures Decode(Candidate(version, ecl, mask, Stream(LayoutOf(version, ecl), codewords)))
         == Parse(AllBits(codewords), version)
  {
    hide Stream, Candidate, ReadBits, FormatOf, Pack, AllBits, Parse, NumDataCodewords, NumBlocks, EccLength;
    hide RawCodewords;
    var l := LayoutOf(version, ecl);
    var stream := Stream(l, codewords);
    CandidateFormat(version, ecl, mask, stream);
    CandidateBits(version, ecl, mask, stream);
    PackAllBits(stream);
    StreamRecovers(l, codewords);
  }
}
