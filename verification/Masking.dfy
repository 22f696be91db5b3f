/** Data masking and the choice of the mask (ISO/IEC 18004:2015, section 7.8). */
module Masking {
  import opened Basics
  import opened CodewordBits
  import opened ErrorCorrection
  import opened PenaltyScore
  import opened QrSymbol
  import opened QrTables
  import opened SymbolCapacity
  import opened SymbolGeometry
  import opened Zigzag

  // Whether a mask inverts a data module; none but the eight masks inverts anything.
  predicate Inverts(mask: int, x: int, y: int) {
    match mask
    case 0 => (x + y) % 2 == 0
    case 1 => y % 2 == 0
    case 2 => x % 3 == 0
    case 3 => (x + y) % 3 == 0
    case 4 => (x / 3 + y / 2) % 2 == 0
    case 5 => x * y % 2 + x * y % 3 == 0
    case 6 => (x * y % 2 + x * y % 3) % 2 == 0
    case 7 => ((x + y) % 2 + x * y % 3) % 2 == 0
    case _ => false
  }

  method ApplyMask(qr: QrCode, mask: int)
    requires qr.Valid()
    modifies qr.modules
    ensures forall a, b | 0 <= a < qr.size && 0 <= b < qr.size ::
              qr.modules[b, a] == (old(qr.modules[b, a]) != (!qr.isFunction[b, a] && Inverts(mask, a, b)))
  {
    hide Inverts;
    for y := 0 to qr.size
      invariant forall a, b | 0 <= a < qr.size && 0 <= b < qr.size ::
                  qr.modules[b, a] == (old(qr.modules[b, a]) != (b < y && !qr.isFunction[b, a] && Inverts(mask, a, b)))
    {
      for x := 0 to qr.size
        invariant forall a, b | 0 <= a < qr.size && 0 <= b < qr.size ::
                    qr.modules[b, a] == (old(qr.modules[b, a])
                                         != ((b < y || (b == y && a < x)) && !qr.isFunction[b, a] && Inverts(mask, a, b)))
      {
        if !qr.isFunction[y, x] && Inverts(mask, x, y) {
          qr.modules[y, x] := !qr.modules[y, x];
        }
      }
    }
  }

  // ---------- What a finished symbol looks like ----------

  ghost function FunctionCells(version: nat): (cells: set<Cell>)
    requires version >= 1
    ensures forall c: Cell :: c in cells <==> InSymbol(version, c.x, c.y) && IsFunction(version, c.x, c.y)
  {
    set x, y | 0 <= x < Size(version) && 0 <= y < Size(version) && IsFunction(version, x, y) :: Cell(x, y)
  }

  // The modules that carry codeword bits, in the order they are filled.
  ghost function DataCells(version: nat): seq<Cell>
    requires version >= 1
  {
    FreeOf(FunctionCells(version), Path(Size(version)))
  }

  // A data module before masking; those left over are light.
  ghost predicate DataColor(version: nat, stream: seq<bv8>, x: int, y: int)
    requires version >= 1
  {
    exists k: nat :: k < |DataCells(version)| && k < 8 * |stream| && DataCells(version)[k] == Cell(x, y) && CodewordBit(stream, k)
  }

  // A module of the symbol whose format information names one mask while another is applied.
  ghost predicate ModuleColor(version: nat, ecl: nat, named: nat, applied: int, stream: seq<bv8>, x: int, y: int)
    requires 1 <= version <= 40 && ecl < 4 && named < 8
  {
    if IsFunction(version, x, y) then PatternColor(version, ecl, named, x, y)
    else DataColor(version, stream, x, y) != Inverts(applied, x, y)
  }

  // The finished symbol with the given mask.
  ghost function Candidate(version: nat, ecl: nat, mask: nat, stream: seq<bv8>): (rows: Grid)
    requires 1 <= version <= 40 && ecl < 4 && mask < 8
    ensures Square(rows, Size(version))
  {
    seq(Size(version), y requires 0 <= y < Size(version) =>
      seq(Size(version), x requires 0 <= x < Size(version) => ModuleColor(version, ecl, mask, mask, stream, x, y)))
  }

  ghost function PenaltyOf(version: nat, ecl: nat, mask: nat, stream: seq<bv8>): int
    requires 1 <= version <= 40 && ecl < 4 && mask < 8
  {
    Penalty(Candidate(version, ecl, mask, stream), Size(version))
  }

  ghost predicate Shows(qr: QrCode, named: nat, applied: int, stream: seq<bv8>)
    requires qr.Valid() && named < 8
    reads qr.modules, qr.isFunction
  {
    forall a, b | 0 <= a < qr.size && 0 <= b < qr.size ::
      && qr.isFunction[b, a] == IsFunction(qr.version, a, b)
      && qr.modules[b, a] == ModuleColor(qr.version, qr.ecl, named, applied, stream, a, b)
  }

  lemma ShowsCandidate(qr: QrCode, mask: nat, stream: seq<bv8>)
    requires qr.Valid() && mask < 8 && Shows(qr, mask, mask, stream)
    ensures qr.Rows() == Candidate(qr.version, qr.ecl, mask, stream)
  {
    hide ModuleColor, IsFunction;
    var rows, candidate := qr.Rows(), Candidate(qr.version, qr.ecl, mask, stream);
    forall y | 0 <= y < qr.size
      ensures rows[y] == candidate[y]
    {
    }
  }

  // Format information covers no version information, and nothing covers it.
  lemma Reformat(version: nat, ecl: nat, mask: nat, mask': nat, x: int, y: int)
    requires 1 <= version <= 40 && ecl < 4 && mask < 8 && mask' < 8
    ensures FormatMark(Size(version), x, y) != NoMark ==> IsFunction(version, x, y)
    ensures PatternColor(version, ecl, mask', x, y) ==
            if FormatMark(Size(version), x, y) != NoMark then FormatColor(FormatWord(ecl, mask'), FormatMark(Size(version), x, y))
            else PatternColor(version, ecl, mask, x, y)
  {
    hide FormatWord, VersionWord, FormatColor, InAlignment, AlignmentColor, InFinders, FindersColor;
  }

  // ---------- Mask search ----------

  method ShowMask(qr: QrCode, mask: nat, ghost named: nat, ghost stream: seq<bv8>)
    requires qr.Valid() && mask < 8 && named < 8 && Shows(qr, named, -1, stream)
    modifies qr.modules, qr.isFunction
    ensures Shows(qr, mask, mask, stream)
  {
    hide FormatWord, FormatColor, FormatMark, IsFunction, PatternColor, DataColor, Inverts;
    NoInversion();
    ApplyMask(qr, mask);
    qr.DrawFormatBits(mask);
    forall a, b | 0 <= a < qr.size && 0 <= b < qr.size
      ensures qr.isFunction[b, a] == IsFunction(qr.version, a, b)
      ensures qr.modules[b, a] == ModuleColor(qr.version, qr.ecl, mask, mask, stream, a, b)
    {
      Reformat(qr.version, qr.ecl, named, mask, a, b);
    }
  }

  method HideMask(qr: QrCode, mask: nat, ghost stream: seq<bv8>)
    requires qr.Valid() && mask < 8 && Shows(qr, mask, mask, stream)
    modifies qr.modules
    ensures Shows(qr, mask, -1, stream)
  {
    hide IsFunction, PatternColor, DataColor, Inverts;
    NoInversion();
    ApplyMask(qr, mask);
  }

  lemma NoInversion()
    ensures forall x, y :: !Inverts(-1, x, y)
  {}

  // The function patterns and the codewords, before any mask.
  method DrawBase(stream: seq<bv8>, version: nat, ecl: nat) returns (qr: QrCode)
    requires 1 <= version <= 40 && ecl < 4
    ensures fresh(qr) && qr.Valid() && fresh(qr.modules) && fresh(qr.isFunction)
    ensures qr.version == version && qr.ecl == ecl && Shows(qr, 0, -1, stream)
  {
    hide IsFunction, PatternColor, Path, FreeOf, CodewordBit, Inverts;
    NoInversion();
    qr := new QrCode(version, ecl);
    qr.DrawFunctionPatterns();
    assert qr.Marked() == FunctionCells(version);
    ghost var dark := qr.Dark();
    ghost var free := DataCells(version);
    FreeCells(FunctionCells(version), Size(version));
    FreeMembers(FunctionCells(version), Path(Size(version)));
    qr.DrawCodewords(stream);
    forall a, b | 0 <= a < qr.size && 0 <= b < qr.size
      ensures qr.modules[b, a] == ModuleColor(version, ecl, 0, -1, stream, a, b)
    {
      DataModule(free, 8 * |stream|, Cell(a, b));
    }
  }

  lemma DataModule(free: seq<Cell>, n: nat, c: Cell)
    ensures c in free[..Min(|free|, n)] <==> exists k: nat :: k < |free| && k < n && free[k] == c
  {
    if k: nat :| k < |free| && k < n && free[k] == c {
      assert free[..Min(|free|, n)][k] == c;
    }
  }

  method MakeQr(dataCodewords: seq<bv8>, version: nat, ecl: nat) returns (qr: QrCode)
    requires IsSymbol(version, ecl) && |dataCodewords| == NumDataCodewords(version, ecl)
    ensures fresh(qr) && qr.Valid() && qr.version == version && qr.ecl == ecl && 0 <= qr.mask < 8
    ensures var stream := Stream(LayoutOf(version, ecl), dataCodewords);
      && qr.Rows() == Candidate(version, ecl, qr.mask, stream)
      && (forall m: nat | m < 8 :: PenaltyOf(version, ecl, qr.mask, stream) <= PenaltyOf(version, ecl, m, stream))
      && (forall m: nat | m < qr.mask :: PenaltyOf(version, ecl, qr.mask, stream) < PenaltyOf(version, ecl, m, stream))
  {
    hide Shows, Candidate, Penalty, Stream, LayoutOf, NumDataCodewords;
    var stream := AddEccAndInterleave(dataCodewords, version, ecl);
    qr := DrawBase(stream, version, ecl);
    var mask: nat, minPenalty: Option<int> := 0, None;
    ghost var named: nat := 0;
    for m := 0 to 8
      invariant fresh(qr) && qr.Valid() && fresh(qr.modules) && fresh(qr.isFunction)
      invariant qr.version == version && qr.ecl == ecl && named < 8 && Shows(qr, named, -1, stream)
      invariant mask < 8 && (minPenalty.None? <==> m == 0) && (m > 0 ==> mask < m)
      invariant minPenalty.Some? ==> minPenalty.value == PenaltyOf(version, ecl, mask, stream)
      invariant forall k: nat | k < m :: PenaltyOf(version, ecl, mask, stream) <= PenaltyOf(version, ecl, k, stream)
      invariant forall k: nat | k < mask :: PenaltyOf(version, ecl, mask, stream) < PenaltyOf(version, ecl, k, stream)
    {
      ShowMask(qr, m, named, stream);
      ShowsCandidate(qr, m, stream);
      var penalty := GetPenaltyScore(qr);
      if minPenalty.None? || penalty < minPenalty.value {
        mask, minPenalty := m, Some(penalty);
      }
      HideMask(qr, m, stream);
      named := m;
    }
    qr.mask := mask;
    ShowMask(qr, mask, named, stream);
    ShowsCandidate(qr, mask, stream);
  }
}
