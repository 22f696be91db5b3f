/** A QR code symbol under construction: its modules, and which of them are function patterns. */
module QrSymbol {
  import opened Basics
  import opened QrTables
  import opened SymbolGeometry
  import opened CodewordBits
  import opened GaloisField
  import opened SymbolCapacity
  import opened Zigzag

  function EccFormatBits(ecl: nat): bv32 {
    match ecl
    case 0 => 1 case 1 => 0 case 2 => 3 case _ => 2
  }

  function MaskBits(mask: nat): bv32 {
    match mask
    case 0 => 0 case 1 => 1 case 2 => 2 case 3 => 3 case 4 => 4 case 5 => 5 case 6 => 6 case _ => 7
  }

  // Bit i of x.
  predicate GetBit(x: bv32, i: nat)
    requires i < 32
  {
    (x >> i) & 1 != 0
  }

  // n steps of the division of the format data by the generator 0x537.
  function FormatRemainder(data: bv32, n: nat): bv32 {
    if n == 0 then data else FormatStep(FormatRemainder(data, n - 1))
  }

  function FormatStep(rem: bv32): bv32 { (rem << 1) ^ ((rem >> 9) * 0x537) }

  function FormatBits(data: bv32, rem: bv32): bv32 { ((data << 10) | rem) ^ 0x5412 }

  function FormatData(ecl: nat, mask: nat): bv32 {
    (EccFormatBits(ecl) << 3) | MaskBits(mask)
  }

  // The 15 bits of the format information.
  function FormatWord(ecl: nat, mask: nat): bv32
    requires ecl < 4 && mask < 8
  {
    var data := FormatData(ecl, mask);
    FormatBits(data, FormatRemainder(data, 10))
  }

  // n steps of the division of the version by the generator 0x1F25.
  function VersionRemainder(version: bv32, n: nat): bv32 {
    if n == 0 then version else VersionStep(VersionRemainder(version, n - 1))
  }

  function VersionStep(rem: bv32): bv32 { (rem << 1) ^ ((rem >> 11) * 0x1F25) }

  function VersionBits(version: bv32, rem: bv32): bv32 { (version << 12) | rem }

  // The 18 bits of the version information.
  function VersionWord(version: nat): bv32
    requires version <= 40
  {
    VersionBits(version as bv32, VersionRemainder(version as bv32, 12))
  }

  predicate FormatColor(word: bv32, mark: Mark) {
    mark == DarkMark || (mark.BitMark? && mark.bit < 32 && GetBit(word, mark.bit))
  }

  // The colour of a function module, where one pattern is drawn over another.
  predicate PatternColor(version: nat, ecl: nat, mask: nat, x: int, y: int)
    requires 1 <= version <= 40 && ecl < 4 && mask < 8
  {
    var size := Size(version);
    if VersionMark(version, x, y) != NoMark then FormatColor(VersionWord(version), VersionMark(version, x, y))
    else if FormatMark(size, x, y) != NoMark then FormatColor(FormatWord(ecl, mask), FormatMark(size, x, y))
    else if InAlignment(version, x, y) then AlignmentColor(version, x, y)
    else if InFinders(size, x, y) then FindersColor(size, x, y)
    else TimingColor(x, y)
  }

  class QrCode {
    const version: nat
    const ecl: nat
    const size: nat
    var mask: int
    const modules: array2<bool>
    const isFunction: array2<bool>

    ghost predicate Valid() {
      && 1 <= version <= 40 && ecl < 4 && size == Size(version)
      && modules != isFunction
      && modules.Length0 == modules.Length1 == isFunction.Length0 == isFunction.Length1 == size
    }

    constructor (version: nat, ecl: nat)
      requires 1 <= version <= 40 && ecl < 4
      ensures Valid() && fresh(modules) && fresh(isFunction)
      ensures this.version == version && this.ecl == ecl && mask == -1
      ensures forall x, y | 0 <= x < size && 0 <= y < size :: !modules[y, x] && !isFunction[y, x]
    {
      this.version := version;
      this.ecl := ecl;
      size := version * 4 + 17;
      mask := -1;
      modules := new bool[Size(version), Size(version)]((_, _) => false);
      isFunction := new bool[Size(version), Size(version)]((_, _) => false);
    }

    method SetFunctionModule(x: int, y: int, isDark: bool)
      requires Valid() && 0 <= x < size && 0 <= y < size
      modifies modules, isFunction
      ensures modules[y, x] == isDark && isFunction[y, x]
      ensures forall a, b | 0 <= a < size && 0 <= b < size && (a != x || b != y) ::
                modules[b, a] == old(modules[b, a]) && isFunction[b, a] == old(isFunction[b, a])
    {
      modules[y, x] := isDark;
      isFunction[y, x] := true;
    }

    method DrawFinderPattern(x: int, y: int)
      requires Valid() && 0 <= x < size && 0 <= y < size
      modifies modules, isFunction
      ensures forall a, b | 0 <= a < size && 0 <= b < size ::
                && isFunction[b, a] == (old(isFunction[b, a]) || InFinder(a, b, x, y))
                && modules[b, a] == if InFinder(a, b, x, y) then FinderColor(a, b, x, y) else old(modules[b, a])
    {
      for dy := -4 to 5
        invariant forall a, b | 0 <= a < size && 0 <= b < size ::
                    var drawn := InFinder(a, b, x, y) && b - y < dy;
                    && isFunction[b, a] == (old(isFunction[b, a]) || drawn)
                    && modules[b, a] == if drawn then FinderColor(a, b, x, y) else old(modules[b, a])
      {
        for dx := -4 to 5
          invariant forall a, b | 0 <= a < size && 0 <= b < size ::
                      var drawn := InFinder(a, b, x, y) && (b - y < dy || (b - y == dy && a - x < dx));
                      && isFunction[b, a] == (old(isFunction[b, a]) || drawn)
                      && modules[b, a] == if drawn then FinderColor(a, b, x, y) else old(modules[b, a])
        {
          var dist := if Abs(dx) > Abs(dy) then Abs(dx) else Abs(dy);
          var xx, yy := x + dx, y + dy;
          assert Distance(xx, yy, x, y) == dist;
          if 0 <= xx < size && 0 <= yy < size {
            SetFunctionModule(xx, yy, dist != 2 && dist != 4);
          }
        }
      }
    }

    method DrawAlignmentPattern(x: int, y: int)
      requires Valid() && 2 <= x < size - 2 && 2 <= y < size - 2
      modifies modules, isFunction
      ensures forall a, b | 0 <= a < size && 0 <= b < size ::
                && isFunction[b, a] == (old(isFunction[b, a]) || Distance(a, b, x, y) <= 2)
                && modules[b, a] == if Distance(a, b, x, y) <= 2 then Distance(a, b, x, y) != 1 else old(modules[b, a])
    {
      for dy := -2 to 3
        invariant forall a, b | 0 <= a < size && 0 <= b < size ::
                    var drawn := Distance(a, b, x, y) <= 2 && b - y < dy;
                    && isFunction[b, a] == (old(isFunction[b, a]) || drawn)
                    && modules[b, a] == if drawn then Distance(a, b, x, y) != 1 else old(modules[b, a])
      {
        for dx := -2 to 3
          invariant forall a, b | 0 <= a < size && 0 <= b < size ::
                      var drawn := Distance(a, b, x, y) <= 2 && (b - y < dy || (b - y == dy && a - x < dx));
                      && isFunction[b, a] == (old(isFunction[b, a]) || drawn)
                      && modules[b, a] == if drawn then Distance(a, b, x, y) != 1 else old(modules[b, a])
        {
          var dist := if Abs(dx) > Abs(dy) then Abs(dx) else Abs(dy);
          assert Distance(x + dx, y + dy, x, y) == dist;
          SetFunctionModule(x + dx, y + dy, dist != 1);
        }
      }
    }

    // The function modules, and the dark ones.
    ghost function Marked(): (cells: set<Cell>)
      requires Valid()
      reads isFunction
      ensures forall c: Cell :: c in cells <==> InSymbol(version, c.x, c.y) && isFunction[c.y, c.x]
    {
      set x, y | 0 <= x < size && 0 <= y < size && isFunction[y, x] :: Cell(x, y)
    }

    ghost function Dark(): (cells: set<Cell>)
      requires Valid()
      reads modules
      ensures forall c: Cell :: c in cells <==> InSymbol(version, c.x, c.y) && modules[c.y, c.x]
    {
      set x, y | 0 <= x < size && 0 <= y < size && modules[y, x] :: Cell(x, y)
    }

    // The modules as rows.
    ghost function Rows(): (rows: Grid)
      requires Valid()
      reads modules
      ensures Square(rows, size)
      ensures forall x, y | 0 <= x < size && 0 <= y < size :: rows[y][x] == modules[y, x]
    {
      seq(size, y requires 0 <= y < size reads modules => seq(size, x requires 0 <= x < size reads modules => modules[y, x]))
    }

    // The alignment patterns before (i, j) are drawn over the given state.
    ghost predicate AlignmentsDrawn(marked: set<Cell>, dark: set<Cell>, i: nat, j: nat)
      requires Valid()
      reads modules, isFunction
    {
      forall a, b | 0 <= a < size && 0 <= b < size ::
        && isFunction[b, a] == (Cell(a, b) in marked || AlignmentBefore(version, i, j, a, b))
        && modules[b, a] == if AlignmentBefore(version, i, j, a, b) then AlignmentColorBefore(version, i, j, a, b)
                            else Cell(a, b) in dark
    }

    method DrawAlignmentAt(pos: seq<int>, i: nat, j: nat, ghost marked: set<Cell>, ghost dark: set<Cell>)
      requires Valid() && |pos| == AlignmentCount(version) && i < |pos| && j < |pos|
      requires forall k: nat | k < |pos| :: pos[k] == AlignmentPosition(version, k)
      requires AlignmentsDrawn(marked, dark, i, j)
      modifies modules, isFunction
      ensures AlignmentsDrawn(marked, dark, i, j + 1)
    {
      hide AlignmentPosition;
      var corner := (i == 0 && j == 0) || (i == 0 && j == |pos| - 1) || (i == |pos| - 1 && j == 0);
      AlignmentRange(version, i);
      AlignmentRange(version, j);
      forall a, b | 0 <= a < size && 0 <= b < size
        ensures AlignmentBefore(version, i, j + 1, a, b) == (AlignmentBefore(version, i, j, a, b)
                  || (!corner && InAlignmentAt(version, i, j, a, b)))
        ensures AlignmentColorBefore(version, i, j + 1, a, b) ==
                if !corner && InAlignmentAt(version, i, j, a, b) then AlignmentColorAt(version, i, j, a, b)
                else AlignmentColorBefore(version, i, j, a, b)
      {
        AlignmentBeforeStep(version, i, j, a, b);
      }
      if !corner {
        var x, y := pos[i], pos[j];
        assert forall a, b :: InAlignmentAt(version, i, j, a, b) <==> Distance(a, b, x, y) <= 2;
        assert forall a, b :: AlignmentColorAt(version, i, j, a, b) <==> Distance(a, b, x, y) != 1;
        DrawAlignmentPattern(x, y);
      }
    }

    method DrawAlignmentPatterns()
      requires Valid()
      modifies modules, isFunction
      ensures forall a, b | 0 <= a < size && 0 <= b < size ::
                && isFunction[b, a] == (old(isFunction[b, a]) || InAlignment(version, a, b))
                && modules[b, a] == if InAlignment(version, a, b) then AlignmentColor(version, a, b)
                                    else old(modules[b, a])
    {
      hide AlignmentPosition, AlignmentBefore, AlignmentColorBefore, InAlignment, AlignmentColor;
      var pos := AlignmentPatternPositions(version);
      ghost var marked, dark := Marked(), Dark();
      AlignmentBeforeFirst(version);
      for i := 0 to |pos|
        invariant AlignmentsDrawn(marked, dark, i, 0)
      {
        for j := 0 to |pos|
          invariant AlignmentsDrawn(marked, dark, i, j)
        {
          DrawAlignmentAt(pos, i, j, marked, dark);
        }
        AlignmentBeforeRow(version, i);
      }
      AlignmentBeforeAll(version);
    }

    // Some part of the format information is drawn over the given state.
    ghost predicate FormatDrawn(marked: set<Cell>, dark: set<Cell>, word: bv32, p: FormatProgress)
      requires Valid()
      reads modules, isFunction
    {
      forall a, b | 0 <= a < size && 0 <= b < size ::
        && isFunction[b, a] == (Cell(a, b) in marked || FormatBefore(size, p, a, b))
        && modules[b, a] == if FormatBefore(size, p, a, b) then FormatColor(word, FormatMark(size, a, b))
                            else Cell(a, b) in dark
    }

    method DrawFormatColumn(bits: bv32, ghost marked: set<Cell>, ghost dark: set<Cell>)
      requires Valid() && FormatDrawn(marked, dark, bits, Progress(0, 0, 9, 0, 8))
      modifies modules, isFunction
      ensures FormatDrawn(marked, dark, bits, Progress(6, 0, 9, 0, 8))
    {
      hide GetBit;
      for i := 0 to 6
        invariant FormatDrawn(marked, dark, bits, Progress(i, 0, 9, 0, 8))
      {
        SetFunctionModule(8, i, GetBit(bits, i));
      }
    }

    method DrawFormatRow(bits: bv32, ghost marked: set<Cell>, ghost dark: set<Cell>)
      requires Valid() && FormatDrawn(marked, dark, bits, Progress(6, 0, 9, 0, 8))
      modifies modules, isFunction
      ensures FormatDrawn(marked, dark, bits, Progress(6, 3, 15, 0, 8))
    {
      hide GetBit;
      SetFunctionModule(8, 7, GetBit(bits, 6));
      SetFunctionModule(8, 8, GetBit(bits, 7));
      SetFunctionModule(7, 8, GetBit(bits, 8));
      for i := 9 to 15
        invariant FormatDrawn(marked, dark, bits, Progress(6, 3, i, 0, 8))
      {
        SetFunctionModule(14 - i, 8, GetBit(bits, i));
      }
    }

    method DrawSecondFormat(bits: bv32, ghost marked: set<Cell>, ghost dark: set<Cell>)
      requires Valid() && FormatDrawn(marked, dark, bits, Progress(6, 3, 15, 0, 8))
      modifies modules, isFunction
      ensures FormatDrawn(marked, dark, bits, Progress(6, 3, 15, 8, 15))
    {
      hide GetBit;
      for i := 0 to 8
        invariant FormatDrawn(marked, dark, bits, Progress(6, 3, 15, i, 8))
      {
        SetFunctionModule(size - 1 - i, 8, GetBit(bits, i));
      }
      for i := 8 to 15
        invariant FormatDrawn(marked, dark, bits, Progress(6, 3, 15, 8, i))
      {
        SetFunctionModule(8, size - 15 + i, GetBit(bits, i));
      }
    }

    method DrawFormatBits(mask: nat)
      requires Valid() && mask < 8
      modifies modules, isFunction
      ensures forall a, b | 0 <= a < size && 0 <= b < size ::
                && isFunction[b, a] == (old(isFunction[b, a]) || FormatMark(size, a, b) != NoMark)
                && modules[b, a] == if FormatMark(size, a, b) != NoMark
                                    then FormatColor(FormatWord(ecl, mask), FormatMark(size, a, b))
                                    else old(modules[b, a])
    {
      hide FormatWord, GetBit;
      var bits := ComputeFormatWord(ecl, mask);
      ghost var marked, dark := Marked(), Dark();
      DrawFormatColumn(bits, marked, dark);
      DrawFormatRow(bits, marked, dark);
      DrawSecondFormat(bits, marked, dark);
      SetFunctionModule(8, size - 8, true);
    }

    method DrawVersion()
      requires Valid()
      modifies modules, isFunction
      ensures forall a, b | 0 <= a < size && 0 <= b < size ::
                && isFunction[b, a] == (old(isFunction[b, a]) || VersionMark(version, a, b) != NoMark)
                && modules[b, a] == if VersionMark(version, a, b) != NoMark
                                    then FormatColor(VersionWord(version), VersionMark(version, a, b))
                                    else old(modules[b, a])
    {
      hide VersionWord, GetBit;
      if version < 7 {
        return;
      }
      var bits := ComputeVersionWord(version);
      for i := 0 to 18
        invariant forall a, b | 0 <= a < size && 0 <= b < size ::
                    var mark := VersionMark(version, a, b);
                    var drawn := mark.BitMark? && mark.bit < i;
                    && isFunction[b, a] == (old(isFunction[b, a]) || drawn)
                    && modules[b, a] == if drawn then FormatColor(bits, mark) else old(modules[b, a])
      {
        var color := GetBit(bits, i);
        var a := size - 11 + i % 3;
        var b := i / 3;
        assert VersionMark(version, a, b) == BitMark(i) && VersionMark(version, b, a) == BitMark(i);
        SetFunctionModule(a, b, color);
        SetFunctionModule(b, a, color);
      }
    }

    method DrawTimingPatterns()
      requires Valid()
      modifies modules, isFunction
      ensures forall a, b | 0 <= a < size && 0 <= b < size ::
                && isFunction[b, a] == (old(isFunction[b, a]) || InTiming(a, b))
                && modules[b, a] == if InTiming(a, b) then TimingColor(a, b) else old(modules[b, a])
    {
      for i := 0 to size
        invariant forall a, b | 0 <= a < size && 0 <= b < size ::
                    var drawn := (a == 6 && b < i) || (b == 6 && a < i);
                    && isFunction[b, a] == (old(isFunction[b, a]) || drawn)
                    && modules[b, a] == if drawn then TimingColor(a, b) else old(modules[b, a])
      {
        SetFunctionModule(6, i, i % 2 == 0);
        SetFunctionModule(i, 6, i % 2 == 0);
      }
    }

    method DrawFunctionPatterns()
      requires Valid()
      modifies modules, isFunction
      ensures forall a, b | 0 <= a < size && 0 <= b < size ::
                && isFunction[b, a] == (old(isFunction[b, a]) || IsFunction(version, a, b))
                && modules[b, a] == if IsFunction(version, a, b) then PatternColor(version, ecl, 0, a, b)
                                    else old(modules[b, a])
    {
      hide InAlignment, AlignmentColor, FormatMark, VersionMark, FormatColor, InFinder, FinderColor, TimingColor;
      DrawTimingPatterns();
      DrawFinderPattern(3, 3);
      DrawFinderPattern(size - 4, 3);
      DrawFinderPattern(3, size - 4);
      DrawAlignmentPatterns();
      DrawFormatBits(0);
      DrawVersion();
    }

    // The first n bits of data are in the modules free[0], free[1], ..; the others are as they were.
    ghost predicate CodewordsDrawn(free: seq<Cell>, data: seq<bv8>, n: nat, dark: set<Cell>)
      requires Valid()
      reads modules
    {
      && n <= |free| && n <= 8 * |data|
      && (forall k | 0 <= k < |free| :: InSymbol(version, free[k].x, free[k].y))
      && (forall k | 0 <= k < n :: modules[free[k].y, free[k].x] == CodewordBit(data, k))
      && (forall a, b | 0 <= a < size && 0 <= b < size && Cell(a, b) !in free[..n] ::
            modules[b, a] == (Cell(a, b) in dark))
    }

    // The codeword loop has visited the given modules and used i bits.
    ghost predicate CodewordState(data: seq<bv8>, dark: set<Cell>, visited: seq<Cell>, i: nat)
      requires Valid()
      reads modules, isFunction
    {
      && i == Min(|FreeOf(Marked(), visited)|, 8 * |data|)
      && CodewordsDrawn(FreeOf(Marked(), Path(size)), data, i, dark)
    }

    method DrawCodewordBit(data: seq<bv8>, x: int, y: int, i: nat, ghost dark: set<Cell>, ghost visited: seq<Cell>,
                           ghost rest: seq<Cell>)
      returns (i': nat)
      requires Valid() && InSymbol(version, x, y)
      requires CodewordState(data, dark, visited, i)
      requires Path(size) == visited + ([Cell(x, y)] + rest)
      modifies modules
      ensures CodewordState(data, dark, visited + [Cell(x, y)], i')
    {
      hide CodewordBit, Path, FreeOf;
      ghost var free := FreeOf(Marked(), Path(size));
      FreeCells(Marked(), size);
      PathStep(Marked(), size, visited, Cell(x, y), rest);
      i' := i;
      if !isFunction[y, x] && i < |data| * 8 {
        assert free[i] == Cell(x, y);
        assert free[..i + 1] == free[..i] + [Cell(x, y)];
        NotBefore(free, i);
        modules[y, x] := GetDataBit(data, i);
        i' := i + 1;
      }
    }

    method DrawColumnPair(data: seq<bv8>, right: int, i: nat, ghost dark: set<Cell>, ghost visited: seq<Cell>)
      returns (i': nat)
      requires Valid() && 1 <= right < size && CodewordState(data, dark, visited, i)
      requires Path(size) == visited + PathFrom(size, right)
      modifies modules
      ensures CodewordState(data, dark, visited + PairFrom(size, right, 0, 0), i')
    {
      hide Path, PathFrom, PairFrom, FreeOf, Upward, CodewordState;
      ghost var next := PathFrom(size, NextRight(right));
      ghost var v := visited;
      PathUnfolds(size, right);
      i' := i;
      for vert := 0 to size
        invariant visited + PairFrom(size, right, 0, 0) == v + PairFrom(size, right, vert, 0)
        invariant CodewordState(data, dark, v, i')
      {
        for j := 0 to 2
          invariant visited + PairFrom(size, right, 0, 0) == v + PairFrom(size, right, vert, j)
          invariant CodewordState(data, dark, v, i')
        {
          var x := right - j;
          var upward := Upward(right);
          var y := if upward then size - 1 - vert else vert;
          PairUnfolds(size, right, vert, j);
          ghost var left := PairFrom(size, right, vert, j + 1);
          Regroup(visited, PairFrom(size, right, 0, 0), next, v, Cell(x, y), left);
          i' := DrawCodewordBit(data, x, y, i', dark, v, left + next);
          v := v + [Cell(x, y)];
        }
        PairUnfolds(size, right, vert, 0);
      }
      PairEnds(size, right);
      assert visited + PairFrom(size, right, 0, 0) == v + [];
      assert v + [] == v;
    }

    method DrawCodewords(data: seq<bv8>)
      requires Valid()
      modifies modules
      ensures var free := FreeOf(Marked(), Path(size));
        CodewordsDrawn(free, data, Min(|free|, 8 * |data|), old(Dark()))
    {
      hide CodewordBit, Path, PathFrom, PairFrom, FreeOf, Upward;
      ghost var dark := Dark();
      FreeCells(Marked(), size);
      PathUnfolds(size, size - 1);
      var i := 0;
      ghost var visited: seq<Cell> := [];
      var right := size - 1;
      while right >= 1
        invariant right % 2 == if right >= 6 then 0 else 1
        invariant right <= size - 1
        invariant Path(size) == visited + PathFrom(size, Normal(right))
        invariant CodewordState(data, dark, visited, i)
      {
        if right == 6 {
          right := 5;
        }
        i := DrawColumnPair(data, right, i, dark, visited);
        PathUnfolds(size, right);
        visited := visited + PairFrom(size, right, 0, 0);
        right := right - 2;
      }
      PathUnfolds(size, right);
      assert visited + [] == visited;
      assert Path(size) == visited;
    }
  }

  // ---------- The codeword loop ----------

  // getBit(data[i >>> 3], 7 - (i & 7))
  function GetDataBit(data: seq<bv8>, i: nat): (bit: bool)
    requires i < 8 * |data|
    ensures bit == CodewordBit(data, i)
  {
    Bit(data[i / 8], 7 - i % 8)
  }

  lemma NotBefore(free: seq<Cell>, i: nat)
    requires Distinct(free) && i < |free|
    ensures forall k | 0 <= k < i :: free[k] != free[i]
    ensures free[i] !in free[..i]
  {}

  lemma Regroup<T>(visited: seq<T>, pair: seq<T>, next: seq<T>, v: seq<T>, c: T, left: seq<T>)
    requires visited + pair == v + ([c] + left)
    ensures visited + (pair + next) == v + ([c] + (left + next))
    ensures visited + pair == (v + [c]) + left
  {
    assert visited + (pair + next) == (visited + pair) + next;
  }

  lemma PairEnds(size: nat, right: int)
    ensures PairFrom(size, right, size, 0) == []
  {}

  function Normal(right: int): int { if right == 6 then 5 else right }

  lemma PathUnfolds(size: nat, right: int)
    ensures Path(size) == PathFrom(size, size - 1)
    ensures right >= 1 ==> PathFrom(size, right) == PairFrom(size, right, 0, 0) + PathFrom(size, NextRight(right))
    ensures right < 1 ==> PathFrom(size, right) == []
  {}

  lemma PairUnfolds(size: nat, right: int, vert: nat, j: nat)
    requires vert < size && j < 2
    ensures PairFrom(size, right, vert, j) == [CellAt(size, right, vert, j)] + PairFrom(size, right, vert, j + 1)
    ensures PairFrom(size, right, vert, 2) == PairFrom(size, right, vert + 1, 0)
    ensures PairFrom(size, right, size, 0) == []
  {}

  lemma FreeCells(marked: set<Cell>, size: nat)
    requires size >= 9 && size % 2 == 1
    ensures forall c :: c in FreeOf(marked, Path(size)) ==> 0 <= c.x < size && 0 <= c.y < size
    ensures Distinct(FreeOf(marked, Path(size)))
    ensures FreeOf(marked, []) == []
  {
    hide Path;
    PathCovers(size);
    FreeDistinct(marked, Path(size));
    FreeMembers(marked, Path(size));
  }

  lemma {:induction false} FreeConcat(marked: set<Cell>, s: seq<Cell>, t: seq<Cell>)
    ensures FreeOf(marked, s + t) == FreeOf(marked, s) + FreeOf(marked, t)
  {
    if t == [] {
      assert s + t == s;
    } else {
      var n := |t| - 1;
      FreeConcat(marked, s, t[..n]);
      hide FreeOf;
      var u, c := t[..n], t[n];
      assert u + [c] == t;
      assert s + (u + [c]) == (s + u) + [c];
      FreeSnoc(marked, s + u, c);
      FreeSnoc(marked, u, c);
      var last := if c in marked then [] else [c];
      calc {
        FreeOf(marked, s + t);
        FreeOf(marked, s + u) + last;
        (FreeOf(marked, s) + FreeOf(marked, u)) + last;
        FreeOf(marked, s) + (FreeOf(marked, u) + last);
      }
    }
  }

  lemma FreeSnoc(marked: set<Cell>, s: seq<Cell>, c: Cell)
    ensures FreeOf(marked, s + [c]) == FreeOf(marked, s) + if c in marked then [] else [c]
  {
    assert (s + [c])[..|s|] == s;
  }

  // Visiting c either leaves the free modules visited as they are, or adds the next one.
  lemma PathStep(marked: set<Cell>, size: nat, visited: seq<Cell>, c: Cell, rest: seq<Cell>)
    requires Path(size) == visited + ([c] + rest)
    ensures Path(size) == (visited + [c]) + rest
    ensures FreeOf(marked, visited + [c]) == FreeOf(marked, visited) + if c in marked then [] else [c]
    ensures FreeOf(marked, visited + [c]) <= FreeOf(marked, Path(size))
  {
    hide Path, FreeOf;
    assert visited + ([c] + rest) == (visited + [c]) + rest;
    FreeConcat(marked, visited + [c], rest);
    FreeConcat(marked, visited, [c]);
    FreeSingle(marked, c);
  }

  lemma FreeSingle(marked: set<Cell>, c: Cell)
    ensures FreeOf(marked, [c]) == if c in marked then [] else [c]
  {}

  // ---------- The format information loops ----------

  // How far each of the five parts is drawn: the upper left column, the three modules of the corner,
  // the upper left row, and the two halves of the second copy.
  datatype FormatProgress = Progress(column: nat, corner: nat, row: nat, right: nat, bottom: nat)

  ghost predicate FormatBefore(size: int, p: FormatProgress, x: int, y: int) {
    || (x == 8 && 0 <= y < p.column)
    || (x == 8 && y == 7 && p.corner > 0)
    || (x == 8 && y == 8 && p.corner > 1)
    || (x == 7 && y == 8 && p.corner > 2)
    || (y == 8 && 14 - p.row < x <= 5)
    || (y == 8 && size - 1 - p.right < x < size)
    || (x == 8 && size - 7 <= y < size - 15 + p.bottom)
  }

  method ComputeFormatWord(ecl: nat, mask: nat) returns (bits: bv32)
    requires ecl < 4 && mask < 8
    ensures bits == FormatWord(ecl, mask)
  {
    hide FormatData, FormatStep, FormatBits;
    var data := FormatData(ecl, mask);
    var rem := data;
    for i := 0 to 10
      invariant rem == FormatRemainder(data, i)
    {
      rem := FormatStep(rem);
    }
    bits := FormatBits(data, rem);
  }

  method ComputeVersionWord(version: nat) returns (bits: bv32)
    requires version <= 40
    ensures bits == VersionWord(version)
  {
    hide VersionStep, VersionBits;
    var rem := version as bv32;
    for i := 0 to 12
      invariant rem == VersionRemainder(version as bv32, i)
    {
      rem := VersionStep(rem);
    }
    bits := VersionBits(version as bv32, rem);
  }

  // ---------- The alignment loop ----------

  // The patterns drawn before pattern (i, j), row by row.
  ghost predicate Precedes(i': nat, j': nat, i: nat, j: nat) { i' < i || (i' == i && j' < j) }

  ghost predicate AlignmentBefore(version: nat, i: nat, j: nat, x: int, y: int)
    requires version >= 1
  {
    exists k: nat, l: nat ::
      HasAlignment(version, k, l) && Precedes(k, l, i, j) && InAlignmentAt(version, k, l, x, y)
  }

  ghost predicate AlignmentColorBefore(version: nat, i: nat, j: nat, x: int, y: int)
    requires version >= 1
  {
    exists k: nat, l: nat ::
      && HasAlignment(version, k, l) && Precedes(k, l, i, j)
      && InAlignmentAt(version, k, l, x, y) && AlignmentColorAt(version, k, l, x, y)
  }

  lemma AlignmentBeforeFirst(version: nat)
    requires version >= 1
    ensures forall x, y :: !AlignmentBefore(version, 0, 0, x, y)
  {}

  lemma AlignmentBeforeStep(version: nat, i: nat, j: nat, x: int, y: int)
    requires 1 <= version <= 40 && i < AlignmentCount(version) && j < AlignmentCount(version)
    ensures AlignmentBefore(version, i, j + 1, x, y) <==>
            AlignmentBefore(version, i, j, x, y) || (HasAlignment(version, i, j) && InAlignmentAt(version, i, j, x, y))
    ensures AlignmentColorBefore(version, i, j + 1, x, y) <==>
            if HasAlignment(version, i, j) && InAlignmentAt(version, i, j, x, y) then AlignmentColorAt(version, i, j, x, y)
            else AlignmentColorBefore(version, i, j, x, y)
  {
    var here := HasAlignment(version, i, j) && InAlignmentAt(version, i, j, x, y);
    if here {
      forall k: nat, l: nat | HasAlignment(version, k, l) && InAlignmentAt(version, k, l, x, y)
        ensures k == i && l == j
      {
        AlignmentsDisjoint(version, k, l, i, j, x, y);
      }
    }
    hide InAlignmentAt, AlignmentColorAt, HasAlignment;
    if here {
      assert Precedes(i, j, i, j + 1);
    }
  }

  lemma AlignmentBeforeRow(version: nat, i: nat)
    requires version >= 1
    ensures forall x, y :: AlignmentBefore(version, i + 1, 0, x, y)
                           <==> AlignmentBefore(version, i, AlignmentCount(version), x, y)
    ensures forall x, y :: AlignmentColorBefore(version, i + 1, 0, x, y)
                           <==> AlignmentColorBefore(version, i, AlignmentCount(version), x, y)
  {
    hide InAlignmentAt, AlignmentColorAt;
  }

  lemma AlignmentBeforeAll(version: nat)
    requires version >= 1
    ensures forall x, y :: AlignmentBefore(version, AlignmentCount(version), 0, x, y) <==> InAlignment(version, x, y)
    ensures forall x, y :: AlignmentColorBefore(version, AlignmentCount(version), 0, x, y)
                           <==> AlignmentColor(version, x, y)
  {
    hide InAlignmentAt, AlignmentColorAt;
  }

  // The centre coordinates of the alignment patterns, the last one found first.
  method AlignmentPatternPositions(version: nat) returns (result: seq<int>)
    requires 1 <= version <= 40
    ensures |result| == AlignmentCount(version)
    ensures forall i: nat | i < |result| :: result[i] == AlignmentPosition(version, i)
  {
    if version == 1 {
      return [];
    }
    var numAlign := version / 7 + 2;
    var step := if version == 32 then 26 else CeilDiv(version * 4 + 17 - 13, numAlign * 2 - 2) * 2;
    result := [6];
    var pos := version * 4 + 10;
    while |result| < numAlign
      invariant 1 <= |result| <= numAlign && result[0] == 6
      invariant pos == version * 4 + 10 - (|result| - 1) * step
      invariant forall i: nat | 1 <= i < |result| ::
                  result[i] == AlignmentPosition(version, numAlign - |result| + i)
    {
      assert (|result| - 1) * step + step == |result| * step;
      result := result[..1] + [pos] + result[1..];
      pos := pos - step;
    }
  }
}
