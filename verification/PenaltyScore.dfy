/** The penalty score of a symbol (ISO/IEC 18004:2015, section 7.8.3). */
module PenaltyScore {
  import opened PenaltyRuns
  import opened QrSymbol
  import opened SymbolGeometry

  // ---------- The definition ----------

  ghost function LinesTerm(lines: Grid): nat {
    if lines == [] then 0 else LinesTerm(lines[..|lines| - 1]) + LinePenalty(lines[|lines| - 1])
  }

  ghost function Column(rows: Grid, size: nat, x: nat): (column: seq<bool>)
    requires Square(rows, size) && x < size
    ensures |column| == size
  {
    seq(size, y requires 0 <= y < size => rows[y][x])
  }

  ghost function Transpose(rows: Grid, size: nat): (columns: Grid)
    requires Square(rows, size)
    ensures Square(columns, size)
  {
    seq(size, x requires 0 <= x < size => Column(rows, size, x))
  }

  ghost predicate Uniform(rows: Grid, size: nat, x: int, y: int)
    requires Square(rows, size) && 0 <= x < size - 1 && 0 <= y < size - 1
  {
    rows[y][x] == rows[y][x + 1] == rows[y + 1][x] == rows[y + 1][x + 1]
  }

  // The 2 x 2 squares of one colour, by their upper left modules, in reading order before (x', y').
  ghost function Blocks(rows: Grid, size: nat, x': int, y': int): set<Cell>
    requires Square(rows, size)
  {
    set x, y | 0 <= x < size - 1 && 0 <= y < size - 1 && (y < y' || (y == y' && x < x')) && Uniform(rows, size, x, y)
      :: Cell(x, y)
  }

  // The dark modules, in reading order before (x', y').
  ghost function DarkCells(rows: Grid, size: nat, x': int, y': int): set<Cell>
    requires Square(rows, size)
  {
    set x, y | 0 <= x < size && 0 <= y < size && (y < y' || (y == y' && x < x')) && rows[y][x] :: Cell(x, y)
  }

  function BalanceTerm(dark: nat, total: nat): int
    requires total >= 1
  {
    (CeilDiv(Abs(dark * 20 - total * 10), total) - 1) * 10
  }

  ghost function Penalty(rows: Grid, size: nat): int
    requires size >= 1 && Square(rows, size)
  {
    LinesTerm(rows) + LinesTerm(Transpose(rows, size)) + 3 * |Blocks(rows, size, 0, size - 1)|
    + BalanceTerm(|DarkCells(rows, size, 0, size)|, size * size)
  }

  // ---------- The balance term ----------

  // The share of dark modules lies within 5(k + 1) per cent of one half.
  predicate Balanced(dark: nat, total: nat, k: int) {
    total * (45 - 5 * k) <= 100 * dark <= total * (55 + 5 * k)
  }

  // An odd number of modules never splits evenly, so the term is 10k for the least k >= 0 that fits.
  lemma BalanceIsLeast(dark: nat, total: nat)
    requires total % 2 == 1
    ensures BalanceTerm(dark, total) >= 0 && BalanceTerm(dark, total) % 10 == 0
    ensures forall k: int :: Balanced(dark, total, k) <==> 10 * k >= BalanceTerm(dark, total)
  {
    var off := Abs(dark * 20 - total * 10);
    assert off != 0;
    var q := CeilDiv(off, total);
    CeilBounds(off, total);
    forall k: int
      ensures Balanced(dark, total, k) <==> k >= q - 1
    {
      assert total * (45 - 5 * k) == 50 * total - 5 * (total * (k + 1));
      assert total * (55 + 5 * k) == 50 * total + 5 * (total * (k + 1));
      assert Balanced(dark, total, k) <==> off <= total * (k + 1);
      Ceil(off, total, k + 1);
    }
  }

  lemma CeilBounds(a: nat, b: nat)
    requires b >= 1 && a >= 1
    ensures CeilDiv(a, b) >= 1
  {
    Ceil(a, b, 0);
  }

  lemma Ceil(a: nat, b: nat, k: int)
    requires b >= 1
    ensures a <= b * k <==> CeilDiv(a, b) <= k
  {
    var q := CeilDiv(a, b);
    var r := (a + b - 1) % b;
    assert a + b - 1 == b * q + r;
    if q <= k {
      assert b * (k - q) >= 0;
    } else {
      assert b * (q - 1 - k) >= 0;
    }
  }

  lemma OddSquare(n: int)
    requires n % 2 == 1
    ensures n * n % 2 == 1
  {
    var h := n / 2;
    assert n * n == 2 * (2 * h * h + 2 * h) + 1;
  }

  // ---------- The loops ----------

  method RowPenalty(qr: QrCode, y: nat) returns (result: nat)
    requires qr.Valid() && y < qr.size
    ensures result == LinePenalty(qr.Rows()[y])
  {
    hide AddHistory, CountPatterns, Scanned, Open, Runs, Maximal;
    var size := qr.size;
    ghost var line := qr.Rows()[y];
    var runColor, runLen, runHistory: History := false, 0, [0, 0, 0, 0, 0, 0, 0];
    result := 0;
    ScannedNothing(size);
    for x := 0 to size
      invariant Scanned(line[..x], size, runColor, runLen, runHistory, result)
    {
      assert line[..x + 1] == line[..x] + [line[x]];
      if qr.modules[y, x] == runColor {
        ScanSame(line[..x], size, runColor, runLen, runHistory, result);
        runLen := runLen + 1;
        if runLen == 5 {
          result := result + 3;
        } else if runLen > 5 {
          result := result + 1;
        }
      } else {
        ScanOther(line[..x], size, runColor, runLen, runHistory, result);
        runHistory := AddHistory(runLen, runHistory, size);
        if !runColor {
          result := result + CountPatterns(runHistory) * 40;
        }
        runColor := qr.modules[y, x];
        runLen := 1;
      }
    }
    assert line[..size] == line;
    ScanEnds(line, runColor, runLen, runHistory, result);
    var count := TerminateAndCount(runColor, runLen, runHistory, size, Runs(line));
    result := result + count * 40;
  }

  method ColumnPenalty(qr: QrCode, x: nat) returns (result: nat)
    requires qr.Valid() && x < qr.size
    ensures result == LinePenalty(Column(qr.Rows(), qr.size, x))
  {
    hide AddHistory, CountPatterns, Scanned, Open, Runs, Maximal;
    var size := qr.size;
    ghost var line := Column(qr.Rows(), size, x);
    var runColor, runLen, runHistory: History := false, 0, [0, 0, 0, 0, 0, 0, 0];
    result := 0;
    ScannedNothing(size);
    for y := 0 to size
      invariant Scanned(line[..y], size, runColor, runLen, runHistory, result)
    {
      assert line[..y + 1] == line[..y] + [line[y]];
      if qr.modules[y, x] == runColor {
        ScanSame(line[..y], size, runColor, runLen, runHistory, result);
        runLen := runLen + 1;
        if runLen == 5 {
          result := result + 3;
        } else if runLen > 5 {
          result := result + 1;
        }
      } else {
        ScanOther(line[..y], size, runColor, runLen, runHistory, result);
        runHistory := AddHistory(runLen, runHistory, size);
        if !runColor {
          result := result + CountPatterns(runHistory) * 40;
        }
        runColor := qr.modules[y, x];
        runLen := 1;
      }
    }
    assert line[..size] == line;
    ScanEnds(line, runColor, runLen, runHistory, result);
    var count := TerminateAndCount(runColor, runLen, runHistory, size, Runs(line));
    result := result + count * 40;
  }

  // What is left of a line's penalty when its last module has been seen.
  lemma ScanEnds(line: seq<bool>, color: bool, length: nat, history: History, result: int)
    requires Scanned(line, |line|, color, length, history, result)
    ensures Open(Runs(line), |line|, color, length, history)
    ensures var closed := Lead(Runs(line)[..|Runs(line)| - 1], |line|);
      LinePenalty(line) == result - 40 * FinderTerm(closed) + 40 * FinderTerm(Bordered(Runs(line), |line|))
  {
    hide Runs, FinderTerm, Bordered, Lead;
  }

  method BlockPenalty(qr: QrCode) returns (result: nat)
    requires qr.Valid()
    ensures result == 3 * |Blocks(qr.Rows(), qr.size, 0, qr.size - 1)|
  {
    hide Blocks;
    var size := qr.size;
    ghost var rows := qr.Rows();
    result := 0;
    BlocksFirst(rows, size);
    for y := 0 to size - 1
      invariant result == 3 * |Blocks(rows, size, 0, y)|
    {
      for x := 0 to size - 1
        invariant result == 3 * |Blocks(rows, size, x, y)|
      {
        var c := qr.modules[y, x];
        BlocksNext(rows, size, x, y);
        if c == qr.modules[y, x + 1] && c == qr.modules[y + 1, x] && c == qr.modules[y + 1, x + 1] {
          result := result + 3;
        }
      }
      BlocksRow(rows, size, y);
    }
  }

  lemma BlocksFirst(rows: Grid, size: nat)
    requires Square(rows, size)
    ensures Blocks(rows, size, 0, 0) == {}
  {}

  lemma BlocksRow(rows: Grid, size: nat, y: int)
    requires Square(rows, size)
    ensures Blocks(rows, size, 0, y + 1) == Blocks(rows, size, size - 1, y)
  {}

  lemma BlocksNext(rows: Grid, size: nat, x: int, y: int)
    requires Square(rows, size) && 0 <= x < size - 1 && 0 <= y < size - 1
    ensures |Blocks(rows, size, x + 1, y)| == |Blocks(rows, size, x, y)| + if Uniform(rows, size, x, y) then 1 else 0
  {
    assert Blocks(rows, size, x + 1, y)
        == Blocks(rows, size, x, y) + if Uniform(rows, size, x, y) then {Cell(x, y)} else {};
  }

  method CountDark(qr: QrCode) returns (dark: nat)
    requires qr.Valid()
    ensures dark == |DarkCells(qr.Rows(), qr.size, 0, qr.size)|
  {
    var size := qr.size;
    ghost var rows := qr.Rows();
    dark := 0;
    assert DarkCells(rows, size, 0, 0) == {};
    for y := 0 to size
      invariant dark == |DarkCells(rows, size, 0, y)|
    {
      for x := 0 to size
        invariant dark == |DarkCells(rows, size, x, y)|
      {
        DarkNext(rows, size, x, y);
        if qr.modules[y, x] {
          dark := dark + 1;
        }
      }
      assert DarkCells(rows, size, 0, y + 1) == DarkCells(rows, size, size, y);
    }
  }

  lemma DarkNext(rows: Grid, size: nat, x: int, y: int)
    requires Square(rows, size) && 0 <= x < size && 0 <= y < size
    ensures |DarkCells(rows, size, x + 1, y)| == |DarkCells(rows, size, x, y)| + if rows[y][x] then 1 else 0
  {
    assert DarkCells(rows, size, x + 1, y)
        == DarkCells(rows, size, x, y) + if rows[y][x] then {Cell(x, y)} else {};
  }

  method LinesPenalty(qr: QrCode) returns (result: nat)
    requires qr.Valid()
    ensures result == LinesTerm(qr.Rows()) + LinesTerm(Transpose(qr.Rows(), qr.size))
  {
    hide LinePenalty, Column, LinesTerm;
    var size := qr.size;
    ghost var rows := qr.Rows();
    ghost var columns := Transpose(rows, size);
    LinesNothing();
    result := 0;
    for y := 0 to size
      invariant result == LinesTerm(rows[..y])
    {
      var line := RowPenalty(qr, y);
      LinesNext(rows, y);
      result := result + line;
    }
    assert rows[..size] == rows && columns[..size] == columns;
    for x := 0 to size
      invariant result == LinesTerm(rows) + LinesTerm(columns[..x])
    {
      var line := ColumnPenalty(qr, x);
      LinesNext(columns, x);
      result := result + line;
    }
  }

  method GetPenaltyScore(qr: QrCode) returns (result: int)
    requires qr.Valid()
    ensures result == Penalty(qr.Rows(), qr.size) && result >= 0
  {
    hide LinesTerm, Transpose, Blocks, DarkCells;
    var size := qr.size;
    var lines := LinesPenalty(qr);
    var blocks := BlockPenalty(qr);
    var dark := CountDark(qr);
    var total: int := size * size;
    OddSquare(size);
    BalanceIsLeast(dark, total);
    var excess: int := dark * 20 - total * 10;
    result := lines + blocks + (CeilDiv(Abs(excess), total) - 1) * 10;
  }

  lemma LinesNothing()
    ensures LinesTerm([]) == 0
  {}

  lemma LinesNext(lines: Grid, i: nat)
    requires i < |lines|
    ensures LinesTerm(lines[..i + 1]) == LinesTerm(lines[..i]) + LinePenalty(lines[i])
  {
    assert lines[..i + 1][..i] == lines[..i];
  }
}
