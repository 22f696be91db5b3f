/** Which modules of a symbol are function patterns (ISO/IEC 18004:2015, section 6.3). */
module SymbolGeometry {
  import opened QrTables

  datatype Cell = Cell(x: int, y: int)

  // Modules by row; true is dark.
  type Grid = seq<seq<bool>>

  ghost predicate Square(rows: Grid, size: nat) {
    |rows| == size && forall y | 0 <= y < size :: |rows[y]| == size
  }

  function Abs(a: int): nat { if a < 0 then -a else a }

  // The larger of the two coordinate differences.
  function Distance(x: int, y: int, cx: int, cy: int): nat {
    if Abs(x - cx) > Abs(y - cy) then Abs(x - cx) else Abs(y - cy)
  }

  // ---------- Finder and timing patterns ----------

  // The finder pattern centred at (cx, cy), with its light separator.
  predicate InFinder(x: int, y: int, cx: int, cy: int) { Distance(x, y, cx, cy) <= 4 }

  predicate FinderColor(x: int, y: int, cx: int, cy: int) {
    Distance(x, y, cx, cy) != 2 && Distance(x, y, cx, cy) != 4
  }

  predicate InFinders(size: int, x: int, y: int) {
    InFinder(x, y, 3, 3) || InFinder(x, y, size - 4, 3) || InFinder(x, y, 3, size - 4)
  }

  predicate FindersColor(size: int, x: int, y: int) {
    if InFinder(x, y, 3, size - 4) then FinderColor(x, y, 3, size - 4)
    else if InFinder(x, y, size - 4, 3) then FinderColor(x, y, size - 4, 3)
    else FinderColor(x, y, 3, 3)
  }

  predicate InTiming(x: int, y: int) { x == 6 || y == 6 }

  predicate TimingColor(x: int, y: int) { (x + y) % 2 == 0 }

  // ---------- Alignment patterns ----------

  function AlignmentCount(version: nat): nat { if version == 1 then 0 else version / 7 + 2 }

  function AlignmentStep(version: nat): nat
    requires version >= 1
  {
    if version == 32 then 26
    else
      var numAlign := version / 7 + 2;
      CeilDiv(version * 4 + 17 - 13, numAlign * 2 - 2) * 2
  }

  function CeilDiv(a: nat, b: nat): nat
    requires b >= 1
  {
    (a + b - 1) / b
  }

  // The i-th centre coordinate, in increasing order.
  function AlignmentPosition(version: nat, i: nat): int
    requires version >= 1
  {
    if i == 0 then 6
    else version * 4 + 10 - (AlignmentCount(version) - 1 - i) * AlignmentStep(version)
  }

  // The three corners taken by finder patterns carry no alignment pattern.
  predicate IsCorner(n: int, i: int, j: int) {
    (i == 0 && j == 0) || (i == 0 && j == n - 1) || (i == n - 1 && j == 0)
  }

  predicate InAlignmentAt(version: nat, i: nat, j: nat, x: int, y: int)
    requires version >= 1
  {
    Distance(x, y, AlignmentPosition(version, i), AlignmentPosition(version, j)) <= 2
  }

  predicate AlignmentColorAt(version: nat, i: nat, j: nat, x: int, y: int)
    requires version >= 1
  {
    Distance(x, y, AlignmentPosition(version, i), AlignmentPosition(version, j)) != 1
  }

  predicate HasAlignment(version: nat, i: nat, j: nat) {
    i < AlignmentCount(version) && j < AlignmentCount(version) && !IsCorner(AlignmentCount(version), i, j)
  }

  predicate InAlignment(version: nat, x: int, y: int)
    requires version >= 1
  {
    exists i: nat, j: nat | i < AlignmentCount(version) && j < AlignmentCount(version) ::
      HasAlignment(version, i, j) && InAlignmentAt(version, i, j, x, y)
  }

  predicate AlignmentColor(version: nat, x: int, y: int)
    requires version >= 1
  {
    exists i: nat, j: nat | i < AlignmentCount(version) && j < AlignmentCount(version) ::
      HasAlignment(version, i, j) && InAlignmentAt(version, i, j, x, y) && AlignmentColorAt(version, i, j, x, y)
  }

  // ---------- Format and version information ----------

  datatype Mark = NoMark | BitMark(bit: nat) | DarkMark

  // Which bit of the format information a module carries: two copies of 15 bits, and the dark module.
  function FormatMark(size: int, x: int, y: int): Mark {
    if x == 8 && 0 <= y <= 5 then BitMark(y)
    else if x == 8 && y == 7 then BitMark(6)
    else if x == 8 && y == 8 then BitMark(7)
    else if x == 7 && y == 8 then BitMark(8)
    else if y == 8 && 0 <= x <= 5 then BitMark(14 - x)
    else if y == 8 && size - 8 <= x < size then BitMark(size - 1 - x)
    else if x == 8 && size - 7 <= y < size then BitMark(y - (size - 15))
    else if x == 8 && y == size - 8 then DarkMark
    else NoMark
  }

  // Which of the 18 bits of the version information a module carries.
  function VersionMark(version: nat, x: int, y: int): Mark {
    var a := Size(version) - 11;
    if version < 7 then NoMark
    else if a <= x <= a + 2 && 0 <= y <= 5 then BitMark(3 * y + (x - a))
    else if a <= y <= a + 2 && 0 <= x <= 5 then BitMark(3 * x + (y - a))
    else NoMark
  }

  // ---------- All function patterns ----------

  predicate InSymbol(version: nat, x: int, y: int) {
    0 <= x < Size(version) && 0 <= y < Size(version)
  }

  predicate IsFunction(version: nat, x: int, y: int)
    requires version >= 1
  {
    || InTiming(x, y)
    || InFinders(Size(version), x, y)
    || InAlignment(version, x, y)
    || FormatMark(Size(version), x, y) != NoMark
    || VersionMark(version, x, y) != NoMark
  }

  // ---------- Facts about the alignment grid ----------

  lemma AlignmentSteps(version: nat)
    requires 2 <= version <= 40
    ensures 12 <= AlignmentStep(version)
    ensures 18 <= version * 4 + 10 - (AlignmentCount(version) - 2) * AlignmentStep(version)
  {
    match version / 7
    case 0 => case 1 => case 2 => case 3 => case 4 => case 5 =>
  }

  // Consecutive centres are at least 12 apart, and the last is 7 short of the edge.
  lemma AlignmentGap(version: nat, i: nat)
    requires 1 <= version <= 40 && i + 1 < AlignmentCount(version)
    ensures AlignmentPosition(version, i + 1) >= AlignmentPosition(version, i) + 12
    ensures AlignmentPosition(version, AlignmentCount(version) - 1) == Size(version) - 7
  {
    hide AlignmentStep;
    AlignmentSteps(version);
    var s := AlignmentStep(version);
    var k := AlignmentCount(version) - 1 - i;
    assert k * s == (k - 1) * s + s;
  }

  lemma {:induction false} AlignmentOrder(version: nat, i: nat, j: nat)
    requires 1 <= version <= 40 && i < j < AlignmentCount(version)
    ensures AlignmentPosition(version, i) + 12 <= AlignmentPosition(version, j)
    decreases j
  {
    hide AlignmentPosition;
    AlignmentGap(version, j - 1);
    if i < j - 1 {
      AlignmentOrder(version, i, j - 1);
    }
  }

  lemma AlignmentRange(version: nat, i: nat)
    requires 1 <= version <= 40 && i < AlignmentCount(version)
    ensures 6 <= AlignmentPosition(version, i) <= Size(version) - 7
    ensures i > 0 ==> 18 <= AlignmentPosition(version, i)
    ensures i < AlignmentCount(version) - 1 ==> AlignmentPosition(version, i) <= Size(version) - 19
  {
    hide AlignmentStep;
    var n := AlignmentCount(version);
    AlignmentGap(version, 0);
    if i > 0 {
      AlignmentOrder(version, 0, i);
    }
    if i < n - 1 {
      AlignmentOrder(version, i, n - 1);
    }
  }

  // No module belongs to two alignment patterns.
  lemma AlignmentsDisjoint(version: nat, i: nat, j: nat, i': nat, j': nat, x: int, y: int)
    requires 1 <= version <= 40
    requires i < AlignmentCount(version) && j < AlignmentCount(version)
    requires i' < AlignmentCount(version) && j' < AlignmentCount(version)
    requires InAlignmentAt(version, i, j, x, y) && InAlignmentAt(version, i', j', x, y)
    ensures i == i' && j == j'
  {
    hide AlignmentPosition;
    if i < i' {
      AlignmentOrder(version, i, i');
    } else if i' < i {
      AlignmentOrder(version, i', i);
    }
    if j < j' {
      AlignmentOrder(version, j, j');
    } else if j' < j {
      AlignmentOrder(version, j', j);
    }
  }
}
