/**
 The order in which codewords fill a symbol (ISO/IEC 18004:2015, section 7.7): two columns at a time
 from the right edge, alternately upward and downward, stepping over column 6.
 */
module Zigzag {
  import opened SymbolGeometry

  // The pair of columns after the one whose right column is given; column 6 is skipped.
  function NextRight(right: int): int { if right - 2 == 6 then 5 else right - 2 }

  predicate Upward(right: int) { (right + 1) / 2 % 2 == 0 }

  // The module visited at step (vert, j) of the column pair.
  function CellAt(size: int, right: int, vert: int, j: int): Cell {
    Cell(right - j, if Upward(right) then size - 1 - vert else vert)
  }

  // The modules still to visit in a column pair.
  function PairFrom(size: int, right: int, vert: int, j: int): (path: seq<Cell>)
    requires 0 <= vert <= size && 0 <= j <= 2
    decreases size - vert, 2 - j
  {
    if vert == size then []
    else if j == 2 then PairFrom(size, right, vert + 1, 0)
    else [CellAt(size, right, vert, j)] + PairFrom(size, right, vert, j + 1)
  }

  // The modules still to visit from a column pair on.
  function PathFrom(size: int, right: int): (path: seq<Cell>)
    requires size >= 0
    decreases right
  {
    if right < 1 then [] else PairFrom(size, right, 0, 0) + PathFrom(size, NextRight(right))
  }

  function Path(size: int): seq<Cell>
    requires size >= 0
  {
    PathFrom(size, size - 1)
  }

  ghost predicate Distinct<T>(s: seq<T>) {
    forall i, j :: 0 <= i < j < |s| ==> s[i] != s[j]
  }

  // The right column of a pair: even down to 8, odd from 5 on.
  predicate IsRight(right: int) {
    if right >= 7 then right % 2 == 0 else right % 2 == 1
  }

  // The step of a column pair at which a module is visited, counted in rows.
  function StepOf(size: int, right: int, y: int): int { if Upward(right) then size - 1 - y else y }

  ghost predicate InPairFrom(size: int, right: int, vert: int, j: int, c: Cell) {
    && right - 1 <= c.x <= right
    && vert <= StepOf(size, right, c.y) < size
    && (StepOf(size, right, c.y) == vert ==> j <= right - c.x)
  }

  lemma DistinctCons<T>(a: T, s: seq<T>)
    requires Distinct(s) && a !in s
    ensures Distinct([a] + s)
  {}

  lemma DistinctConcat<T>(s: seq<T>, t: seq<T>)
    requires Distinct(s) && Distinct(t) && forall a | a in s :: a !in t
    ensures Distinct(s + t)
  {
    forall i, j | 0 <= i < j < |s + t|
      ensures (s + t)[i] != (s + t)[j]
    {
      if i < |s| <= j {
        assert s[i] in s && t[j - |s|] in t;
      }
    }
  }

  lemma {:induction false} PairCells(size: int, right: int, vert: int, j: int)
    requires 0 <= vert <= size && 0 <= j <= 2
    ensures forall c :: c in PairFrom(size, right, vert, j) <==> InPairFrom(size, right, vert, j, c)
    ensures Distinct(PairFrom(size, right, vert, j))
    ensures |PairFrom(size, right, vert, j)| == if vert == size then 0 else 2 * (size - vert) - j
    decreases size - vert, 2 - j
  {
    hide Upward;
    if vert == size {
    } else if j == 2 {
      PairCells(size, right, vert + 1, 0);
    } else {
      PairCells(size, right, vert, j + 1);
      var c := CellAt(size, right, vert, j);
      DistinctCons(c, PairFrom(size, right, vert, j + 1));
    }
  }

  // The columns from the right one of a pair leftward, column 6 left out.
  ghost predicate InPathFrom(size: int, right: int, c: Cell) {
    0 <= c.x <= right && c.x != 6 && 0 <= c.y < size
  }

  function Columns(right: int): int { if right >= 7 then right else right + 1 }

  lemma {:induction false} PathCells(size: int, right: int)
    requires size >= 0 && right >= -1 && IsRight(right)
    ensures forall c :: c in PathFrom(size, right) <==> InPathFrom(size, right, c)
    ensures Distinct(PathFrom(size, right))
    ensures |PathFrom(size, right)| == Columns(right) * size
    decreases right
  {
    hide Upward, PairFrom;
    if right >= 1 {
      var next := NextRight(right);
      PairCells(size, right, 0, 0);
      PathCells(size, next);
      assert Columns(right) == Columns(next) + 2;
      forall c
        ensures InPathFrom(size, right, c) <==> InPairFrom(size, right, 0, 0, c) || InPathFrom(size, next, c)
      {
      }
      DistinctConcat(PairFrom(size, right, 0, 0), PathFrom(size, next));
    }
  }

  // Every module outside column 6 is visited exactly once.
  lemma PathCovers(size: int)
    requires size >= 9 && size % 2 == 1
    ensures forall c :: c in Path(size) <==> 0 <= c.x < size && c.x != 6 && 0 <= c.y < size
    ensures Distinct(Path(size))
    ensures |Path(size)| == (size - 1) * size
  {
    PathCells(size, size - 1);
  }

  // ---------- The order in coordinates ----------

  // The column pairs counted from the right edge, column 6 left out, and the right column of each.
  function PairOf(size: int, x: int): int { if x > 6 then (size - 1 - x) / 2 else (size - 2 - x) / 2 }

  function RightOf(size: int, p: int): int {
    if size - 1 - 2 * p > 6 then size - 1 - 2 * p else size - 2 - 2 * p
  }

  // The place of a module on the path: its column pair, then its row, counted upward in the first pair
  // and in every second one after it, then right before left.
  function PlaceOf(size: int, x: int, y: int): int {
    var p := PairOf(size, x);
    2 * size * p + 2 * (if p % 2 == 0 then size - 1 - y else y) + (RightOf(size, p) - x)
  }

  lemma {:induction false} PairAt(size: int, right: int, vert: int, step: int, j: int)
    requires 0 <= vert <= step < size && 0 <= j < 2
    ensures 2 * (step - vert) + j < |PairFrom(size, right, vert, 0)|
    ensures PairFrom(size, right, vert, 0)[2 * (step - vert) + j] == CellAt(size, right, step, j)
    decreases step - vert
  {
    hide CellAt;
    PairCells(size, right, vert, 0);
    var rest := PairFrom(size, right, vert + 1, 0);
    assert PairFrom(size, right, vert, 0)
        == [CellAt(size, right, vert, 0)] + ([CellAt(size, right, vert, 1)] + rest) by {
      PairRow(size, right, vert);
    }
    if vert < step {
      PairAt(size, right, vert + 1, step, j);
    }
  }

  lemma PairRow(size: int, right: int, vert: int)
    requires 0 <= vert < size
    ensures PairFrom(size, right, vert, 0)
         == [CellAt(size, right, vert, 0)] + ([CellAt(size, right, vert, 1)] + PairFrom(size, right, vert + 1, 0))
  {
    hide CellAt;
    assert PairFrom(size, right, vert, 2) == PairFrom(size, right, vert + 1, 0);
  }

  // The pairs follow each other.
  lemma NextPair(size: int, p: int)
    requires size >= 21 && size % 4 == 1 && 0 <= p < (size - 1) / 2
    ensures 1 <= RightOf(size, p) < size && IsRight(RightOf(size, p))
    ensures NextRight(RightOf(size, p)) == RightOf(size, p + 1)
    ensures Upward(RightOf(size, p)) <==> p % 2 == 0
  {
    var m := size / 4;
    assert size == 4 * m + 1;
    NextPairOf(m, p);
  }

  lemma NextPairOf(m: int, p: int)
    requires m >= 5 && 0 <= p < 2 * m
    ensures var right := RightOf(4 * m + 1, p);
      && 1 <= right < 4 * m + 1 && IsRight(right) && NextRight(right) == RightOf(4 * m + 1, p + 1)
      && (Upward(right) <==> p % 2 == 0)
  {
    var right := RightOf(4 * m + 1, p);
    if right > 6 {
      assert (right + 1) / 2 == 2 * m - p;
    } else {
      assert (right + 1) / 2 == 2 * m - p;
    }
  }

  lemma PairsUnfold(size: int, p: int)
    requires size >= 21 && size % 4 == 1 && 0 <= p < (size - 1) / 2
    ensures var pair := PairFrom(size, RightOf(size, p), 0, 0);
      |pair| == 2 * size && PathFrom(size, RightOf(size, p)) == pair + PathFrom(size, RightOf(size, p + 1))
  {
    hide PairFrom, Upward, RightOf, NextRight;
    NextPair(size, p);
    PairCells(size, RightOf(size, p), 0, 0);
  }

  // The modules of n column pairs.
  function Skip(width: nat, n: nat): nat { if n == 0 then 0 else width + Skip(width, n - 1) }

  lemma {:induction false} SkipIs(width: nat, n: nat)
    ensures Skip(width, n) == width * n
  {
    if n > 0 {
      SkipIs(width, n - 1);
    }
  }

  lemma {:induction false} PathAt(size: int, p: int, n: nat, i: int)
    requires size >= 21 && size % 4 == 1 && 0 <= p && p + n < (size - 1) / 2 && 0 <= i < 2 * size
    ensures Skip(2 * size, n) + i < |PathFrom(size, RightOf(size, p))|
    ensures i < |PairFrom(size, RightOf(size, p + n), 0, 0)|
    ensures PathFrom(size, RightOf(size, p))[Skip(2 * size, n) + i] == PairFrom(size, RightOf(size, p + n), 0, 0)[i]
    decreases n
  {
    hide *;
    PairsUnfold(size, p);
    var pair, rest := PairFrom(size, RightOf(size, p), 0, 0), PathFrom(size, RightOf(size, p + 1));
    SkipUnfolds(2 * size, n);
    if n > 0 {
      PathAt(size, p + 1, n - 1, i);
      assert p + 1 + (n - 1) == p + n;
      ConcatAt(pair, rest, Skip(2 * size, n - 1) + i);
    }
  }

  lemma SkipUnfolds(width: nat, n: nat)
    ensures Skip(width, n) == if n == 0 then 0 else width + Skip(width, n - 1)
  {}

  lemma ConcatAt<T>(a: seq<T>, b: seq<T>, i: nat)
    requires i < |b|
    ensures |a| + i < |a + b| && (a + b)[|a| + i] == b[i]
  {}

  // Every module outside column 6 is where its coordinates say.
  lemma PathPlacement(size: int, c: Cell)
    requires size >= 21 && size % 4 == 1 && 0 <= c.x < size && c.x != 6 && 0 <= c.y < size
    ensures 0 <= PlaceOf(size, c.x, c.y) < |Path(size)|
    ensures Path(size)[PlaceOf(size, c.x, c.y)] == c
  {
    hide *;
    var p := PairOf(size, c.x);
    PairInRange(size, c.x);
    var right := RightOf(size, p);
    var step := if p % 2 == 0 then size - 1 - c.y else c.y;
    var i := 2 * step + (right - c.x);
    PlaceIs(size, c, p, i);
    NextPair(size, p);
    StepIs(size, right, p, c, step);
    PathStarts(size);
    PathAt(size, 0, p, i);
    PairAt(size, right, 0, step, right - c.x);
  }

  lemma PathStarts(size: int)
    requires size >= 21 && size % 4 == 1
    ensures Path(size) == PathFrom(size, RightOf(size, 0))
  {
    hide PathFrom;
  }

  lemma StepIs(size: int, right: int, p: int, c: Cell, step: int)
    requires (Upward(right) <==> p % 2 == 0) && step == if p % 2 == 0 then size - 1 - c.y else c.y
    ensures CellAt(size, right, step, right - c.x) == c
  {
    hide Upward;
  }

  lemma PlaceIs(size: int, c: Cell, p: int, i: int)
    requires size >= 0 && p == PairOf(size, c.x) && p >= 0
    requires i == 2 * (if p % 2 == 0 then size - 1 - c.y else c.y) + (RightOf(size, p) - c.x)
    ensures PlaceOf(size, c.x, c.y) == Skip(2 * size, p) + i
  {
    hide PairOf, RightOf, Skip;
    SkipIs(2 * size, p);
  }

  lemma PairInRange(size: int, x: int)
    requires size >= 21 && size % 4 == 1 && 0 <= x < size && x != 6
    ensures 0 <= PairOf(size, x) < (size - 1) / 2
    ensures 0 <= RightOf(size, PairOf(size, x)) - x < 2
  {
    var m := size / 4;
    assert size == 4 * m + 1;
    PairInRangeOf(m, x);
  }

  lemma PairInRangeOf(m: int, x: int)
    requires m >= 5 && 0 <= x < 4 * m + 1 && x != 6
    ensures 0 <= PairOf(4 * m + 1, x) < 2 * m
    ensures 0 <= RightOf(4 * m + 1, PairOf(4 * m + 1, x)) - x < 2
  {
    var p := PairOf(4 * m + 1, x);
    if x > 6 {
      assert 2 * p <= 4 * m - x <= 2 * p + 1;
    } else {
      assert 2 * p <= 4 * m - 1 - x <= 2 * p + 1;
    }
  }

  // And nothing else is there.
  lemma PlaceOfPath(size: int, i: nat)
    requires size >= 21 && size % 4 == 1 && i < |Path(size)|
    ensures PlaceOf(size, Path(size)[i].x, Path(size)[i].y) == i
  {
    hide *;
    PathInRange(size, i);
    var c := Path(size)[i];
    PathPlacement(size, c);
    OnePlace(Path(size), i, PlaceOf(size, c.x, c.y));
  }

  lemma PathInRange(size: int, i: nat)
    requires size >= 21 && size % 4 == 1 && i < |Path(size)|
    ensures var c := Path(size)[i]; 0 <= c.x < size && c.x != 6 && 0 <= c.y < size
    ensures Distinct(Path(size))
  {
    hide Path, Distinct;
    PathCovers(size);
    assert Path(size)[i] in Path(size);
  }

  lemma OnePlace<T>(s: seq<T>, i: nat, j: nat)
    requires Distinct(s) && i < |s| && j < |s| && s[i] == s[j]
    ensures i == j
  {}
}
