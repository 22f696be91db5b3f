/**
 A symbol has room for its codewords: at least NumRawDataModules modules outside column 6 belong to
 no function pattern. The function patterns are covered by rectangles whose areas are added up.
 */
module SymbolCapacity {
  import opened QrTables
  import opened SymbolGeometry
  import opened Zigzag

  // The modules of s that are not marked, in order.
  function FreeOf(marked: set<Cell>, s: seq<Cell>): seq<Cell> {
    if s == [] then []
    else FreeOf(marked, s[..|s| - 1]) + if s[|s| - 1] in marked then [] else [s[|s| - 1]]
  }

  lemma {:induction false} FreeMembers(marked: set<Cell>, s: seq<Cell>)
    ensures forall c :: c in FreeOf(marked, s) <==> c in s && c !in marked
  {
    if s != [] {
      FreeMembers(marked, s[..|s| - 1]);
    }
  }

  lemma {:induction false} FreeDistinct(marked: set<Cell>, s: seq<Cell>)
    requires Distinct(s)
    ensures Distinct(FreeOf(marked, s))
  {
    if s != [] {
      FreeDistinct(marked, s[..|s| - 1]);
      FreeMembers(marked, s[..|s| - 1]);
    }
  }

  ghost function Elements(s: seq<Cell>): set<Cell> { set c | c in s }

  lemma InsertMeet<T>(a: set<T>, c: T, m: set<T>)
    requires c !in a
    ensures |(a + {c}) * m| == |a * m| + if c in m then 1 else 0
  {
    if c in m {
      assert (a + {c}) * m == a * m + {c};
    } else {
      assert (a + {c}) * m == a * m;
    }
  }

  lemma ElementsSnoc(s: seq<Cell>)
    requires s != [] && Distinct(s)
    ensures Elements(s) == Elements(s[..|s| - 1]) + {s[|s| - 1]}
    ensures s[|s| - 1] !in Elements(s[..|s| - 1])
    ensures Distinct(s[..|s| - 1])
  {
    assert s == s[..|s| - 1] + [s[|s| - 1]];
  }

  lemma {:induction false} FreeCount(marked: set<Cell>, s: seq<Cell>)
    requires Distinct(s)
    ensures |FreeOf(marked, s)| + |Elements(s) * marked| == |s|
  {
    hide Distinct;
    if s == [] {
      assert Elements(s) * marked == {};
    } else {
      hide Elements;
      ElementsSnoc(s);
      FreeCount(marked, s[..|s| - 1]);
      InsertMeet(Elements(s[..|s| - 1]), s[|s| - 1], marked);
    }
  }

  // ---------- Rectangles ----------

  function Row(x0: int, y: int, w: nat): (r: set<Cell>)
    ensures |r| == w
    ensures forall c: Cell :: c in r <==> x0 <= c.x < x0 + w && c.y == y
  {
    if w == 0 then {} else Row(x0, y, w - 1) + {Cell(x0 + w - 1, y)}
  }

  function Rectangle(x0: int, y0: int, w: nat, h: nat): (r: set<Cell>)
    ensures |r| == w * h
    ensures forall c: Cell :: c in r <==> x0 <= c.x < x0 + w && y0 <= c.y < y0 + h
  {
    if h == 0 then {}
    else
      assert w * h == w * (h - 1) + w;
      Rectangle(x0, y0, w, h - 1) + Row(x0, y0 + h - 1, w)
  }

  lemma UnionSize<T>(a: set<T>, b: set<T>)
    ensures |a + b| <= |a| + |b|
  {
    assert a + b == a + (b - a);
    assert b == (b - a) + a * b;
    assert |b| == |b - a| + |a * b|;
  }

  lemma SubsetSize<T>(a: set<T>, b: set<T>)
    requires a <= b
    ensures |a| <= |b|
  {
    assert b == a + (b - a);
  }

  // ---------- The cover ----------

  ghost function AlignmentSquare(version: nat, i: nat, j: nat): (r: set<Cell>)
    requires version >= 1
    ensures |r| == 25
  {
    Rectangle(AlignmentPosition(version, i) - 2, AlignmentPosition(version, j) - 2, 5, 5)
  }

  lemma SquareCovers(version: nat, i: nat, j: nat, c: Cell)
    requires version >= 1 && InAlignmentAt(version, i, j, c.x, c.y)
    ensures c in AlignmentSquare(version, i, j)
  {
    hide AlignmentPosition;
  }

  // The alignment patterns (k, j) with 1 <= k < i.
  ghost function AlignmentRow(version: nat, i: nat, j: nat): set<Cell>
    requires version >= 1
  {
    if i <= 1 then {} else AlignmentRow(version, i - 1, j) + AlignmentSquare(version, i - 1, j)
  }

  // The alignment patterns (k, l) with 1 <= k < n and 1 <= l < j.
  ghost function AlignmentGrid(version: nat, n: nat, j: nat): set<Cell>
    requires version >= 1
  {
    if j <= 1 then {} else AlignmentGrid(version, n, j - 1) + AlignmentRow(version, n, j - 1)
  }

  // The part of pattern (0, j) outside column 6, and the part of pattern (i, 0) outside row 6.
  ghost function LeftPart(y: int): (r: set<Cell>)
    ensures |r| <= 20
  {
    UnionSize(Rectangle(4, y - 2, 2, 5), Rectangle(7, y - 2, 2, 5));
    Rectangle(4, y - 2, 2, 5) + Rectangle(7, y - 2, 2, 5)
  }

  ghost function TopPart(x: int): (r: set<Cell>)
    ensures |r| <= 20
  {
    UnionSize(Rectangle(x - 2, 4, 5, 2), Rectangle(x - 2, 7, 5, 2));
    Rectangle(x - 2, 4, 5, 2) + Rectangle(x - 2, 7, 5, 2)
  }

  ghost function AlignmentBorder(version: nat, n: nat): set<Cell>
    requires version >= 1
  {
    if n <= 1 then {}
    else
      var p := AlignmentPosition(version, n - 1);
      AlignmentBorder(version, n - 1) + (LeftPart(p) + TopPart(p))
  }

  lemma {:induction false} RowSize(version: nat, i: nat, j: nat)
    requires version >= 1 && i >= 1
    ensures |AlignmentRow(version, i, j)| <= 25 * (i - 1)
  {
    hide AlignmentSquare;
    if i > 1 {
      RowSize(version, i - 1, j);
      UnionSize(AlignmentRow(version, i - 1, j), AlignmentSquare(version, i - 1, j));
    }
  }

  lemma {:induction false} GridSize(version: nat, n: nat, j: nat)
    requires version >= 1 && n >= 1 && j >= 1
    ensures |AlignmentGrid(version, n, j)| <= 25 * (n - 1) * (j - 1)
  {
    hide AlignmentRow;
    if j > 1 {
      GridSize(version, n, j - 1);
      RowSize(version, n, j - 1);
      UnionSize(AlignmentGrid(version, n, j - 1), AlignmentRow(version, n, j - 1));
      MulStep(25 * (n - 1), j - 1);
    }
  }

  lemma MulStep(w: nat, k: nat)
    requires k >= 1
    ensures w * k == w * (k - 1) + w
  {}

  lemma {:induction false} BorderSize(version: nat, n: nat)
    requires version >= 1 && n >= 1
    ensures |AlignmentBorder(version, n)| <= 40 * (n - 1)
  {
    hide LeftPart, TopPart, AlignmentPosition;
    if n > 1 {
      var p := AlignmentPosition(version, n - 1);
      BorderSize(version, n - 1);
      UnionSize(LeftPart(p), TopPart(p));
      UnionSize(AlignmentBorder(version, n - 1), LeftPart(p) + TopPart(p));
    }
  }

  lemma {:induction false} RowCovers(version: nat, i: nat, j: nat, c: Cell, k: nat)
    requires version >= 1 && 1 <= k < i && InAlignmentAt(version, k, j, c.x, c.y)
    ensures c in AlignmentRow(version, i, j)
  {
    hide InAlignmentAt, AlignmentSquare;
    if k == i - 1 {
      SquareCovers(version, k, j, c);
    } else {
      RowCovers(version, i - 1, j, c, k);
    }
  }

  lemma {:induction false} GridCovers(version: nat, n: nat, j: nat, c: Cell, k: nat, l: nat)
    requires version >= 1 && 1 <= k < n && 1 <= l < j && InAlignmentAt(version, k, l, c.x, c.y)
    ensures c in AlignmentGrid(version, n, j)
  {
    hide InAlignmentAt, AlignmentRow;
    if l == j - 1 {
      RowCovers(version, n, l, c, k);
    } else {
      GridCovers(version, n, j - 1, c, k, l);
    }
  }

  lemma BorderPart(version: nat, k: nat, c: Cell)
    requires version >= 1 && c.x != 6 && c.y != 6
    requires InAlignmentAt(version, 0, k, c.x, c.y) || InAlignmentAt(version, k, 0, c.x, c.y)
    ensures c in LeftPart(AlignmentPosition(version, k)) || c in TopPart(AlignmentPosition(version, k))
  {
    hide Rectangle;
    assert AlignmentPosition(version, 0) == 6;
  }

  lemma {:induction false} BorderCovers(version: nat, n: nat, c: Cell, k: nat)
    requires version >= 1 && 1 <= k < n && c.x != 6 && c.y != 6
    requires InAlignmentAt(version, 0, k, c.x, c.y) || InAlignmentAt(version, k, 0, c.x, c.y)
    ensures c in AlignmentBorder(version, n)
  {
    hide LeftPart, TopPart;
    if k == n - 1 {
      var p := AlignmentPosition(version, k);
      BorderPart(version, k, c);
      assert c in LeftPart(p) + TopPart(p);
    } else {
      BorderCovers(version, n - 1, c, k);
    }
  }

  // Every module of an alignment pattern outside row and column 6.
  ghost function Alignments(version: nat): set<Cell>
    requires version >= 1
  {
    var n := AlignmentCount(version);
    AlignmentGrid(version, n, n) + AlignmentBorder(version, if n == 0 then 0 else n - 1)
  }

  lemma FindAlignment(version: nat, c: Cell) returns (i: nat, j: nat)
    requires version >= 1 && InAlignment(version, c.x, c.y)
    ensures HasAlignment(version, i, j) && InAlignmentAt(version, i, j, c.x, c.y)
  {
    i, j :| HasAlignment(version, i, j) && InAlignmentAt(version, i, j, c.x, c.y);
  }

  lemma AlignmentsCover(version: nat, c: Cell)
    requires version >= 1 && InAlignment(version, c.x, c.y) && c.x != 6 && c.y != 6
    ensures c in Alignments(version)
  {
    hide AlignmentGrid, AlignmentBorder, InAlignmentAt;
    var n := AlignmentCount(version);
    var i, j := FindAlignment(version, c);
    if i == 0 {
      BorderCovers(version, n - 1, c, j);
    } else if j == 0 {
      BorderCovers(version, n - 1, c, i);
    } else {
      GridCovers(version, n, n, c, i, j);
    }
  }

  lemma AlignmentsSize(version: nat)
    requires version >= 2
    ensures var n := version / 7 + 2;
      |Alignments(version)| <= 25 * (n - 1) * (n - 1) + 40 * (n - 2)
  {
    hide AlignmentGrid, AlignmentBorder;
    var n := AlignmentCount(version);
    GridSize(version, n, n);
    BorderSize(version, n - 1);
    UnionSize(AlignmentGrid(version, n, n), AlignmentBorder(version, n - 1));
  }

  // The modules around the three finder patterns, column 6 left out: finders, separators, both
  // copies of the format information, and the ends of the timing pattern.
  ghost function Corners(size: nat): set<Cell> {
    Rectangle(0, 0, 6, 9) + Rectangle(7, 0, 2, 9)
    + (Rectangle(0, size - 8, 6, 8) + Rectangle(7, size - 8, 2, 8))
    + Rectangle(size - 8, 0, 8, 9)
  }

  lemma CornersSize(size: nat)
    ensures |Corners(size)| <= 208
  {
    hide Rectangle;
    var a, b := Rectangle(0, 0, 6, 9), Rectangle(7, 0, 2, 9);
    var c, d := Rectangle(0, size - 8, 6, 8), Rectangle(7, size - 8, 2, 8);
    UnionSize(a, b);
    UnionSize(c, d);
    UnionSize(a + b, c + d);
    UnionSize(a + b + (c + d), Rectangle(size - 8, 0, 8, 9));
  }

  lemma InCorners(size: nat, c: Cell)
    requires size >= 21 && c.x != 6 && 0 <= c.x < size && 0 <= c.y < size
    requires (c.x < 9 && (c.y < 9 || c.y >= size - 8)) || (c.x >= size - 8 && c.y < 9)
    ensures c in Corners(size)
  {
    hide Rectangle;
  }

  lemma CornersCover(size: nat, c: Cell)
    requires size >= 21 && c.x != 6 && 0 <= c.x < size && 0 <= c.y < size
    requires InFinders(size, c.x, c.y) || FormatMark(size, c.x, c.y) != NoMark
    ensures c in Corners(size)
  {
    hide Corners;
    InCorners(size, c);
  }

  ghost function Versions(version: nat): (r: set<Cell>)
    ensures |r| <= if version < 7 then 0 else 36
  {
    if version < 7 then {}
    else
      var a, b := Rectangle(Size(version) - 11, 0, 3, 6), Rectangle(0, Size(version) - 11, 6, 3);
      UnionSize(a, b);
      a + b
  }

  lemma VersionsCover(version: nat, c: Cell)
    requires VersionMark(version, c.x, c.y) != NoMark
    ensures c in Versions(version)
  {}

  ghost function Cover(version: nat): set<Cell>
    requires version >= 1
  {
    (Corners(Size(version)) + Alignments(version)) + (Versions(version) + Rectangle(9, 6, Size(version) - 17, 1))
  }

  lemma CoverCovers(version: nat, c: Cell)
    requires version >= 1 && c.x != 6 && InSymbol(version, c.x, c.y) && IsFunction(version, c.x, c.y)
    ensures c in Cover(version)
  {
    hide InAlignment, InFinders, FormatMark, VersionMark, Corners, Alignments, Versions;
    var size := Size(version);
    if InFinders(size, c.x, c.y) || FormatMark(size, c.x, c.y) != NoMark {
      CornersCover(size, c);
    } else if VersionMark(version, c.x, c.y) != NoMark {
      VersionsCover(version, c);
    } else if c.y == 6 {
      if c.x < 9 || c.x >= size - 8 {
        InCorners(size, c);
      }
    } else {
      AlignmentsCover(version, c);
    }
  }

  lemma CoverSize(version: nat)
    requires 1 <= version <= 40
    ensures |Cover(version)| <= Size(version) * (Size(version) - 1) - NumRawDataModules(version)
  {
    hide NumRawDataModules, Corners, Alignments, Versions;
    var size := Size(version);
    var timing := Rectangle(9, 6, size - 17, 1);
    CornersSize(size);
    UnionSize(Corners(size), Alignments(version));
    UnionSize(Versions(version), timing);
    UnionSize(Corners(size) + Alignments(version), Versions(version) + timing);
    AreaIdentity(version, version / 7 + 2);
    if version >= 2 {
      AlignmentsSize(version);
    } else {
      NoAlignments();
    }
  }

  lemma NoAlignments()
    ensures Alignments(1) == {}
  {}

  // The sum of the areas is the published formula, whatever the number n of alignment coordinates.
  lemma AreaIdentity(version: nat, n: nat)
    requires version >= 1 && n == version / 7 + 2
    ensures Size(version) * (Size(version) - 1) - NumRawDataModules(version)
            == 208 + version * 4
               + (if version == 1 then 0 else 25 * (n - 1) * (n - 1) + 40 * (n - 2))
               + (if version < 7 then 0 else 36)
  {
    SizeProduct(version);
    ModulesProduct(version);
    AlignmentProducts(n);
  }

  lemma SizeProduct(v: int)
    ensures (v * 4 + 17) * (v * 4 + 17 - 1) == 16 * (v * v) + 132 * v + 272
  {}

  lemma ModulesProduct(v: int)
    ensures (16 * v + 128) * v == 16 * (v * v) + 128 * v
  {}

  lemma AlignmentProducts(n: int)
    ensures (25 * n - 10) * n == 25 * (n * n) - 10 * n
    ensures 25 * (n - 1) * (n - 1) == 25 * (n * n) - 50 * n + 25
  {}

  // The zigzag meets at least as many unmarked modules as the symbol has data modules.
  lemma RoomForCodewords(version: nat, marked: set<Cell>)
    requires 1 <= version <= 40
    requires forall c: Cell :: c in marked <==> InSymbol(version, c.x, c.y) && IsFunction(version, c.x, c.y)
    ensures |FreeOf(marked, Path(Size(version)))| >= NumRawDataModules(version)
  {
    hide IsFunction, NumRawDataModules, Path, FreeOf, Cover, Distinct;
    var size := Size(version);
    PathLength(size);
    FreeCount(marked, Path(size));
    var met := Elements(Path(size)) * marked;
    MarkedIsCovered(version, marked);
    SubsetSize(met, Cover(version));
    CoverSize(version);
  }

  lemma PathLength(size: int)
    requires size >= 9 && size % 2 == 1
    ensures Distinct(Path(size)) && |Path(size)| == size * (size - 1)
  {
    hide Path, Distinct;
    PathCovers(size);
  }

  lemma MarkedIsCovered(version: nat, marked: set<Cell>)
    requires 1 <= version <= 40
    requires forall c: Cell :: c in marked <==> InSymbol(version, c.x, c.y) && IsFunction(version, c.x, c.y)
    ensures Elements(Path(Size(version))) * marked <= Cover(version)
  {
    hide IsFunction, NumRawDataModules, Path, FreeOf, Cover, Distinct;
    PathCovers(Size(version));
    forall c | c in Elements(Path(Size(version))) * marked
      ensures c in Cover(version)
    {
      CoverCovers(version, c);
    }
  }
}
