/** Activity rows of the sender, and which of them still wait for their nonce. */
module WaitingRows {
  import opened Basics

  // An amount of wei that fits in 64 bits.
  newtype Wei = w: int | 0 <= w < 0x1_0000_0000_0000_0000

  datatype Status = Pending | Unknown | Confirmed | Failed | Replaced | Other

  datatype Meta = Meta(kind: string, recipient: string, amount: string, token: string)

  // A row of the activity list. A nonce or a fee is missing when it cannot be read.
  datatype Row = Row(
    chainId: int,
    nonce: Option<nat>,
    status: Status,
    replaced: bool,
    timestamp: int,
    stalled: bool,
    maxFeePerGas: Option<Wei>,
    maxPriorityFeePerGas: Option<Wei>,
    hash: string,
    caption: string,
    origin: string,
    from: string,
    meta: Meta
  )

  // A nonce the sender reserved and never sent.
  datatype Gap = Gap(chainId: int, nonce: Option<nat>)

  predicate RowMined(r: Row) { r.status == Confirmed || r.status == Failed }

  predicate RowWaiting(r: Row) { (r.status == Pending || r.status == Unknown) && !r.replaced }

  // A mined row for the given nonce of a chain.
  predicate Mines(r: Row, chainId: int, nonce: int) {
    (r.status == Confirmed || r.status == Failed) && r.chainId == chainId && r.nonce.Some? && r.nonce.value == nonce
  }

  ghost predicate HasMined(rows: seq<Row>, chainId: int, nonce: int) {
    exists m :: m in rows && Mines(m, chainId, nonce)
  }

  lemma HasMinedSnoc(rows: seq<Row>, k: nat)
    requires k < |rows|
    ensures forall c, n :: HasMined(rows[..k + 1], c, n) <==> HasMined(rows[..k], c, n) || Mines(rows[k], c, n)
  {
    forall c, n
      ensures HasMined(rows[..k + 1], c, n) <==> HasMined(rows[..k], c, n) || Mines(rows[k], c, n)
    {
      assert rows[..k + 1] == rows[..k] + [rows[k]];
      if m :| m in rows[..k] && Mines(m, c, n) {
        assert m in rows[..k + 1];
      }
    }
  }

  // ---------- Flagging replaced rows ----------

  // The sender settled the row as replaced, or another row on its chain has mined its nonce.
  ghost predicate Superseded(rows: seq<Row>, r: Row) {
    || r.status == Replaced
    || (r.status in {Pending, Unknown} && !r.replaced && r.nonce.Some? && HasMined(rows, r.chainId, r.nonce.value))
  }

  ghost function Marked(rows: seq<Row>): (marked: seq<Row>)
    ensures |marked| == |rows|
  {
    seq(|rows|, i requires 0 <= i < |rows| =>
      if Superseded(rows, rows[i]) then rows[i].(replaced := true) else rows[i])
  }

  method MarkReplaced(rows: seq<Row>) returns (marked: seq<Row>)
    ensures marked == Marked(rows)
  {
    var mined: set<(int, int)> := {};
    for k := 0 to |rows|
      invariant forall c, n :: (c, n) in mined <==> HasMined(rows[..k], c, n)
    {
      HasMinedSnoc(rows, k);
      var r := rows[k];
      if RowMined(r) && r.nonce.Some? {
        mined := mined + {(r.chainId, r.nonce.value)};
      }
    }
    assert rows[..|rows|] == rows;
    marked := rows;
    for i := 0 to |rows|
      invariant |marked| == |rows|
      invariant forall k | 0 <= k < i :: marked[k] == Marked(rows)[k]
      invariant forall k | i <= k < |rows| :: marked[k] == rows[k]
    {
      var r := marked[i];
      if r.status == Replaced || (RowWaiting(r) && r.nonce.Some? && (r.chainId, r.nonce.value) in mined) {
        marked := marked[i := r.(replaced := true)];
      }
    }
  }

  lemma MarkedMines(rows: seq<Row>, c: int, n: int)
    ensures HasMined(Marked(rows), c, n) <==> HasMined(rows, c, n)
  {
    if m :| m in Marked(rows) && Mines(m, c, n) {
      var i :| 0 <= i < |rows| && Marked(rows)[i] == m;
      assert Mines(rows[i], c, n);
    }
    if m :| m in rows && Mines(m, c, n) {
      var i :| 0 <= i < |rows| && rows[i] == m;
      assert Mines(Marked(rows)[i], c, n);
    }
  }

  // Flagging twice flags nothing more.
  lemma MarkedIsIdempotent(rows: seq<Row>)
    ensures Marked(Marked(rows)) == Marked(rows)
  {
    forall i | 0 <= i < |rows|
      ensures Marked(Marked(rows))[i] == Marked(rows)[i]
    {
      var r := Marked(rows)[i];
      if Superseded(Marked(rows), r) && r.nonce.Some? {
        MarkedMines(rows, r.chainId, r.nonce.value);
      }
    }
  }

  // No flagged row waits, and no waiting row has a nonce that its chain has mined.
  lemma NothingMinedWaits(rows: seq<Row>)
    ensures forall r, m | r in Marked(rows) && m in Marked(rows) && RowWaiting(r) && r.nonce.Some? ::
              !Mines(m, r.chainId, r.nonce.value)
  {
    forall r, m | r in Marked(rows) && m in Marked(rows) && RowWaiting(r) && r.nonce.Some?
      ensures !Mines(m, r.chainId, r.nonce.value)
    {
      var i :| 0 <= i < |rows| && Marked(rows)[i] == r;
      MarkedMines(rows, r.chainId, r.nonce.value);
      assert !Superseded(rows, rows[i]);
    }
  }

  // ---------- What still waits ----------

  // The highest nonce a chain has mined, or -1.
  function MinedUpTo(rows: seq<Row>, chainId: int): (n: int)
    ensures n >= -1
  {
    if rows == [] then -1
    else
      var n, r := MinedUpTo(rows[..|rows| - 1], chainId), rows[|rows| - 1];
      if RowMined(r) && r.nonce.Some? && r.chainId == chainId then Max(n, r.nonce.value) else n
  }

  predicate WaitsAbove(r: Row, chainId: int, floor: int) {
    RowWaiting(r) && r.nonce.Some? && r.chainId == chainId && r.nonce.value > floor
  }

  // The rows of a chain that wait above a nonce, in order.
  function Waiting(rows: seq<Row>, chainId: int, floor: int): (waiting: seq<Row>)
    ensures forall r :: r in waiting <==> r in rows && WaitsAbove(r, chainId, floor)
  {
    if rows == [] then []
    else
      var before, r := Waiting(rows[..|rows| - 1], chainId, floor), rows[|rows| - 1];
      assert rows == rows[..|rows| - 1] + [r];
      if WaitsAbove(r, chainId, floor) then before + [r] else before
  }

  predicate OpenGap(g: Gap, chainId: int, floor: int) {
    g.nonce.Some? && g.chainId == chainId && g.nonce.value > floor
  }

  function Gaps(stranded: seq<Gap>, chainId: int, floor: int): set<int> {
    set g | g in stranded && OpenGap(g, chainId, floor) :: g.nonce.value
  }

  lemma {:induction false} MinedBounds(rows: seq<Row>, chainId: int)
    ensures forall r, n | r in rows && Mines(r, chainId, n) :: n <= MinedUpTo(rows, chainId)
    ensures MinedUpTo(rows, chainId) == -1
         || HasMined(rows, chainId, MinedUpTo(rows, chainId))
  {
    if rows != [] {
      var before, r := rows[..|rows| - 1], rows[|rows| - 1];
      assert rows == before + [r];
      MinedBounds(before, chainId);
      HasMinedSnoc(rows, |rows| - 1);
      assert rows[..|rows| - 1 + 1] == rows;
      var n := MinedUpTo(rows, chainId);
      if n == MinedUpTo(before, chainId) {
        assert HasMined(before, chainId, n) ==> HasMined(rows, chainId, n);
      } else {
        assert Mines(r, chainId, n);
      }
    }
  }

  lemma {:induction false} MarkedMinedUpTo(rows: seq<Row>, chainId: int)
    ensures MinedUpTo(Marked(rows), chainId) == MinedUpTo(rows, chainId)
  {
    var marked := Marked(rows);
    var m, n := MinedUpTo(marked, chainId), MinedUpTo(rows, chainId);
    MarkedMines(rows, chainId, m);
    MarkedMines(rows, chainId, n);
    MinedBounds(rows, chainId);
    MinedBounds(marked, chainId);
  }
}
