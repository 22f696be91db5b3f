/**
 The order of codewords in a symbol (ISO/IEC 18004:2015, section 7.6): column by column through a
 stack of blocks, of which the first ones are a data codeword shorter than the rest.

 The short blocks are stored with a placeholder where the long ones have their last data codeword,
 so that the check codewords line up; the placeholders are skipped on the way out.
 */
module Interleaving {

  datatype Layout = Layout(numBlocks: nat, eccLength: nat, raw: nat) {
    ghost predicate Valid() {
      numBlocks >= 1 && eccLength <= raw / numBlocks
    }

    function NumShort(): nat
      requires Valid()
    {
      numBlocks - raw % numBlocks
    }

    // Data codewords in a short block, and so the column of the placeholders.
    function ShortData(): nat
      requires Valid()
    {
      raw / numBlocks - eccLength
    }

    // Columns of the stack: a long block, or a short one with its placeholder.
    function Width(): nat
      requires Valid()
    {
      raw / numBlocks + 1
    }

    predicate IsPad(i: nat, j: nat)
      requires Valid()
    {
      i == ShortData() && j < NumShort()
    }

    function DataLength(j: nat): nat
      requires Valid()
    {
      ShortData() + if j < NumShort() then 0 else 1
    }

    // The first data codeword of block j.
    function DataStart(j: nat): nat
      requires Valid()
    {
      j * ShortData() + if j < NumShort() then 0 else j - NumShort()
    }

    // Codewords in the columns before column i.
    function ColumnStart(i: nat): int
      requires Valid()
    {
      i * numBlocks - if i <= ShortData() then 0 else NumShort()
    }

    // Where row j of column i goes.
    function Position(i: nat, j: nat): int
      requires Valid()
    {
      ColumnStart(i) + if i == ShortData() then j - NumShort() else j
    }

    ghost predicate Shapes<T>(blocks: seq<seq<T>>)
      requires Valid()
    {
      |blocks| == numBlocks && forall j :: 0 <= j < numBlocks ==> |blocks[j]| == Width()
    }

    // The first j rows of column i, placeholders left out.
    function Column<T>(blocks: seq<seq<T>>, i: nat, j: nat): (c: seq<T>)
      requires Valid() && Shapes(blocks) && i < Width() && j <= numBlocks
    {
      if j == 0 then [] else Column(blocks, i, j - 1) + if IsPad(i, j - 1) then [] else [blocks[j - 1][i]]
    }

    function Columns<T>(blocks: seq<seq<T>>, i: nat): (c: seq<T>)
      requires Valid() && Shapes(blocks) && i <= Width()
    {
      if i == 0 then [] else Columns(blocks, i - 1) + Column(blocks, i - 1, numBlocks)
    }

    method Interleave<T>(blocks: seq<seq<T>>) returns (result: seq<T>)
      requires Valid() && Shapes(blocks)
      ensures result == Columns(blocks, Width())
    {
      result := [];
      for i := 0 to Width()
        invariant result == Columns(blocks, i)
      {
        for j := 0 to numBlocks
          invariant result == Columns(blocks, i) + Column(blocks, i, j)
        {
          if i != ShortData() || j >= NumShort() {
            result := result + [blocks[j][i]];
          }
        }
      }
    }

    // ---------- Where each codeword lands ----------

    lemma ShortBlocks()
      requires Valid()
      ensures 1 <= NumShort() <= numBlocks
    {}

    lemma {:induction false} ColumnAt<T>(blocks: seq<seq<T>>, i: nat, j: nat)
      requires Valid() && Shapes(blocks) && i < Width() && j <= numBlocks
      ensures |Column(blocks, i, j)| == if i != ShortData() then j else if j <= NumShort() then 0 else j - NumShort()
      ensures forall k: nat | k < j && !IsPad(i, k) ::
                && 0 <= Position(i, k) - ColumnStart(i) < |Column(blocks, i, j)|
                && Column(blocks, i, j)[Position(i, k) - ColumnStart(i)] == blocks[k][i]
    {
      ShortBlocks();
      if j > 0 {
        ColumnAt(blocks, i, j - 1);
      }
    }

    lemma {:induction false} ColumnsLength<T>(blocks: seq<seq<T>>, i: nat)
      requires Valid() && Shapes(blocks) && i <= Width()
      ensures |Columns(blocks, i)| == ColumnStart(i)
    {
      if i > 0 {
        ColumnsLength(blocks, i - 1);
        ShortBlocks();
        ColumnAt(blocks, i - 1, numBlocks);
        assert i * numBlocks == (i - 1) * numBlocks + numBlocks;
      }
    }

    lemma {:induction false} ColumnsAt<T>(blocks: seq<seq<T>>, n: nat, i: nat, j: nat)
      requires Valid() && Shapes(blocks) && i < n <= Width() && j < numBlocks && !IsPad(i, j)
      ensures 0 <= Position(i, j) < |Columns(blocks, n)| && Columns(blocks, n)[Position(i, j)] == blocks[j][i]
    {
      if i == n - 1 {
        ColumnsLength(blocks, i);
        ColumnAt(blocks, i, numBlocks);
      } else {
        ColumnsAt(blocks, n - 1, i, j);
      }
    }

    lemma TotalLength()
      requires Valid()
      ensures ColumnStart(Width()) == raw
    {
      assert numBlocks * (raw / numBlocks) + raw % numBlocks == raw;
      assert (raw / numBlocks + 1) * numBlocks == numBlocks * (raw / numBlocks) + numBlocks;
    }

    // The stream is as long as the symbol needs, and holds row j of column i at Position(i, j).
    lemma Interleaved<T>(blocks: seq<seq<T>>)
      requires Valid() && Shapes(blocks)
      ensures |Columns(blocks, Width())| == raw
      ensures forall i: nat, j: nat | i < Width() && j < numBlocks && !IsPad(i, j) ::
                0 <= Position(i, j) < raw && Columns(blocks, Width())[Position(i, j)] == blocks[j][i]
    {
      ColumnsLength(blocks, Width());
      TotalLength();
      forall i: nat, j: nat | i < Width() && j < numBlocks && !IsPad(i, j)
        ensures 0 <= Position(i, j) < raw && Columns(blocks, Width())[Position(i, j)] == blocks[j][i]
      {
        ColumnsAt(blocks, Width(), i, j);
      }
    }

    ghost predicate Holds(p: nat, i: nat, j: nat)
      requires Valid()
    {
      i < Width() && j < numBlocks && !IsPad(i, j) && p == Position(i, j)
    }

    lemma {:induction false} FindColumn(p: nat, n: nat) returns (i: nat, j: nat)
      requires Valid() && n <= Width() && p < ColumnStart(n)
      ensures i < n && Holds(p, i, j)
    {
      ShortBlocks();
      assert n * numBlocks == (n - 1) * numBlocks + numBlocks;
      if p < ColumnStart(n - 1) {
        i, j := FindColumn(p, n - 1);
      } else {
        i := n - 1;
        j := p - ColumnStart(i) + if i == ShortData() then NumShort() else 0;
      }
    }

    lemma {:induction false} ColumnStartMonotone(a: nat, b: nat)
      requires Valid() && a < b
      ensures ColumnStart(a) + (if a == ShortData() then numBlocks - NumShort() else numBlocks) <= ColumnStart(b)
    {
      ShortBlocks();
      if a + 1 < b {
        ColumnStartMonotone(a, b - 1);
      }
      assert b * numBlocks == (b - 1) * numBlocks + numBlocks;
    }

    // Every place of the stream is taken by exactly one codeword of the stack.
    lemma PositionIsBijective(p: nat)
      requires Valid() && p < raw
      ensures exists i: nat, j: nat :: Holds(p, i, j)
      ensures forall i: nat, j: nat, i': nat, j': nat :: Holds(p, i, j) && Holds(p, i', j') ==> i == i' && j == j'
    {
      TotalLength();
      var i, j := FindColumn(p, Width());
      forall i': nat, j': nat | Holds(p, i', j')
        ensures i' == i && j' == j
      {
        ShortBlocks();
        if i' < i {
          ColumnStartMonotone(i', i);
        } else if i < i' {
          ColumnStartMonotone(i, i');
        }
      }
    }

    // ---------- Cutting the data into blocks, and back ----------

    function DataTotal(): int
      requires Valid()
    {
      raw - numBlocks * eccLength
    }

    lemma DataStartStep(j: nat)
      requires Valid()
      ensures DataStart(j + 1) == DataStart(j) + DataLength(j)
    {
      assert (j + 1) * ShortData() == j * ShortData() + ShortData();
    }

    lemma DataStartZero()
      requires Valid()
      ensures DataStart(0) == 0
    {
      ShortBlocks();
    }

    lemma DataEnd()
      requires Valid()
      ensures DataStart(numBlocks) == DataTotal()
    {
      ShortBlocks();
      var q := raw / numBlocks;
      assert numBlocks * q + raw % numBlocks == raw;
      assert numBlocks * (q - eccLength) == numBlocks * q - numBlocks * eccLength;
    }

    lemma {:induction false} DataStarts(j: nat)
      requires Valid() && j <= numBlocks
      ensures DataStart(j) <= DataTotal()
      ensures j < numBlocks ==> DataStart(j + 1) == DataStart(j) + DataLength(j) <= DataTotal()
      decreases numBlocks - j
    {
      hide DataStart, DataTotal, DataLength;
      if j == numBlocks {
        DataEnd();
      } else {
        DataStartStep(j);
        DataStarts(j + 1);
      }
    }

    function Cut<T>(data: seq<T>, j: nat): (block: seq<T>)
      requires Valid() && |data| == DataTotal() && j < numBlocks
      ensures |block| == DataLength(j)
    {
      DataStarts(j);
      data[DataStart(j)..DataStart(j) + DataLength(j)]
    }

    // The data codewords of block j, read back from the stream.
    function ReadData<T>(stream: seq<T>, j: nat): (block: seq<T>)
      requires Valid() && |stream| == raw && j < numBlocks
      ensures |block| == DataLength(j)
    {
      PositionsInRange();
      seq(DataLength(j), k requires 0 <= k < DataLength(j) => stream[Position(k, j)])
    }

    // The check codewords of block j, read back from the stream.
    function ReadCheck<T>(stream: seq<T>, j: nat): (check: seq<T>)
      requires Valid() && |stream| == raw && j < numBlocks
      ensures |check| == eccLength
    {
      PositionsInRange();
      seq(eccLength, e requires 0 <= e < eccLength => stream[Position(ShortData() + 1 + e, j)])
    }

    // The data codewords of the first n blocks, read back from the stream.
    function ReadAll<T>(stream: seq<T>, n: nat): seq<T>
      requires Valid() && |stream| == raw && n <= numBlocks
    {
      if n == 0 then [] else ReadAll(stream, n - 1) + ReadData(stream, n - 1)
    }

    lemma PositionsInRange()
      requires Valid()
      ensures forall i: nat, j: nat | i < Width() && j < numBlocks && !IsPad(i, j) :: 0 <= Position(i, j) < raw
    {
      ShortBlocks();
      Interleaved(seq(numBlocks, _ => seq(Width(), _ => 0)));
    }

    lemma {:induction false} ReadAllJoins<T>(stream: seq<T>, data: seq<T>, n: nat)
      requires Valid() && |stream| == raw && |data| == DataTotal() && n <= numBlocks
      requires forall j :: 0 <= j < n ==> ReadData(stream, j) == Cut(data, j)
      ensures 0 <= DataStart(n) <= |data| && ReadAll(stream, n) == data[..DataStart(n)]
    {
      hide DataStart, DataLength, DataTotal, ReadData;
      DataStarts(n);
      if n > 0 {
        ReadAllJoins(stream, data, n - 1);
        DataStarts(n - 1);
        assert data[..DataStart(n)] == data[..DataStart(n - 1)] + data[DataStart(n - 1)..DataStart(n)];
      } else {
        assert DataStart(0) == 0 by { DataStartZero(); }
      }
    }
  }
}
