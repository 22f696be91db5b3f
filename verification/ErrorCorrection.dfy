/** The codeword stream of a symbol: the data cut into blocks, check codewords added, interleaved. */
module ErrorCorrection {
  import opened Interleaving
  import opened MinimumDistance
  import opened QrTables
  import opened ReedSolomon

  function LayoutOf(version: nat, ecl: nat): (l: Layout)
    requires IsSymbol(version, ecl)
    ensures l.Valid() && l.eccLength >= 1 && l.raw == RawCodewords(version) && l.raw / l.numBlocks <= 254
    ensures l.DataTotal() == NumDataCodewords(version, ecl)
  {
    TablesFit(version, ecl);
    Quotient(RawCodewords(version), NumBlocks(version, ecl));
    Layout(NumBlocks(version, ecl), EccLength(version, ecl), RawCodewords(version))
  }

  lemma Quotient(raw: int, b: nat)
    requires b >= 1 && raw / b >= 1
    ensures raw >= 0
  {}

  function Divisor(degree: nat): (d: seq<bv8>)
    ensures |d| == degree
  {
    Generator(degree)[1..]
  }

  // Block j as the encoder stores it.
  function Stored(l: Layout, data: seq<bv8>, j: nat): (block: seq<bv8>)
    requires l.Valid() && l.eccLength >= 1 && |data| == l.DataTotal() && j < l.numBlocks
    ensures |block| == l.Width()
  {
    l.Cut(data, j) + (if j < l.NumShort() then [0] else []) + Remainder(l.Cut(data, j), Divisor(l.eccLength))
  }

  function Stack(l: Layout, data: seq<bv8>): (blocks: seq<seq<bv8>>)
    requires l.Valid() && l.eccLength >= 1 && |data| == l.DataTotal()
    ensures l.Shapes(blocks)
  {
    seq(l.numBlocks, j requires 0 <= j < l.numBlocks => Stored(l, data, j))
  }

  function Stream(l: Layout, data: seq<bv8>): (stream: seq<bv8>)
    requires l.Valid() && l.eccLength >= 1 && |data| == l.DataTotal()
    ensures |stream| == l.raw
  {
    l.Interleaved(Stack(l, data));
    l.Columns(Stack(l, data), l.Width())
  }

  method AddEccAndInterleave(data: seq<bv8>, version: nat, ecl: nat) returns (result: seq<bv8>)
    requires IsSymbol(version, ecl) && |data| == NumDataCodewords(version, ecl)
    ensures result == Stream(LayoutOf(version, ecl), data)
  {
    hide RawCodewords, NumBlocks, EccLength, NumDataCodewords, Remainder, Generator;
    var l := LayoutOf(version, ecl);
    var divisor := ComputeDivisor(l.eccLength);
    ghost var g := divisor[..];
    assert g == ([1] + g)[1..];
    assert g == Divisor(l.eccLength);
    var blocks: seq<seq<bv8>> := [];
    var k := 0;
    l.DataStartZero();
    for i := 0 to l.numBlocks
      invariant k == l.DataStart(i)
      invariant divisor[..] == g
      invariant |blocks| == i && forall j :: 0 <= j < i ==> blocks[j] == Stored(l, data, j)
    {
      l.DataStarts(i);
      var dat := data[k..k + l.ShortData() + if i < l.NumShort() then 0 else 1];
      k := k + |dat|;
      assert dat == l.Cut(data, i);
      var ecc := ComputeRemainder(dat, divisor[..]);
      if i < l.NumShort() {
        dat := dat + [0];
      }
      assert dat + ecc == Stored(l, data, i);
      blocks := blocks + [dat + ecc];
    }
    assert blocks == Stack(l, data);
    result := l.Interleave(blocks);
  }

  // ---------- The stream gives everything back ----------

  lemma StreamBlock(l: Layout, data: seq<bv8>, j: nat)
    requires l.Valid() && l.eccLength >= 1 && |data| == l.DataTotal() && j < l.numBlocks
    ensures l.ReadData(Stream(l, data), j) == l.Cut(data, j)
    ensures l.ReadCheck(Stream(l, data), j) == Remainder(l.Cut(data, j), Divisor(l.eccLength))
  {
    hide Remainder, Generator;
    var stream := Stream(l, data);
    var block := Stored(l, data, j);
    l.Interleaved(Stack(l, data));
    forall k: nat | k < l.DataLength(j)
      ensures stream[l.Position(k, j)] == l.Cut(data, j)[k]
    {
      assert stream[l.Position(k, j)] == block[k];
    }
    forall e: nat | e < l.eccLength
      ensures stream[l.Position(l.ShortData() + 1 + e, j)] == Remainder(l.Cut(data, j), Divisor(l.eccLength))[e]
    {
      assert stream[l.Position(l.ShortData() + 1 + e, j)] == block[l.ShortData() + 1 + e];
    }
  }

  // Dropping the check codewords and reading the blocks in order gives back the data.
  lemma StreamRecovers(l: Layout, data: seq<bv8>)
    requires l.Valid() && l.eccLength >= 1 && |data| == l.DataTotal()
    ensures l.ReadAll(Stream(l, data), l.numBlocks) == data
  {
    hide Remainder, Generator, Stream;
    forall j | 0 <= j < l.numBlocks
      ensures l.ReadData(Stream(l, data), j) == l.Cut(data, j)
    {
      StreamBlock(l, data, j);
    }
    l.ReadAllJoins(Stream(l, data), data, l.numBlocks);
    l.DataEnd();
  }

  // A block as a receiver sees it.
  function Received(l: Layout, stream: seq<bv8>, j: nat): (block: seq<bv8>)
    requires l.Valid() && |stream| == l.raw && j < l.numBlocks
    ensures |block| == l.DataLength(j) + l.eccLength
  {
    l.ReadData(stream, j) + l.ReadCheck(stream, j)
  }

  // A received block damaged in at most half as many places as it has check codewords determines
  // the data codewords it was sent with.
  lemma BlockIsCorrectable(version: nat, ecl: nat, a: seq<bv8>, b: seq<bv8>, j: nat, damaged: seq<bv8>)
    requires IsSymbol(version, ecl) && |a| == |b| == NumDataCodewords(version, ecl)
    requires j < LayoutOf(version, ecl).numBlocks
    requires var l := LayoutOf(version, ecl);
      && |damaged| == l.DataLength(j) + l.eccLength
      && 2 * |Differences(damaged, Received(l, Stream(l, a), j))| <= l.eccLength
      && 2 * |Differences(damaged, Received(l, Stream(l, b), j))| <= l.eccLength
    ensures LayoutOf(version, ecl).Cut(a, j) == LayoutOf(version, ecl).Cut(b, j)
  {
    hide Remainder, Generator, RawCodewords, NumBlocks, EccLength, NumDataCodewords;
    var l := LayoutOf(version, ecl);
    var d := l.eccLength;
    StreamBlock(l, a, j);
    StreamBlock(l, b, j);
    GeneratorLeads(d);
    assert [1] + Divisor(d) == Generator(d);
    CorrectionIsUnique(l.Cut(a, j), l.Cut(b, j), Divisor(d), d, damaged);
  }
}
