/** The encoder as a whole, and what it is for: the symbol it draws stands for the bytes it was given. */
module SymbolEncoding {
  import opened Basics
  import opened CodewordBits
  import opened ErrorCorrection
  import opened Masking
  import opened QrSymbol
  import opened QrTables
  import opened SegmentBits
  import opened SymbolReading

  // The data codewords of a symbol.
  function DataCodewords(data: seq<Byte>, version: nat, ecl: nat): (codewords: seq<bv8>)
    requires 1 <= version <= 40 && ecl < 4 && Fits(version, ecl, |data|)
    ensures |codewords| == NumDataCodewords(version, ecl)
  {
    Pack(Padded(data, version, NumDataCodewords(version, ecl) * 8))
  }

  // Whatever bytes fit, with any mask the drawn symbol reads as those bytes.
  lemma SymbolStandsForData(data: seq<Byte>, version: nat, ecl: nat, mask: nat)
    requires 1 <= version <= 40 && ecl < 4 && mask < 8 && Fits(version, ecl, |data|)
    ensures IsSymbol(version, ecl)
    ensures Decode(Candidate(version, ecl, mask, Stream(LayoutOf(version, ecl), DataCodewords(data, version, ecl))))
         == Some(data)
  {
    hide Stream, Candidate, Decode, Parse, Pack, AllBits, Segment, NumDataCodewords;
    FittingSymbol(version, ecl, |data|);
    var bits := Padded(data, version, NumDataCodewords(version, ecl) * 8);
    DecodeCandidate(version, ecl, mask, Pack(bits));
    ParseSegment(data, version, bits);
  }

  // No two different inputs of one correction level give the same symbol.
  lemma SymbolsAreDistinct(a: seq<Byte>, b: seq<Byte>, version: nat, ecl: nat, mask: nat, mask': nat)
    requires 1 <= version <= 40 && ecl < 4 && mask < 8 && mask' < 8
    requires Fits(version, ecl, |a|) && Fits(version, ecl, |b|)
    ensures IsSymbol(version, ecl)
    ensures Candidate(version, ecl, mask, Stream(LayoutOf(version, ecl), DataCodewords(a, version, ecl)))
         == Candidate(version, ecl, mask', Stream(LayoutOf(version, ecl), DataCodewords(b, version, ecl)))
        ==> a == b && mask == mask'
  {
    hide Stream, Candidate, Decode, DataCodewords, Fits, LayoutOf;
    SymbolStandsForData(a, version, ecl, mask);
    SymbolStandsForData(b, version, ecl, mask');
    CandidateFormat(version, ecl, mask, Stream(LayoutOf(version, ecl), DataCodewords(a, version, ecl)));
    CandidateFormat(version, ecl, mask', Stream(LayoutOf(version, ecl), DataCodewords(b, version, ecl)));
  }

  // The data fit exactly when some codewords of the symbol begin with their segment.
  lemma FitsExactly(data: seq<Byte>, version: nat, ecl: nat)
    requires 1 <= version <= 40 && ecl < 4
    ensures Fits(version, ecl, |data|) <==>
      exists codewords: seq<bv8> ::
        |codewords| == NumDataCodewords(version, ecl) && Segment(data, version) <= AllBits(codewords)
  {
    hide Segment, NumDataCodewords, Pack, AllBits;
    if Fits(version, ecl, |data|) {
      var codewords := DataCodewords(data, version, ecl);
      assert Segment(data, version) <= AllBits(codewords);
    }
  }

  // The smallest symbol that holds the data, or none when no version does.
  method EncodeBytes(data: seq<Byte>, ecl: nat) returns (r: Option<QrCode>)
    requires ecl < 4
    ensures r.None? <==> forall v: nat :: 1 <= v <= 40 ==> !Fits(v, ecl, |data|)
    ensures r.Some? ==> var qr := r.value;
      && fresh(qr) && qr.Valid() && qr.ecl == ecl && 0 <= qr.mask < 8
      && Fits(qr.version, ecl, |data|) && IsSymbol(qr.version, ecl)
      && (forall v: nat :: 1 <= v < qr.version ==> !Fits(v, ecl, |data|))
      && var stream := Stream(LayoutOf(qr.version, ecl), DataCodewords(data, qr.version, ecl));
      && qr.Rows() == Candidate(qr.version, ecl, qr.mask, stream)
      && (forall m: nat | m < 8 :: PenaltyOf(qr.version, ecl, qr.mask, stream) <= PenaltyOf(qr.version, ecl, m, stream))
      && (forall m: nat | m < qr.mask :: PenaltyOf(qr.version, ecl, qr.mask, stream) < PenaltyOf(qr.version, ecl, m, stream))
      && Decode(qr.Rows()) == Some(data)
  {
    hide Stream, Candidate, PenaltyOf, Decode, NumDataCodewords, Pack, Padded, LayoutOf;
    var chosen := ChooseVersion(|data|, ecl);
    if chosen.None? {
      return None;
    }
    var version := chosen.value;
    FittingSymbol(version, ecl, |data|);
    Capacity(version, ecl);
    var bits := BuildBits(data, version, NumDataCodewords(version, ecl) * 8);
    var codewords := PackBits(bits);
    assert codewords == DataCodewords(data, version, ecl);
    var qr := MakeQr(codewords, version, ecl);
    SymbolStandsForData(data, version, ecl, qr.mask);
    r := Some(qr);
  }

  lemma Capacity(version: nat, ecl: nat)
    requires 1 <= version <= 40 && ecl < 4
    ensures NumDataCodewords(version, ecl) * 8 < 0x1_0000_0000
  {
    hide NumDataCodewords;
    CapacityBound(version, ecl);
  }
}
