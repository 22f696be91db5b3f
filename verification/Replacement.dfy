/** Pricing a replacement for a blocked nonce. */
module Replacement {
  import opened Basics
  import opened BlockedNonces
  import opened NonceReport
  import opened WaitingRows

  datatype Fees = Fees(maxFeePerGas: Wei, maxPriorityFeePerGas: Wei)

  datatype PriceError = NoCurrentFee | UnreadableFloor | FloorOutOfRange

  datatype Priced = Ok(fees: Fees) | Err(error: PriceError)

  // 10^9 gwei per gas.
  const MaxBumpable: Wei := 1_000_000_000_000_000_000

  // More than the fee it replaces, and at least a tenth more. No 64-bit overflow is possible.
  function Bump(x: Wei): Wei
    requires x <= MaxBumpable
  {
    x + x / 10 + 1
  }

  // The current fees, raised to where nodes accept a replacement. A fee that cannot be read is None.
  function ReplacementFees(tierFee: Option<Wei>, tierTip: Option<Wei>, floorFee: Option<Wei>, floorTip: Option<Wei>): Priced {
    if tierFee.None? || tierTip.None? then Err(NoCurrentFee)
    else if floorFee.None? || floorTip.None? then Err(UnreadableFloor)
    else if floorFee.value > MaxBumpable || floorTip.value > MaxBumpable then Err(FloorOutOfRange)
    else
      var tip := MaxWei(tierTip.value, Bump(floorTip.value));
      Ok(Fees(MaxWei(MaxWei(tierFee.value, Bump(floorFee.value)), tip), tip))
  }

  datatype Request = Request(offer: Offer, fees: Fees)

  function ResendRequest(e: Entry, priced: Priced): Option<Request> {
    if e.resend.None? || priced.Err? then None else Some(Request(e.resend.value, priced.fees))
  }

  // What nodes demand of a replacement: strictly more, and at least 110%.
  predicate Outbids(fee: int, standing: int) { fee > standing && 10 * fee >= 11 * standing }

  predicate FeesOutbid(fees: Fees, r: Row) {
    && r.maxFeePerGas.Some? && Outbids(fees.maxFeePerGas as int, r.maxFeePerGas.value as int)
    && r.maxPriorityFeePerGas.Some? && Outbids(fees.maxPriorityFeePerGas as int, r.maxPriorityFeePerGas.value as int)
  }

  // The bump outbids, and overshoots the least fee that does by 1 at most, exactly on multiples of ten.
  lemma BumpIsTight(x: Wei, fee: int)
    requires x <= MaxBumpable
    ensures Outbids(Bump(x) as int, x as int)
    ensures Outbids(fee, x as int) ==> fee >= Bump(x) as int - 1
    ensures Outbids(Bump(x) as int - 1, x as int) <==> x > 0 && x % 10 == 0
  {}

  lemma OutbidsTransfers(fee: int, fee': int, standing: int, below: int)
    requires Outbids(fee, standing) && fee <= fee' && 0 <= below <= standing
    ensures Outbids(fee', below)
  {}

  // The fees are the least pair at or above the market and both bumps whose tip does not exceed its fee.
  lemma FeesAreLeast(tierFee: Wei, tierTip: Wei, floorFee: Wei, floorTip: Wei, fee: Wei, tip: Wei)
    requires floorFee <= MaxBumpable && floorTip <= MaxBumpable
    ensures var priced := ReplacementFees(Some(tierFee), Some(tierTip), Some(floorFee), Some(floorTip));
      && priced.Ok?
      && ((fee >= tierFee && tip >= tierTip && fee >= Bump(floorFee) && tip >= Bump(floorTip) && tip <= fee)
          <==> (fee >= priced.fees.maxFeePerGas && tip >= priced.fees.maxPriorityFeePerGas && tip <= fee))
      && priced.fees.maxPriorityFeePerGas <= priced.fees.maxFeePerGas
  {}

  // The offer of a reported entry has the fees of every attempt at its nonce below its floors.
  lemma OfferCoversAttempts(rows: seq<Row>, stranded: seq<Gap>, now: int, e: Entry, r: Row)
    requires EntryFor(rows, stranded, now, e.chainId) == Some(e) && e.resend.Some?
    requires Attempt(rows, r, e.chainId, e.nonce)
    ensures r.maxFeePerGas.Some? && r.maxFeePerGas.value <= e.resend.value.floorFee
    ensures r.maxPriorityFeePerGas.Some? && r.maxPriorityFeePerGas.value <= e.resend.value.floorTip
    ensures e.resend.value.nonce == e.nonce && e.resend.value.chainId == e.chainId
  {
    hide Gaps, Nonces, Waiting, MinedUpTo, Attempts, LaterNonces, LaterSince, Newest, Floor, MaxFees, Tips, FeesKnown;
    hide Standing, TransferOf;
    var floor := MinedUpTo(rows, e.chainId);
    var waiting := Waiting(rows, e.chainId, floor);
    LeastStands(rows, stranded, e.chainId);
    QueueParts(rows, e.chainId, e.nonce);
    var at := Attempts(waiting, e.nonce);
    assert Attempt(rows, r, e.chainId, e.nonce);
    FloorsAreGreatest(at, rows, e.chainId, e.nonce);
    assert IsFloor(rows, e.chainId, e.nonce, e.resend.value.floorFee, MaxFeeOf);
    assert IsFloor(rows, e.chainId, e.nonce, e.resend.value.floorTip, TipOf);
    assert MaxFeeOf(r) == r.maxFeePerGas && TipOf(r) == r.maxPriorityFeePerGas;
  }

  // There is a request exactly when the entry has an offer, every fee can be read and the floors are in
  // range; it is that offer, at fees no less than the current ones and the bumps.
  lemma RequestExactly(
    e: Entry, tierFee: Option<Wei>, tierTip: Option<Wei>, floorFee: Option<Wei>, floorTip: Option<Wei>)
    ensures var request := ResendRequest(e, ReplacementFees(tierFee, tierTip, floorFee, floorTip));
      && (request.Some? <==>
            && e.resend.Some? && tierFee.Some? && tierTip.Some? && floorFee.Some? && floorTip.Some?
            && floorFee.value <= 1_000_000_000_000_000_000 && floorTip.value <= 1_000_000_000_000_000_000)
      && (request.Some? ==> request.value.offer == e.resend.value)
  {}

  // Why there is no price: the current fees cannot be read, else those replaced cannot, else these are
  // out of range.
  lemma RefusalsExactly(tierFee: Option<Wei>, tierTip: Option<Wei>, floorFee: Option<Wei>, floorTip: Option<Wei>)
    ensures var priced := ReplacementFees(tierFee, tierTip, floorFee, floorTip);
      var current, replaced := tierFee.Some? && tierTip.Some?, floorFee.Some? && floorTip.Some?;
      && (priced == Err(NoCurrentFee) <==> !current)
      && (priced == Err(UnreadableFloor) <==> current && !replaced)
      && (priced == Err(FloorOutOfRange) <==>
            current && replaced && !(floorFee.value as int <= 1_000_000_000_000_000_000
                                     && floorTip.value as int <= 1_000_000_000_000_000_000))
  {}

  // A resend that is priced replaces: it takes the blocked nonce, outbids every attempt waiting there,
  // and sends the transfer that a newest attempt describes, from its account.
  lemma ResendOutbidsEveryAttempt(
    rows: seq<Row>, stranded: seq<Gap>, now: int, out: seq<Entry>, e: Entry, tierFee: Option<Wei>, tierTip: Option<Wei>)
    requires Reports(out, rows, stranded, now) && e in out && e.resend.Some?
    requires var o := e.resend.value;
      ResendRequest(e, ReplacementFees(tierFee, tierTip, Some(o.floorFee), Some(o.floorTip))).Some?
    ensures var o := e.resend.value;
      var request := ResendRequest(e, ReplacementFees(tierFee, tierTip, Some(o.floorFee), Some(o.floorTip))).value;
      && request.offer.nonce == e.nonce && request.offer.chainId == e.chainId
      && request.fees.maxPriorityFeePerGas <= request.fees.maxFeePerGas
      && tierFee.Some? && request.fees.maxFeePerGas >= tierFee.value
      && tierTip.Some? && request.fees.maxPriorityFeePerGas >= tierTip.value
      && (forall r :: Attempt(rows, r, e.chainId, e.nonce) ==> FeesOutbid(request.fees, r))
      && exists r :: IsNewest(r, rows, e.chainId, e.nonce)
                     && TransferIn(r.meta) == Some(request.offer.transfer) && r.from == request.offer.from
  {
    hide EntryFor, Outbids, TransferIn, Attempt, IsNewest;
    var o := e.resend.value;
    OfferRepeatsAttempt(rows, stranded, now, e);
    RequestExactly(e, tierFee, tierTip, Some(o.floorFee), Some(o.floorTip));
    var fees := ReplacementFees(tierFee, tierTip, Some(o.floorFee), Some(o.floorTip)).fees;
    BumpIsTight(o.floorFee, 0);
    BumpIsTight(o.floorTip, 0);
    forall r | Attempt(rows, r, e.chainId, e.nonce)
      ensures FeesOutbid(fees, r)
    {
      OfferCoversAttempts(rows, stranded, now, e, r);
      OutbidsTransfers(Bump(o.floorFee) as int, fees.maxFeePerGas as int, o.floorFee as int, r.maxFeePerGas.value as int);
      OutbidsTransfers(
        Bump(o.floorTip) as int, fees.maxPriorityFeePerGas as int, o.floorTip as int, r.maxPriorityFeePerGas.value as int);
    }
  }

  lemma OfferRepeatsAttempt(rows: seq<Row>, stranded: seq<Gap>, now: int, e: Entry)
    requires EntryFor(rows, stranded, now, e.chainId) == Some(e) && e.resend.Some?
    ensures e.resend.value.nonce == e.nonce && e.resend.value.chainId == e.chainId
    ensures exists r :: IsNewest(r, rows, e.chainId, e.nonce)
                        && TransferIn(r.meta) == Some(e.resend.value.transfer) && r.from == e.resend.value.from
  {
    hide Gaps, Nonces, Waiting, MinedUpTo, Attempts, LaterNonces, LaterSince, Newest, Floor, MaxFees, Tips, FeesKnown;
    hide Standing, TransferOf;
    var floor := MinedUpTo(rows, e.chainId);
    LeastStands(rows, stranded, e.chainId);
    QueueParts(rows, e.chainId, e.nonce);
    var newest := Newest(Attempts(Waiting(rows, e.chainId, floor), e.nonce));
    assert Attempt(rows, newest, e.chainId, e.nonce);
    TransferIsRead(newest);
    NewestIsLatest(Attempts(Waiting(rows, e.chainId, floor), e.nonce), rows, e.chainId, e.nonce);
  }
}
