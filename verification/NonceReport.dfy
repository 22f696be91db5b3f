/** What the report of blocked nonces means, and what it does not depend on. */
module NonceReport {
  import opened Basics
  import opened BlockedNonces
  import opened Sorting
  import opened WaitingRows

  // ---------- The meaning of an entry ----------

  // A row of the chain waits at the nonce: neither mined nor replaced, as far as is known.
  ghost predicate Attempt(rows: seq<Row>, r: Row, chainId: int, n: int) {
    && r in rows && r.chainId == chainId && r.nonce.Some? && r.nonce.value == n
    && (r.status == Pending || r.status == Unknown) && !r.replaced
  }

  // A row of the chain waits after the nonce.
  ghost predicate Behind(rows: seq<Row>, r: Row, chainId: int, n: int) {
    && r in rows && r.chainId == chainId && r.nonce.Some? && r.nonce.value > n
    && (r.status == Pending || r.status == Unknown) && !r.replaced
  }

  ghost predicate AboveMined(rows: seq<Row>, chainId: int, n: int) {
    forall m, k: int :: m in rows && Mines(m, chainId, k) ==> k < n
  }

  ghost predicate IsGap(stranded: seq<Gap>, g: Gap, chainId: int, n: int) {
    g in stranded && g.chainId == chainId && g.nonce.Some? && g.nonce.value == n
  }

  // A nonce stands open: above every mined one, it waits or was reserved and never sent.
  ghost predicate Standing(rows: seq<Row>, stranded: seq<Gap>, chainId: int, n: int) {
    && AboveMined(rows, chainId, n)
    && ((exists r :: Attempt(rows, r, chainId, n)) || (exists g :: IsGap(stranded, g, chainId, n)))
  }

  // The least standing nonce of a chain.
  ghost predicate IsLeastStanding(rows: seq<Row>, stranded: seq<Gap>, chainId: int, n: int) {
    Standing(rows, stranded, chainId, n) && forall k :: Standing(rows, stranded, chainId, k) ==> n <= k
  }

  ghost predicate HasAttempt(rows: seq<Row>, chainId: int, n: int) { exists r :: Attempt(rows, r, chainId, n) }

  ghost function BehindNonces(rows: seq<Row>, chainId: int, n: int): set<int> {
    set r | r in rows && Behind(rows, r, chainId, n) :: r.nonce.value
  }

  function MaxFeeOf(r: Row): Option<Wei> { r.maxFeePerGas }

  function TipOf(r: Row): Option<Wei> { r.maxPriorityFeePerGas }

  // The greatest of the attempts' values of one fee field.
  ghost predicate IsFloor(rows: seq<Row>, chainId: int, n: int, floor: Wei, fee: Row -> Option<Wei>) {
    && (exists r :: Attempt(rows, r, chainId, n) && fee(r) == Some(floor))
    && (forall r :: Attempt(rows, r, chainId, n) ==> fee(r).Some? && fee(r).value <= floor)
  }

  ghost predicate AllPriced(rows: seq<Row>, chainId: int, n: int) {
    forall r :: Attempt(rows, r, chainId, n) ==> r.maxFeePerGas.Some? && r.maxPriorityFeePerGas.Some?
  }

  // The transfer a row's own description asks for: of a token or of the native coin, with everything
  // that such a transfer needs.
  function TransferIn(m: Meta): Option<Transfer> {
    if m.kind == "erc20" && m.recipient != "" && m.amount != "" && m.token != ""
    then Some(Erc20(m.recipient, m.amount, m.token))
    else if m.kind == "native" && m.recipient != "" && m.amount != "" then Some(Native(m.recipient, m.amount))
    else None
  }

  lemma TransferIsRead(r: Row)
    ensures TransferOf(r) == TransferIn(r.meta)
  {}

  // The offer repeats the newest attempt's transfer above the fees of every attempt.
  ghost predicate IsOffer(resend: Option<Offer>, newest: Row, rows: seq<Row>, chainId: int, n: int) {
    if TransferIn(newest.meta).None? || !AllPriced(rows, chainId, n) then resend.None?
    else
      && resend.Some?
      && var o := resend.value;
      && o.transfer == TransferIn(newest.meta).value && o.chainId == chainId && o.from == newest.from && o.nonce == n
      && IsFloor(rows, chainId, n, o.floorFee, MaxFeeOf)
      && IsFloor(rows, chainId, n, o.floorTip, TipOf)
  }

  ghost predicate IsNewest(newest: Row, rows: seq<Row>, chainId: int, n: int) {
    && Attempt(rows, newest, chainId, n)
    && forall a :: Attempt(rows, a, chainId, n) ==> a.timestamp <= newest.timestamp
  }

  // An entry for a nonce that was sent: the newest attempt is old, and stalled or waited behind.
  ghost predicate IsSentEntry(e: Entry, newest: Row, rows: seq<Row>) {
    && e.since == newest.timestamp && (e.behind > 0 || newest.stalled)
    && (e.why == Unresolved <==> newest.status == Unknown)
    && (e.why == Stalled <==> newest.status != Unknown && newest.stalled)
    && e.why != Stranded
    && e.hash == newest.hash && e.caption == newest.caption && e.origin == newest.origin
    && IsOffer(e.resend, newest, rows, e.chainId, e.nonce)
  }

  // An entry for a nonce that was never sent: later sends wait, the first of them since long ago.
  ghost predicate IsGapEntry(e: Entry, rows: seq<Row>) {
    && e.why == Stranded && e.hash == "" && e.caption == "" && e.origin == "" && e.resend.None?
    && IsEarliestBehind(rows, e.chainId, e.nonce, e.since)
  }

  ghost predicate IsEarliestBehind(rows: seq<Row>, chainId: int, n: int, since: int) {
    && (exists r :: Behind(rows, r, chainId, n) && r.timestamp == since)
    && (forall r :: Behind(rows, r, chainId, n) ==> since <= r.timestamp)
  }

  // The entry says what holds of the rows and the stranded nonces, whatever their order.
  ghost predicate IsEntry(e: Entry, rows: seq<Row>, stranded: seq<Gap>, now: int) {
    && IsLeastStanding(rows, stranded, e.chainId, e.nonce)
    && e.behind == |BehindNonces(rows, e.chainId, e.nonce)|
    && now - e.since >= 180
    && if HasAttempt(rows, e.chainId, e.nonce)
       then exists newest :: IsNewest(newest, rows, e.chainId, e.nonce) && IsSentEntry(e, newest, rows)
       else IsGapEntry(e, rows)
  }

  // ---------- The parts of a report and their meaning ----------

  lemma AboveMinedIsFloor(rows: seq<Row>, chainId: int, n: int)
    ensures n >= 0 ==> (AboveMined(rows, chainId, n) <==> MinedUpTo(rows, chainId) < n)
  {
    MinedBounds(rows, chainId);
    var m := MinedUpTo(rows, chainId);
    if AboveMined(rows, chainId, n) && m >= 0 {
      var r :| r in rows && Mines(r, chainId, m);
    }
  }

  lemma CandidatesStand(rows: seq<Row>, stranded: seq<Gap>, chainId: int)
    ensures var floor := MinedUpTo(rows, chainId);
      forall n :: n in Gaps(stranded, chainId, floor) + Nonces(Waiting(rows, chainId, floor))
                  <==> Standing(rows, stranded, chainId, n)
  {
    var floor := MinedUpTo(rows, chainId);
    var waiting := Waiting(rows, chainId, floor);
    forall n
      ensures n in Gaps(stranded, chainId, floor) + Nonces(waiting) <==> Standing(rows, stranded, chainId, n)
    {
      AboveMinedIsFloor(rows, chainId, n);
      if n in Gaps(stranded, chainId, floor) {
        var g :| g in stranded && OpenGap(g, chainId, floor) && g.nonce.value == n;
        assert IsGap(stranded, g, chainId, n);
      }
      if n in Nonces(waiting) {
        var r :| r in waiting && r.nonce.Some? && r.nonce.value == n;
        assert Attempt(rows, r, chainId, n);
      }
      if Standing(rows, stranded, chainId, n) {
        if r :| Attempt(rows, r, chainId, n) {
          assert r in waiting;
        } else {
          var g :| IsGap(stranded, g, chainId, n);
          assert OpenGap(g, chainId, floor);
        }
      }
    }
  }

  lemma QueueParts(rows: seq<Row>, chainId: int, n: int)
    requires n > MinedUpTo(rows, chainId)
    ensures var waiting := Waiting(rows, chainId, MinedUpTo(rows, chainId));
      && (forall r :: r in Attempts(waiting, n) <==> Attempt(rows, r, chainId, n))
      && (forall r :: r in waiting && AfterNonce(r, n) <==> Behind(rows, r, chainId, n))
      && LaterNonces(waiting, n) == BehindNonces(rows, chainId, n)
  {}

  ghost predicate HasLater(waiting: seq<Row>, n: int) {
    exists r :: r in waiting && AfterNonce(r, n)
  }

  ghost predicate IsEarliest(waiting: seq<Row>, n: int, since: int) {
    && (exists r :: r in waiting && AfterNonce(r, n) && r.timestamp == since)
    && (forall r :: r in waiting && AfterNonce(r, n) ==> since <= r.timestamp)
  }

  ghost predicate HasNegative(waiting: seq<Row>, n: int) {
    exists r :: r in waiting && AfterNonce(r, n) && r.timestamp < 0
  }

  // A negative timestamp is found and kept; without one the result is none.
  lemma {:induction false} LaterSinceSign(waiting: seq<Row>, n: int)
    ensures if HasNegative(waiting, n) then IsEarliest(waiting, n, LaterSince(waiting, n)) else LaterSince(waiting, n) >= 0
  {
    if waiting != [] {
      var before, r := waiting[..|waiting| - 1], waiting[|waiting| - 1];
      assert waiting == before + [r];
      LaterSinceSign(before, n);
      if !AfterNonce(r, n) {
        SameLater(before, r, n);
      } else if HasNegative(before, n) {
        MinIsEarliest(before, r, n, LaterSince(before, n));
        NegativeStays(before, r, n);
      } else if r.timestamp < 0 {
        assert r in waiting;
      }
    }
  }

  lemma SameLater(before: seq<Row>, r: Row, n: int)
    requires !AfterNonce(r, n)
    ensures HasNegative(before + [r], n) <==> HasNegative(before, n)
    ensures HasLater(before + [r], n) <==> HasLater(before, n)
    ensures forall since :: IsEarliest(before + [r], n, since) <==> IsEarliest(before, n, since)
  {
    assert forall a :: a in before + [r] && AfterNonce(a, n) <==> a in before && AfterNonce(a, n);
  }

  lemma NegativeStays(before: seq<Row>, r: Row, n: int)
    requires HasNegative(before, n)
    ensures HasNegative(before + [r], n)
  {
    var a :| a in before && AfterNonce(a, n) && a.timestamp < 0;
    assert a in before + [r];
  }

  lemma MinIsEarliest(before: seq<Row>, r: Row, n: int, since: int)
    requires AfterNonce(r, n) && IsEarliest(before, n, since)
    ensures IsEarliest(before + [r], n, Min(since, r.timestamp))
  {
    var a :| a in before && AfterNonce(a, n) && a.timestamp == since;
    assert a in before + [r] && r in before + [r];
  }

  // With positive timestamps the earliest is found.
  lemma {:induction false} LaterSincePositive(waiting: seq<Row>, n: int)
    requires forall r | r in waiting && AfterNonce(r, n) :: r.timestamp > 0
    ensures if HasLater(waiting, n) then IsEarliest(waiting, n, LaterSince(waiting, n)) else LaterSince(waiting, n) == 0
  {
    if waiting != [] {
      var before, r := waiting[..|waiting| - 1], waiting[|waiting| - 1];
      assert waiting == before + [r];
      LaterSincePositive(before, n);
      if !AfterNonce(r, n) {
        SameLater(before, r, n);
      } else if HasLater(before, n) {
        MinIsEarliest(before, r, n, LaterSince(before, n));
        assert r in waiting;
      } else {
        assert r in waiting && forall a :: a in waiting && AfterNonce(a, n) ==> a == r;
      }
    }
  }

  // Timestamps of 0 leave it at none.
  lemma {:induction false} LaterSinceZero(waiting: seq<Row>, n: int)
    requires forall r | r in waiting && AfterNonce(r, n) :: r.timestamp == 0
    ensures LaterSince(waiting, n) == 0
  {
    if waiting != [] {
      var before, r := waiting[..|waiting| - 1], waiting[|waiting| - 1];
      assert waiting == before + [r];
      LaterSinceZero(before, n);
    }
  }

  // The least candidate is the least standing nonce.
  lemma LeastStands(rows: seq<Row>, stranded: seq<Gap>, chainId: int)
    ensures var floor := MinedUpTo(rows, chainId);
      var candidates := Gaps(stranded, chainId, floor) + Nonces(Waiting(rows, chainId, floor));
      && (candidates == {} <==> forall k :: !Standing(rows, stranded, chainId, k))
      && (candidates != {} ==>
            && Least(candidates) > floor
            && forall n :: n == Least(candidates) <==> IsLeastStanding(rows, stranded, chainId, n))
  {
    hide Standing;
    CandidatesStand(rows, stranded, chainId);
    var floor := MinedUpTo(rows, chainId);
    var gaps, waits := Gaps(stranded, chainId, floor), Nonces(Waiting(rows, chainId, floor));
    if gaps + waits != {} {
      var n := Least(gaps + waits);
      assert n in gaps || n in waits;
    } else {
      assert forall k :: k !in gaps + waits;
    }
  }

  // The list holds exactly the attempts at a nonce.
  ghost predicate ListsAttempts(at: seq<Row>, rows: seq<Row>, chainId: int, n: int) {
    at != [] && forall r :: r in at <==> Attempt(rows, r, chainId, n)
  }

  lemma NewestIsLatest(at: seq<Row>, rows: seq<Row>, chainId: int, n: int)
    requires ListsAttempts(at, rows, chainId, n)
    ensures IsNewest(Newest(at), rows, chainId, n)
  {}

  lemma FloorsAreGreatest(at: seq<Row>, rows: seq<Row>, chainId: int, n: int)
    requires ListsAttempts(at, rows, chainId, n)
    ensures FeesKnown(at) <==> AllPriced(rows, chainId, n)
    ensures FeesKnown(at) ==>
      && (forall f :: f == Floor(MaxFees(at)) <==> IsFloor(rows, chainId, n, f, MaxFeeOf))
      && (forall f :: f == Floor(Tips(at)) <==> IsFloor(rows, chainId, n, f, TipOf))
  {
    if FeesKnown(at) {
      GreatestFee(at, MaxFees(at), rows, chainId, n, MaxFeeOf);
      GreatestFee(at, Tips(at), rows, chainId, n, TipOf);
    }
  }

  lemma GreatestFee(at: seq<Row>, fees: seq<Wei>, rows: seq<Row>, chainId: int, n: int, fee: Row -> Option<Wei>)
    requires ListsAttempts(at, rows, chainId, n)
    requires |fees| == |at| && forall i | 0 <= i < |at| :: fee(at[i]) == Some(fees[i])
    ensures forall f :: f == Floor(fees) <==> IsFloor(rows, chainId, n, f, fee)
  {
    var floor := Floor(fees);
    forall r | Attempt(rows, r, chainId, n)
      ensures fee(r).Some? && fee(r).value <= floor
    {
      var i :| 0 <= i < |at| && at[i] == r;
      assert fees[i] in fees;
    }
    assert fees[0] in fees;
    var i :| 0 <= i < |fees| && fees[i] == floor;
    assert at[i] in at;
  }

  lemma OfferMeaning(newest: Row, at: seq<Row>, rows: seq<Row>, chainId: int, n: int)
    requires ListsAttempts(at, rows, chainId, n)
    ensures forall o :: IsOffer(o, newest, rows, chainId, n) <==> o == OfferOf(chainId, n, newest, at)
  {
    hide Floor, MaxFees, Tips, FeesKnown, AllPriced, TransferOf, TransferIn, IsFloor;
    TransferIsRead(newest);
    FloorsAreGreatest(at, rows, chainId, n);
  }

  lemma SentEntryMeaning(e: Entry, newest: Row, at: seq<Row>, rows: seq<Row>, now: int)
    requires ListsAttempts(at, rows, e.chainId, e.nonce)
    ensures now - e.since >= StuckNonceSecs && IsSentEntry(e, newest, rows)
        <==> SentEntry(e.chainId, e.nonce, e.behind, newest, at, now) == Some(e)
  {
    hide IsOffer, OfferOf;
    OfferMeaning(newest, at, rows, e.chainId, e.nonce);
  }

  // ---------- What the order of the rows can decide ----------

  // Which of two attempts is taken for the newest makes no difference to the entry.
  predicate SameOutcome(a: Row, b: Row, behind: nat, priced: bool) {
    && (behind > 0 || a.stalled <==> behind > 0 || b.stalled)
    && (behind > 0 || a.stalled ==>
          && WhyOf(a) == WhyOf(b) && a.hash == b.hash && a.caption == b.caption && a.origin == b.origin
          && (priced ==> TransferIn(a.meta) == TransferIn(b.meta) && (TransferIn(a.meta).Some? ==> a.from == b.from)))
  }

  // The newest attempts are too recent to report, or all alike in what is reported of them.
  ghost predicate NewestAgree(rows: seq<Row>, chainId: int, n: int, now: int) {
    forall a, b :: IsNewest(a, rows, chainId, n) && IsNewest(b, rows, chainId, n) ==>
      now - a.timestamp < StuckNonceSecs
      || SameOutcome(a, b, |BehindNonces(rows, chainId, n)|, AllPriced(rows, chainId, n))
  }

  // The rows behind a nonce have a negative timestamp among them, or do not mix zeros and positive ones.
  ghost predicate Unmixed(rows: seq<Row>, chainId: int, n: int) {
    || (exists r :: Behind(rows, r, chainId, n) && r.timestamp < 0)
    || (forall r :: Behind(rows, r, chainId, n) ==> r.timestamp > 0)
    || (forall r :: Behind(rows, r, chainId, n) ==> r.timestamp == 0)
  }

  // Nothing about the least standing nonce is left to the order of the rows.
  ghost predicate OrderFree(rows: seq<Row>, stranded: seq<Gap>, now: int, chainId: int) {
    forall n :: IsLeastStanding(rows, stranded, chainId, n) ==>
      if HasAttempt(rows, chainId, n) then NewestAgree(rows, chainId, n, now)
      else Unmixed(rows, chainId, n) || now < StuckNonceSecs
  }

  // Two attempts that may both be taken for the newest give one entry exactly when they agree.
  lemma OutcomesAgree(
    a: Row, b: Row, at: seq<Row>, at': seq<Row>, rows: seq<Row>, chainId: int, n: int, behind: nat, now: int)
    requires ListsAttempts(at, rows, chainId, n) && ListsAttempts(at', rows, chainId, n)
    requires IsNewest(a, rows, chainId, n) && IsNewest(b, rows, chainId, n)
    ensures SentEntry(chainId, n, behind, a, at, now) == SentEntry(chainId, n, behind, b, at', now)
        <==> now - a.timestamp < StuckNonceSecs || SameOutcome(a, b, behind, AllPriced(rows, chainId, n))
  {
    assert a.timestamp == b.timestamp;
    OffersAgree(a, b, at, at', rows, chainId, n);
    hide OfferOf, IsNewest, ListsAttempts, TransferIn, AllPriced;
  }

  lemma OffersAgree(a: Row, b: Row, at: seq<Row>, at': seq<Row>, rows: seq<Row>, chainId: int, n: int)
    requires ListsAttempts(at, rows, chainId, n) && ListsAttempts(at', rows, chainId, n)
    ensures OfferOf(chainId, n, a, at) == OfferOf(chainId, n, b, at') <==>
      (AllPriced(rows, chainId, n) ==>
        TransferIn(a.meta) == TransferIn(b.meta) && (TransferIn(a.meta).Some? ==> a.from == b.from))
  {
    hide Floor, MaxFees, Tips, FeesKnown, AllPriced, TransferOf, TransferIn, IsFloor, ListsAttempts;
    TransferIsRead(a);
    TransferIsRead(b);
    FloorsAreGreatest(at, rows, chainId, n);
    FloorsAreGreatest(at', rows, chainId, n);
    if AllPriced(rows, chainId, n) {
      assert IsFloor(rows, chainId, n, Floor(MaxFees(at)), MaxFeeOf);
      assert IsFloor(rows, chainId, n, Floor(Tips(at)), TipOf);
    }
  }

  // ---------- The report and its meaning ----------

  ghost function QueueOf(rows: seq<Row>, chainId: int): seq<Row> { Waiting(rows, chainId, MinedUpTo(rows, chainId)) }

  // The entry of a chain, in terms of its least standing nonce.
  lemma EntryAt(rows: seq<Row>, stranded: seq<Gap>, now: int, chainId: int, n: int)
    requires IsLeastStanding(rows, stranded, chainId, n)
    ensures n > MinedUpTo(rows, chainId)
    ensures var waiting := QueueOf(rows, chainId); var at := Attempts(waiting, n);
      var behind := |BehindNonces(rows, chainId, n)|;
      && (forall r :: r in waiting && AfterNonce(r, n) <==> Behind(rows, r, chainId, n))
      && (if HasAttempt(rows, chainId, n) then ListsAttempts(at, rows, chainId, n) else at == [])
      && EntryFor(rows, stranded, now, chainId)
         == if at == [] then GapEntry(chainId, n, behind, LaterSince(waiting, n), now)
            else SentEntry(chainId, n, behind, Newest(at), at, now)
  {
    hide Standing, Gaps, Nonces, Waiting, MinedUpTo, LaterNonces, LaterSince, Newest, Attempt, Behind, GapEntry, SentEntry;
    hide BehindNonces;
    LeastStands(rows, stranded, chainId);
    QueueParts(rows, chainId, n);
    var at := Attempts(QueueOf(rows, chainId), n);
    if at != [] {
      assert Attempt(rows, at[0], chainId, n);
    }
  }

  lemma NoEntry(rows: seq<Row>, stranded: seq<Gap>, now: int, chainId: int)
    ensures (forall n :: !IsLeastStanding(rows, stranded, chainId, n)) ==> EntryFor(rows, stranded, now, chainId) == None
  {
    hide Standing, Gaps, Nonces, Waiting, MinedUpTo, IsLeastStanding;
    LeastStands(rows, stranded, chainId);
    var floor := MinedUpTo(rows, chainId);
    var candidates := Gaps(stranded, chainId, floor) + Nonces(Waiting(rows, chainId, floor));
    if candidates != {} {
      assert IsLeastStanding(rows, stranded, chainId, Least(candidates));
    }
  }

  // The timestamp a gap is reported since is the earliest behind it, unless zeros and positive ones mix.
  lemma SinceMeaning(rows: seq<Row>, stranded: seq<Gap>, chainId: int, n: int)
    requires IsLeastStanding(rows, stranded, chainId, n)
    ensures var since := LaterSince(QueueOf(rows, chainId), n);
      && (Unmixed(rows, chainId, n) && (exists r :: Behind(rows, r, chainId, n)) ==> IsEarliestBehind(rows, chainId, n, since))
      && ((forall r :: Behind(rows, r, chainId, n) ==> r.timestamp >= 0) ==> since >= 0)
  {
    EntryAt(rows, stranded, 0, chainId, n);
    hide Behind, QueueOf, LaterSince, AfterNonce, IsLeastStanding, Attempts, BehindNonces, EntryFor, ListsAttempts, HasAttempt;
    SinceOfQueue(QueueOf(rows, chainId), rows, chainId, n);
  }

  lemma SinceOfQueue(waiting: seq<Row>, rows: seq<Row>, chainId: int, n: int)
    requires forall r :: r in waiting && AfterNonce(r, n) <==> Behind(rows, r, chainId, n)
    ensures var since := LaterSince(waiting, n);
      && (Unmixed(rows, chainId, n) && (exists r :: Behind(rows, r, chainId, n)) ==> IsEarliestBehind(rows, chainId, n, since))
      && ((forall r :: Behind(rows, r, chainId, n) ==> r.timestamp >= 0) ==> since >= 0)
  {
    hide Behind, LaterSince, AfterNonce;
    LaterSinceSign(waiting, n);
    if forall r :: Behind(rows, r, chainId, n) ==> r.timestamp > 0 {
      LaterSincePositive(waiting, n);
    } else if forall r :: Behind(rows, r, chainId, n) ==> r.timestamp == 0 {
      LaterSinceZero(waiting, n);
    }
  }

  lemma BehindIff(rows: seq<Row>, chainId: int, n: int)
    ensures |BehindNonces(rows, chainId, n)| > 0 <==> exists r :: Behind(rows, r, chainId, n)
  {
    if r :| Behind(rows, r, chainId, n) {
      assert r.nonce.value in BehindNonces(rows, chainId, n);
    }
  }

  lemma SentIsTrue(e: Entry, rows: seq<Row>, stranded: seq<Gap>, now: int)
    requires IsLeastStanding(rows, stranded, e.chainId, e.nonce) && HasAttempt(rows, e.chainId, e.nonce)
    ensures EntryFor(rows, stranded, now, e.chainId) == Some(e) ==> IsEntry(e, rows, stranded, now)
    ensures NewestAgree(rows, e.chainId, e.nonce, now) && IsEntry(e, rows, stranded, now)
        ==> EntryFor(rows, stranded, now, e.chainId) == Some(e)
  {
    hide IsLeastStanding, HasAttempt, QueueOf, Attempts, LaterSince, IsNewest, IsSentEntry, ListsAttempts, EntryFor, SentEntry;
    hide BehindNonces, AllPriced, SameOutcome;
    var c, n := e.chainId, e.nonce;
    EntryAt(rows, stranded, now, c, n);
    var at := Attempts(QueueOf(rows, c), n);
    ListsSome(at, rows, c, n);
    var newest := Newest(at);
    NewestIsLatest(at, rows, c, n);
    SentBehind(c, n, |BehindNonces(rows, c, n)|, newest, at, now);
    if e.behind == |BehindNonces(rows, c, n)| {
      SentEntryMeaning(e, newest, at, rows, now);
      forall b | IsNewest(b, rows, c, n)
        ensures now - e.since >= StuckNonceSecs && IsSentEntry(e, b, rows) <==> SentEntry(c, n, e.behind, b, at, now) == Some(e)
        ensures SentEntry(c, n, e.behind, newest, at, now) == SentEntry(c, n, e.behind, b, at, now)
            <==> now - newest.timestamp < StuckNonceSecs || SameOutcome(newest, b, e.behind, AllPriced(rows, c, n))
      {
        SentEntryMeaning(e, b, at, rows, now);
        OutcomesAgree(newest, b, at, at, rows, c, n, e.behind, now);
      }
    }
  }

  lemma ListsSome(at: seq<Row>, rows: seq<Row>, chainId: int, n: int)
    ensures ListsAttempts(at, rows, chainId, n) ==> at != []
  {}

  lemma SentBehind(chainId: int, n: int, behind: nat, newest: Row, at: seq<Row>, now: int)
    ensures var e := SentEntry(chainId, n, behind, newest, at, now);
      e.Some? ==> e.value.behind == behind && e.value.nonce == n && e.value.chainId == chainId
  {}

  lemma GapIsTrue(e: Entry, rows: seq<Row>, stranded: seq<Gap>, now: int)
    requires IsLeastStanding(rows, stranded, e.chainId, e.nonce) && !HasAttempt(rows, e.chainId, e.nonce)
    requires Unmixed(rows, e.chainId, e.nonce) || now < StuckNonceSecs
    ensures EntryFor(rows, stranded, now, e.chainId) == Some(e) <==> IsEntry(e, rows, stranded, now)
  {
    hide IsLeastStanding, HasAttempt, QueueOf, Attempts, LaterSince, EntryFor, BehindNonces, Behind;
    var c, n := e.chainId, e.nonce;
    EntryAt(rows, stranded, now, c, n);
    SinceMeaning(rows, stranded, c, n);
    BehindIff(rows, c, n);
  }

  // An entry of a nonce that was sent is true of the rows. Where nothing is left to their order, an
  // entry is in the report exactly when it is true.
  lemma EntryIsTrue(e: Entry, rows: seq<Row>, stranded: seq<Gap>, now: int)
    ensures EntryFor(rows, stranded, now, e.chainId) == Some(e) && HasAttempt(rows, e.chainId, e.nonce)
        ==> IsEntry(e, rows, stranded, now)
    ensures OrderFree(rows, stranded, now, e.chainId)
        ==> (EntryFor(rows, stranded, now, e.chainId) == Some(e) <==> IsEntry(e, rows, stranded, now))
  {
    hide IsLeastStanding, HasAttempt, EntryFor, NewestAgree, Unmixed;
    var c, n := e.chainId, e.nonce;
    if !IsLeastStanding(rows, stranded, c, n) {
      EntryNonce(rows, stranded, now, c);
      assert !IsEntry(e, rows, stranded, now);
    } else if HasAttempt(rows, c, n) {
      SentIsTrue(e, rows, stranded, now);
    } else if Unmixed(rows, c, n) || now < StuckNonceSecs {
      GapIsTrue(e, rows, stranded, now);
    }
  }

  // Whatever the rows, an entry names the least standing nonce and counts what waits behind it.
  lemma EntryNonce(rows: seq<Row>, stranded: seq<Gap>, now: int, chainId: int)
    ensures var e := EntryFor(rows, stranded, now, chainId);
      e.Some? ==>
        && e.value.chainId == chainId && IsLeastStanding(rows, stranded, chainId, e.value.nonce)
        && e.value.behind == |BehindNonces(rows, chainId, e.value.nonce)|
  {
    hide IsLeastStanding, EntryFor, BehindNonces, Attempts, LaterSince, Newest, QueueOf, HasAttempt, ListsAttempts;
    NoEntry(rows, stranded, now, chainId);
    if n :| IsLeastStanding(rows, stranded, chainId, n) {
      EntryAt(rows, stranded, now, chainId, n);
      var at := Attempts(QueueOf(rows, chainId), n);
      if at != [] {
        SentBehind(chainId, n, |BehindNonces(rows, chainId, n)|, Newest(at), at, now);
      }
    }
  }

  // ---------- What the report does not depend on ----------

  // Once reported, an entry stays as it is until the rows or the stranded nonces change.
  lemma EntriesPersist(rows: seq<Row>, stranded: seq<Gap>, now: int, later: int, chainId: int)
    requires now <= later && EntryFor(rows, stranded, now, chainId).Some?
    ensures EntryFor(rows, stranded, later, chainId) == EntryFor(rows, stranded, now, chainId)
  {
    hide Gaps, Nonces, Waiting, MinedUpTo, Attempts, LaterNonces, LaterSince, Newest, OfferOf;
  }

  // ---------- Flagging replaced rows changes no report ----------

  lemma MarkedWaits(rows: seq<Row>, chainId: int, r: Row)
    requires r in rows && WaitsAbove(r, chainId, MinedUpTo(rows, chainId))
    ensures !Superseded(rows, r)
  {
    MinedBounds(rows, chainId);
  }

  // Two lists that agree on what waits have the same rows waiting.
  lemma {:induction false} SameWaiting(a: seq<Row>, b: seq<Row>, chainId: int, floor: int)
    requires |a| == |b|
    requires forall i | 0 <= i < |a| ::
      && (WaitsAbove(a[i], chainId, floor) <==> WaitsAbove(b[i], chainId, floor))
      && (WaitsAbove(a[i], chainId, floor) ==> a[i] == b[i])
    ensures Waiting(a, chainId, floor) == Waiting(b, chainId, floor)
  {
    if a != [] {
      SameWaiting(a[..|a| - 1], b[..|b| - 1], chainId, floor);
    }
  }

  lemma MarkingChangesNoEntry(rows: seq<Row>, stranded: seq<Gap>, now: int, chainId: int)
    ensures EntryFor(Marked(rows), stranded, now, chainId) == EntryFor(rows, stranded, now, chainId)
  {
    hide ChainEntry, Gaps;
    MarkedMinedUpTo(rows, chainId);
    var floor := MinedUpTo(rows, chainId);
    forall i | 0 <= i < |rows| && WaitsAbove(rows[i], chainId, floor)
      ensures Marked(rows)[i] == rows[i]
    {
      MarkedWaits(rows, chainId, rows[i]);
    }
    SameWaiting(Marked(rows), rows, chainId, floor);
  }

  lemma MarkingChangesNoReport(rows: seq<Row>, stranded: seq<Gap>, now: int, out: seq<Entry>)
    ensures Reports(out, Marked(rows), stranded, now) <==> Reports(out, rows, stranded, now)
  {
    hide EntryFor, Marked;
    forall e: Entry
      ensures EntryFor(Marked(rows), stranded, now, e.chainId) == EntryFor(rows, stranded, now, e.chainId)
    {
      MarkingChangesNoEntry(rows, stranded, now, e.chainId);
    }
  }
}
