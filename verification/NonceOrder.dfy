/** Exactly when the report of blocked nonces does not depend on the order of the rows. */
module NonceOrder {
  import opened Basics
  import opened BlockedNonces
  import opened NonceReport
  import opened Sorting
  import opened WaitingRows

  ghost predicate SameMembers<T(!new)>(a: seq<T>, b: seq<T>) { forall x :: x in a <==> x in b }

  // The same elements as often, in some order.
  ghost predicate IsReordering<T(!new)>(a: seq<T>, b: seq<T>) { multiset(a) == multiset(b) }

  lemma ReorderingMembers<T(!new)>(a: seq<T>, b: seq<T>)
    requires IsReordering(a, b)
    ensures SameMembers(a, b)
  {
    forall x
      ensures x in a <==> x in b
    {
      assert x in a <==> x in multiset(a);
      assert x in b <==> x in multiset(b);
    }
  }

  // No reordering changes the entry of the chain.
  ghost predicate Fixed(rows: seq<Row>, stranded: seq<Gap>, now: int, chainId: int) {
    forall rows', stranded' | IsReordering(rows, rows') && IsReordering(stranded, stranded') ::
      EntryFor(rows', stranded', now, chainId) == EntryFor(rows, stranded, now, chainId)
  }

  // ---------- The condition is enough ----------

  lemma SamePredicates(rows: seq<Row>, rows': seq<Row>, stranded: seq<Gap>, stranded': seq<Gap>, chainId: int, nonce: int)
    requires SameMembers(rows, rows') && SameMembers(stranded, stranded')
    ensures forall r :: Attempt(rows, r, chainId, nonce) <==> Attempt(rows', r, chainId, nonce)
    ensures forall r :: Behind(rows, r, chainId, nonce) <==> Behind(rows', r, chainId, nonce)
    ensures BehindNonces(rows, chainId, nonce) == BehindNonces(rows', chainId, nonce)
    ensures forall n :: Standing(rows, stranded, chainId, n) <==> Standing(rows', stranded', chainId, n)
  {
    forall n
      ensures Standing(rows, stranded, chainId, n) <==> Standing(rows', stranded', chainId, n)
    {
      assert forall r :: Attempt(rows, r, chainId, n) <==> Attempt(rows', r, chainId, n);
      assert forall g :: IsGap(stranded, g, chainId, n) <==> IsGap(stranded', g, chainId, n);
      assert AboveMined(rows, chainId, n) <==> AboveMined(rows', chainId, n);
      hide Attempt, IsGap, AboveMined;
    }
  }

  lemma SameLeast(rows: seq<Row>, rows': seq<Row>, stranded: seq<Gap>, stranded': seq<Gap>, chainId: int)
    requires SameMembers(rows, rows') && SameMembers(stranded, stranded')
    ensures forall n :: IsLeastStanding(rows, stranded, chainId, n) <==> IsLeastStanding(rows', stranded', chainId, n)
  {
    SamePredicates(rows, rows', stranded, stranded', chainId, 0);
    hide Standing;
  }

  // Neither the order of the rows nor the number of their copies decides anything.
  lemma OrderFreeSuffices(
    rows: seq<Row>, rows': seq<Row>, stranded: seq<Gap>, stranded': seq<Gap>, now: int, chainId: int)
    requires SameMembers(rows, rows') && SameMembers(stranded, stranded') && OrderFree(rows, stranded, now, chainId)
    ensures EntryFor(rows', stranded', now, chainId) == EntryFor(rows, stranded, now, chainId)
  {
    hide IsLeastStanding, EntryFor, HasAttempt, NewestAgree, Unmixed, SameMembers;
    SameLeast(rows, rows', stranded, stranded', chainId);
    if n :| IsLeastStanding(rows, stranded, chainId, n) {
      if HasAttempt(rows, chainId, n) {
        AgreedIsSame(rows, rows', stranded, stranded', now, chainId, n);
      } else {
        UnmixedIsSame(rows, rows', stranded, stranded', now, chainId, n);
      }
    } else {
      NoEntry(rows, stranded, now, chainId);
      NoEntry(rows', stranded', now, chainId);
    }
  }

  lemma SameAttempts(rows: seq<Row>, rows': seq<Row>, chainId: int, n: int)
    requires forall r :: Attempt(rows, r, chainId, n) <==> Attempt(rows', r, chainId, n)
    ensures HasAttempt(rows, chainId, n) <==> HasAttempt(rows', chainId, n)
    ensures forall at :: ListsAttempts(at, rows, chainId, n) <==> ListsAttempts(at, rows', chainId, n)
    ensures forall r :: IsNewest(r, rows, chainId, n) <==> IsNewest(r, rows', chainId, n)
  {
    hide Attempt;
  }

  lemma AgreedIsSame(
    rows: seq<Row>, rows': seq<Row>, stranded: seq<Gap>, stranded': seq<Gap>, now: int, chainId: int, n: int)
    requires SameMembers(rows, rows') && SameMembers(stranded, stranded')
    requires IsLeastStanding(rows, stranded, chainId, n) && IsLeastStanding(rows', stranded', chainId, n)
    requires HasAttempt(rows, chainId, n) && NewestAgree(rows, chainId, n, now)
    ensures EntryFor(rows', stranded', now, chainId) == EntryFor(rows, stranded, now, chainId)
  {
    SamePredicates(rows, rows', stranded, stranded', chainId, n);
    hide IsLeastStanding, EntryFor, SameMembers, Attempt, Behind, QueueOf, Attempts, BehindNonces, Standing, LaterSince;
    SameAttempts(rows, rows', chainId, n);
    hide HasAttempt, IsNewest, SentEntry, SameOutcome, AllPriced;
    EntryAt(rows, stranded, now, chainId, n);
    EntryAt(rows', stranded', now, chainId, n);
    var at, at' := Attempts(QueueOf(rows, chainId), n), Attempts(QueueOf(rows', chainId), n);
    ListsSome(at, rows, chainId, n);
    ListsSome(at', rows, chainId, n);
    hide ListsAttempts;
    NewestIsLatest(at, rows, chainId, n);
    NewestIsLatest(at', rows, chainId, n);
    OutcomesAgree(Newest(at), Newest(at'), at, at', rows, chainId, n, |BehindNonces(rows, chainId, n)|, now);
  }

  lemma UnmixedIsSame(
    rows: seq<Row>, rows': seq<Row>, stranded: seq<Gap>, stranded': seq<Gap>, now: int, chainId: int, n: int)
    requires SameMembers(rows, rows') && SameMembers(stranded, stranded')
    requires IsLeastStanding(rows, stranded, chainId, n) && IsLeastStanding(rows', stranded', chainId, n)
    requires !HasAttempt(rows, chainId, n) && (Unmixed(rows, chainId, n) || now < StuckNonceSecs)
    ensures EntryFor(rows', stranded', now, chainId) == EntryFor(rows, stranded, now, chainId)
  {
    SamePredicates(rows, rows', stranded, stranded', chainId, n);
    hide IsLeastStanding, EntryFor, SameMembers, Attempt, Behind, QueueOf, Attempts, BehindNonces, Standing, LaterSince;
    SameAttempts(rows, rows', chainId, n);
    hide HasAttempt, ListsAttempts, IsNewest;
    EntryAt(rows, stranded, now, chainId, n);
    EntryAt(rows', stranded', now, chainId, n);
    SinceMeaning(rows, stranded, chainId, n);
    SinceMeaning(rows', stranded', chainId, n);
    BehindIff(rows, chainId, n);
    SameSince(rows, rows', chainId, n);
    hide Unmixed, IsEarliestBehind, GapEntry;
    GapsAgree(chainId, n, |BehindNonces(rows, chainId, n)|, LaterSince(QueueOf(rows, chainId), n),
              LaterSince(QueueOf(rows', chainId), n), now);
  }

  lemma SameSince(rows: seq<Row>, rows': seq<Row>, chainId: int, n: int)
    requires forall r :: Behind(rows, r, chainId, n) <==> Behind(rows', r, chainId, n)
    ensures Unmixed(rows, chainId, n) <==> Unmixed(rows', chainId, n)
    ensures !Unmixed(rows, chainId, n) ==> forall r :: Behind(rows, r, chainId, n) ==> r.timestamp >= 0
    ensures forall a, b :: IsEarliestBehind(rows, chainId, n, a) && IsEarliestBehind(rows', chainId, n, b) ==> a == b
  {
    hide Behind;
  }

  lemma GapsAgree(chainId: int, n: int, behind: nat, a: int, b: int, now: int)
    requires behind == 0 || a == b || (now < StuckNonceSecs && a >= 0 && b >= 0)
    ensures GapEntry(chainId, n, behind, a, now) == GapEntry(chainId, n, behind, b, now)
  {}

  // ---------- The condition is needed ----------

  // The rows with one of them taken out.
  function Without(rows: seq<Row>, i: nat): seq<Row>
    requires i < |rows|
  {
    rows[..i] + rows[i + 1..]
  }

  lemma FrontAndBack(rows: seq<Row>, i: nat)
    requires i < |rows|
    ensures IsReordering(rows, [rows[i]] + Without(rows, i)) && IsReordering(rows, Without(rows, i) + [rows[i]])
  {
    assert rows == rows[..i] + [rows[i]] + rows[i + 1..];
  }

  lemma {:induction false} WaitingCons(t: Row, rows: seq<Row>, chainId: int, floor: int)
    ensures Waiting([t] + rows, chainId, floor)
         == (if WaitsAbove(t, chainId, floor) then [t] else []) + Waiting(rows, chainId, floor)
  {
    if rows == [] {
      assert ([t] + [])[..0] == [];
    } else {
      assert ([t] + rows)[..|rows|] == [t] + rows[..|rows| - 1];
      WaitingCons(t, rows[..|rows| - 1], chainId, floor);
    }
  }

  lemma WaitingSnoc(rows: seq<Row>, t: Row, chainId: int, floor: int)
    ensures Waiting(rows + [t], chainId, floor)
         == Waiting(rows, chainId, floor) + if WaitsAbove(t, chainId, floor) then [t] else []
  {
    assert (rows + [t])[..|rows|] == rows;
  }

  lemma AttemptsSnoc(waiting: seq<Row>, r: Row, n: int)
    ensures Attempts(waiting + [r], n) == Attempts(waiting, n) + if AtNonce(r, n) then [r] else []
  {
    assert (waiting + [r])[..|waiting|] == waiting;
  }

  lemma {:induction false} AttemptsCons(t: Row, waiting: seq<Row>, n: int)
    requires AtNonce(t, n)
    ensures Attempts([t] + waiting, n) == [t] + Attempts(waiting, n)
  {
    hide Attempts;
    if waiting == [] {
      AttemptsSnoc([], t, n);
      NoAttempts(n);
      assert [] + [t] == [t] + [];
    } else {
      var before, last := waiting[..|waiting| - 1], waiting[|waiting| - 1];
      assert waiting == before + [last] && [t] + waiting == ([t] + before) + [last];
      AttemptsCons(t, before, n);
      AttemptsSnoc(before, last, n);
      AttemptsSnoc([t] + before, last, n);
    }
  }

  lemma NoAttempts(n: int)
    ensures Attempts([], n) == []
  {}

  lemma {:induction false} NewestCons(t: Row, rest: seq<Row>)
    requires forall a | a in rest :: a.timestamp <= t.timestamp
    ensures Newest([t] + rest) == t
  {
    if rest != [] {
      var before, last := rest[..|rest| - 1], rest[|rest| - 1];
      assert [t] + rest == ([t] + before) + [last];
      assert last in rest && forall a :: a in before ==> a in rest;
      NewestCons(t, before);
      NewestSnoc([t] + before, last);
    }
  }

  // Put first, any newest attempt is taken for the newest.
  lemma FirstDecides(rows: seq<Row>, stranded: seq<Gap>, now: int, chainId: int, n: int, t: Row)
    returns (rows': seq<Row>, at: seq<Row>)
    requires IsLeastStanding(rows, stranded, chainId, n) && IsNewest(t, rows, chainId, n)
    ensures IsReordering(rows, rows') && ListsAttempts(at, rows, chainId, n)
    ensures EntryFor(rows', stranded, now, chainId)
         == SentEntry(chainId, n, |BehindNonces(rows, chainId, n)|, t, at, now)
  {
    var i :| 0 <= i < |rows| && rows[i] == t;
    var rest := Without(rows, i);
    rows' := [t] + rest;
    FrontAndBack(rows, i);
    ReorderingMembers(rows, rows');
    SameLeast(rows, rows', stranded, stranded, chainId);
    SamePredicates(rows, rows', stranded, stranded, chainId, n);
    SameAttempts(rows, rows', chainId, n);
    EntryAt(rows', stranded, now, chainId, n);
    var floor := MinedUpTo(rows', chainId);
    at := Attempts(QueueOf(rows', chainId), n);
    WaitingCons(t, rest, chainId, floor);
    AttemptsCons(t, Waiting(rest, chainId, floor), n);
    hide IsLeastStanding, EntryFor, SameMembers, Behind, Attempts, BehindNonces, Standing, LaterSince, Waiting, MinedUpTo;
    hide SentEntry, GapEntry, IsReordering, Without;
    var others := Attempts(Waiting(rest, chainId, floor), n);
    assert at == [t] + others;
    forall a | a in others
      ensures a.timestamp <= t.timestamp
    {
      assert a in at;
    }
    NewestCons(t, others);
  }

  lemma NewestMustAgree(rows: seq<Row>, stranded: seq<Gap>, now: int, chainId: int, n: int)
    requires Fixed(rows, stranded, now, chainId) && IsLeastStanding(rows, stranded, chainId, n)
    ensures NewestAgree(rows, chainId, n, now)
  {
    hide IsLeastStanding, EntryFor, IsNewest, BehindNonces, SentEntry, SameOutcome, AllPriced, IsReordering, ListsAttempts;
    forall a, b | IsNewest(a, rows, chainId, n) && IsNewest(b, rows, chainId, n)
      ensures now - a.timestamp < StuckNonceSecs
              || SameOutcome(a, b, |BehindNonces(rows, chainId, n)|, AllPriced(rows, chainId, n))
    {
      var rows1, at1 := FirstDecides(rows, stranded, now, chainId, n, a);
      var rows2, at2 := FirstDecides(rows, stranded, now, chainId, n, b);
      SameOrder(stranded);
      assert EntryFor(rows1, stranded, now, chainId) == EntryFor(rows2, stranded, now, chainId);
      OutcomesAgree(a, b, at1, at2, rows, chainId, n, |BehindNonces(rows, chainId, n)|, now);
    }
  }

  lemma SameOrder<T(!new)>(a: seq<T>)
    ensures IsReordering(a, a)
  {}

  lemma LaterSnoc(waiting: seq<Row>, r: Row, n: int)
    ensures var since := LaterSince(waiting, n);
      LaterSince(waiting + [r], n)
      == if !AfterNonce(r, n) then since else if since == 0 then r.timestamp else Min(since, r.timestamp)
  {
    assert (waiting + [r])[..|waiting|] == waiting;
  }

  // Put last, a row behind a gap decides whether it is since 0 or since some positive time.
  lemma LastDecides(rows: seq<Row>, stranded: seq<Gap>, now: int, chainId: int, n: int, t: Row)
    returns (rows': seq<Row>, since: int)
    requires IsLeastStanding(rows, stranded, chainId, n) && !HasAttempt(rows, chainId, n)
    requires Behind(rows, t, chainId, n) && forall r :: Behind(rows, r, chainId, n) ==> r.timestamp >= 0
    ensures IsReordering(rows, rows') && (since == 0 <==> t.timestamp == 0) && since >= 0
    ensures EntryFor(rows', stranded, now, chainId)
         == GapEntry(chainId, n, |BehindNonces(rows, chainId, n)|, since, now)
  {
    var i :| 0 <= i < |rows| && rows[i] == t;
    var rest := Without(rows, i);
    rows' := rest + [t];
    FrontAndBack(rows, i);
    ReorderingMembers(rows, rows');
    SameLeast(rows, rows', stranded, stranded, chainId);
    SamePredicates(rows, rows', stranded, stranded, chainId, n);
    SameAttempts(rows, rows', chainId, n);
    EntryAt(rows', stranded, now, chainId, n);
    var floor := MinedUpTo(rows', chainId);
    WaitingSnoc(rest, t, chainId, floor);
    var before := Waiting(rest, chainId, floor);
    LaterSnoc(before, t, n);
    since := LaterSince(QueueOf(rows', chainId), n);
    hide IsLeastStanding, EntryFor, SameMembers, Attempts, BehindNonces, Standing, LaterSince, Waiting, MinedUpTo;
    hide SentEntry, GapEntry, IsReordering, Without, ListsAttempts;
    assert QueueOf(rows', chainId) == before + [t];
    forall r | r in before && AfterNonce(r, n)
      ensures r.timestamp >= 0
    {
      assert r in QueueOf(rows', chainId);
    }
    LaterSinceSign(before, n);
  }

  lemma GapsMustNotMix(rows: seq<Row>, stranded: seq<Gap>, now: int, chainId: int, n: int)
    requires Fixed(rows, stranded, now, chainId) && IsLeastStanding(rows, stranded, chainId, n)
    requires !HasAttempt(rows, chainId, n)
    ensures Unmixed(rows, chainId, n) || now < StuckNonceSecs
  {
    hide IsLeastStanding, EntryFor, Behind, BehindNonces, IsReordering, HasAttempt;
    if !Unmixed(rows, chainId, n) && now >= StuckNonceSecs {
      var z :| Behind(rows, z, chainId, n) && z.timestamp <= 0;
      var p :| Behind(rows, p, chainId, n) && p.timestamp != 0;
      var rows1, since1 := LastDecides(rows, stranded, now, chainId, n, z);
      var rows2, since2 := LastDecides(rows, stranded, now, chainId, n, p);
      SameOrder(stranded);
      BehindIff(rows, chainId, n);
    }
  }

  // The entry of a chain is the same for every order of the rows exactly when the condition holds.
  lemma OrderFreeExactly(rows: seq<Row>, stranded: seq<Gap>, now: int, chainId: int)
    ensures OrderFree(rows, stranded, now, chainId) <==> Fixed(rows, stranded, now, chainId)
  {
    hide IsLeastStanding, EntryFor, NewestAgree, Unmixed, HasAttempt, IsReordering;
    if OrderFree(rows, stranded, now, chainId) {
      forall rows', stranded' | IsReordering(rows, rows') && IsReordering(stranded, stranded')
        ensures EntryFor(rows', stranded', now, chainId) == EntryFor(rows, stranded, now, chainId)
      {
        ReorderingMembers(rows, rows');
        ReorderingMembers(stranded, stranded');
        OrderFreeSuffices(rows, rows', stranded, stranded', now, chainId);
      }
    }
    if Fixed(rows, stranded, now, chainId) {
      forall n | IsLeastStanding(rows, stranded, chainId, n)
        ensures if HasAttempt(rows, chainId, n) then NewestAgree(rows, chainId, n, now)
                else Unmixed(rows, chainId, n) || now < StuckNonceSecs
      {
        NewestMustAgree(rows, stranded, now, chainId, n);
        if !HasAttempt(rows, chainId, n) {
          GapsMustNotMix(rows, stranded, now, chainId, n);
        }
      }
    }
  }

  // Whatever the order, the entries of a chain name one nonce, with the same number behind it.
  lemma NonceIgnoresOrder(rows: seq<Row>, rows': seq<Row>, stranded: seq<Gap>, stranded': seq<Gap>, now: int, chainId: int)
    requires SameMembers(rows, rows') && SameMembers(stranded, stranded')
    ensures var e, e' := EntryFor(rows, stranded, now, chainId), EntryFor(rows', stranded', now, chainId);
      e.Some? && e'.Some? ==> e.value.nonce == e'.value.nonce && e.value.behind == e'.value.behind
  {
    hide EntryFor, SameMembers;
    EntryNonce(rows, stranded, now, chainId);
    EntryNonce(rows', stranded', now, chainId);
    SameLeast(rows, rows', stranded, stranded', chainId);
    var e := EntryFor(rows, stranded, now, chainId);
    if e.Some? {
      SamePredicates(rows, rows', stranded, stranded', chainId, e.value.nonce);
    }
  }

  // ---------- The whole report ----------

  ghost function Listing(chains: set<int>, rows: seq<Row>, stranded: seq<Gap>, now: int): seq<Entry> {
    if chains == {} then []
    else
      var c := Least(chains);
      var e := EntryFor(rows, stranded, now, c);
      (if e.Some? then [e.value] else []) + Listing(chains - {c}, rows, stranded, now)
  }

  lemma {:induction false} ListingReports(chains: set<int>, rows: seq<Row>, stranded: seq<Gap>, now: int)
    ensures Ascending(Listing(chains, rows, stranded, now))
    ensures forall e :: e in Listing(chains, rows, stranded, now)
                        <==> e.chainId in chains && EntryFor(rows, stranded, now, e.chainId) == Some(e)
  {
    hide EntryFor;
    if chains != {} {
      var c := Least(chains);
      EntryChain(rows, stranded, now, c);
      ListingReports(chains - {c}, rows, stranded, now);
    }
  }

  lemma ReportExists(rows: seq<Row>, stranded: seq<Gap>, now: int) returns (out: seq<Entry>)
    ensures Reports(out, rows, stranded, now)
  {
    var chains := (set r | r in rows :: r.chainId) + (set g | g in stranded :: g.chainId);
    out := Listing(chains, rows, stranded, now);
    forall c | c !in chains
      ensures EntryFor(rows, stranded, now, c) == None
    {
      NoEntry(rows, stranded, now, c);
    }
    hide EntryFor;
    ListingReports(chains, rows, stranded, now);
  }

  // No reordering changes the report.
  ghost predicate ReportFixed(rows: seq<Row>, stranded: seq<Gap>, now: int) {
    forall rows', stranded', out | IsReordering(rows, rows') && IsReordering(stranded, stranded') ::
      Reports(out, rows', stranded', now) <==> Reports(out, rows, stranded, now)
  }

  // The report is the same for every order of the rows exactly when the condition holds of each chain.
  lemma ReportOrderFreeExactly(rows: seq<Row>, stranded: seq<Gap>, now: int)
    ensures (forall c :: OrderFree(rows, stranded, now, c)) <==> ReportFixed(rows, stranded, now)
  {
    hide OrderFree, EntryFor, IsReordering;
    forall c
      ensures OrderFree(rows, stranded, now, c) <==> Fixed(rows, stranded, now, c)
    {
      OrderFreeExactly(rows, stranded, now, c);
    }
    if forall c :: OrderFree(rows, stranded, now, c) {
      EntriesFixReport(rows, stranded, now);
    }
    if ReportFixed(rows, stranded, now) {
      forall c
        ensures Fixed(rows, stranded, now, c)
      {
        ReportFixesEntries(rows, stranded, now, c);
      }
    }
  }

  lemma EntriesFixReport(rows: seq<Row>, stranded: seq<Gap>, now: int)
    requires forall c :: Fixed(rows, stranded, now, c)
    ensures ReportFixed(rows, stranded, now)
  {
    hide EntryFor, IsReordering, Ascending;
    forall rows', stranded', out | IsReordering(rows, rows') && IsReordering(stranded, stranded')
      ensures Reports(out, rows', stranded', now) <==> Reports(out, rows, stranded, now)
    {
      forall c
        ensures EntryFor(rows', stranded', now, c) == EntryFor(rows, stranded, now, c)
      {
        assert Fixed(rows, stranded, now, c);
      }
    }
  }

  lemma ReportFixesEntries(rows: seq<Row>, stranded: seq<Gap>, now: int, chainId: int)
    requires ReportFixed(rows, stranded, now)
    ensures Fixed(rows, stranded, now, chainId)
  {
    hide EntryFor, IsReordering;
    var out := ReportExists(rows, stranded, now);
    forall rows', stranded' | IsReordering(rows, rows') && IsReordering(stranded, stranded')
      ensures EntryFor(rows', stranded', now, chainId) == EntryFor(rows, stranded, now, chainId)
    {
      assert Reports(out, rows', stranded', now);
      EntryChain(rows, stranded, now, chainId);
      EntryChain(rows', stranded', now, chainId);
      var e, e' := EntryFor(rows, stranded, now, chainId), EntryFor(rows', stranded', now, chainId);
      assert e.Some? ==> e.value in out;
      assert e'.Some? ==> e'.value in out;
    }
  }

  // ---------- A simple sufficient condition ----------

  ghost predicate Dated(rows: seq<Row>) {
    forall r | r in rows && RowWaiting(r) :: r.timestamp > 0
  }

  // Two attempts at one nonce with one timestamp are the same row.
  ghost predicate Unambiguous(rows: seq<Row>) {
    forall a, b | a in rows && b in rows && RowWaiting(a) && RowWaiting(b)
                  && a.chainId == b.chainId && a.nonce == b.nonce && a.timestamp == b.timestamp :: a == b
  }

  // Neither the order nor the number of copies of the rows matters, when every waiting row is dated
  // and attempts at one nonce can be told apart by their timestamps.
  lemma OrderDoesNotMatter(rows: seq<Row>, rows': seq<Row>, stranded: seq<Gap>, stranded': seq<Gap>, now: int, out: seq<Entry>)
    requires SameMembers(rows, rows') && SameMembers(stranded, stranded')
    requires Dated(rows) && Unambiguous(rows)
    ensures Reports(out, rows, stranded, now) <==> Reports(out, rows', stranded', now)
  {
    forall c
      ensures OrderFree(rows, stranded, now, c)
    {
      hide IsLeastStanding;
    }
    hide EntryFor, OrderFree, SameMembers;
    forall c
      ensures EntryFor(rows', stranded', now, c) == EntryFor(rows, stranded, now, c)
    {
      OrderFreeSuffices(rows, rows', stranded, stranded', now, c);
    }
  }

  // ---------- Where order does matter ----------

  function Sent(nonce: nat, timestamp: int, stalled: bool, hash: string): Row {
    Row(1, Some(nonce), Pending, false, timestamp, stalled, None, None, hash, "", "", "", Meta("", "", "", ""))
  }

  // Of two attempts with one timestamp the first in the list is taken for the newest.
  lemma TiesDependOnOrder()
    ensures var a, b := Sent(0, 1, true, "a"), Sent(0, 1, true, "b");
      EntryFor([a, b], [], 1000, 1) != EntryFor([b, a], [], 1000, 1)
  {
    var a, b := Sent(0, 1, true, "a"), Sent(0, 1, true, "b");
    TieEntry(a, b);
    TieEntry(b, a);
  }

  lemma {:induction false} AllWait(rows: seq<Row>, chainId: int)
    requires forall r | r in rows :: WaitsAbove(r, chainId, -1)
    ensures MinedUpTo(rows, chainId) == -1 && Waiting(rows, chainId, -1) == rows
  {
    if rows != [] {
      var before, r := rows[..|rows| - 1], rows[|rows| - 1];
      assert rows == before + [r];
      assert r in rows;
      AllWait(before, chainId);
    }
  }

  lemma {:induction false} AllAttempt(rows: seq<Row>, n: int)
    requires forall r | r in rows :: AtNonce(r, n)
    ensures Attempts(rows, n) == rows
  {
    if rows != [] {
      var before, r := rows[..|rows| - 1], rows[|rows| - 1];
      assert rows == before + [r];
      assert r in rows;
      AllAttempt(before, n);
    }
  }

  lemma TieEntry(a: Row, b: Row)
    requires a.status == b.status == Pending && !a.replaced && !b.replaced && a.chainId == b.chainId == 1
    requires a.nonce == b.nonce == Some(0) && a.timestamp == b.timestamp == 1 && a.stalled
    ensures EntryFor([a, b], [], 1000, 1).Some? && EntryFor([a, b], [], 1000, 1).value.hash == a.hash
  {
    var rows := [a, b];
    AllWait(rows, 1);
    assert rows[..1] == [a] && [a][..0] == [];
    hide Waiting, MinedUpTo;
    assert a in rows && 0 in Nonces(rows);
    assert Gaps([], 1, -1) == {};
    assert Nonces(rows) == {0};
    AllAttempt(rows, 0);
    hide Attempts;
    assert Newest(rows) == a;
  }

  // Two rows wait behind a stranded nonce: a timestamp of 0 counts as none when it comes first.
  lemma ZeroTimestampsDependOnOrder()
    ensures var a, b := Sent(1, 0, false, ""), Sent(2, 500, false, "");
      EntryFor([a, b], [Gap(1, Some(0))], 1000, 1) != EntryFor([b, a], [Gap(1, Some(0))], 1000, 1)
  {
    var a, b := Sent(1, 0, false, ""), Sent(2, 500, false, "");
    ZeroEntry(a, b);
    ZeroEntry(b, a);
  }

  lemma ZeroEntry(a: Row, b: Row)
    requires a.status == b.status == Pending && !a.replaced && !b.replaced && a.chainId == b.chainId == 1
    requires a.nonce.Some? && b.nonce.Some? && a.nonce.value > 0 && b.nonce.value > 0 && a.nonce != b.nonce
    requires (a.timestamp == 0 && b.timestamp == 500) || (a.timestamp == 500 && b.timestamp == 0)
    ensures var e := EntryFor([a, b], [Gap(1, Some(0))], 1000, 1); e.Some? && e.value.since == b.timestamp
  {
    var rows, stranded := [a, b], [Gap(1, Some(0))];
    AllWait(rows, 1);
    assert rows[..1] == [a] && [a][..0] == [];
    hide Waiting, MinedUpTo;
    assert stranded[0] in stranded;
    assert Gaps(stranded, 1, -1) == {0};
    assert a in rows && b in rows;
    assert forall n :: n in Nonces(rows) ==> n > 0;
    assert Least({0} + Nonces(rows)) == 0;
    assert forall r :: r !in Attempts(rows, 0);
    hide Attempts, Gaps, Nonces;
    assert a.nonce.value in LaterNonces(rows, 0);
    LaterSnoc([], a, 0);
    LaterSnoc([a], b, 0);
    assert [] + [a] == [a];
  }
}
