/** Which nonce blocks each chain, and what is known about it. */
module BlockedNonces {
  import opened Basics
  import opened Sorting
  import opened WaitingRows

  // How long the lowest waiting nonce may sit before it counts as stuck.
  const StuckNonceSecs := 180

  datatype Why = Stranded | Unresolved | Stalled | Queued

  datatype Transfer = Native(to: string, amount: string) | Erc20(to: string, amount: string, token: string)

  // The same transfer again, under the same nonce, and the fees it must outbid.
  datatype Offer = Offer(transfer: Transfer, chainId: int, from: string, nonce: int, floorFee: Wei, floorTip: Wei)

  datatype Entry = Entry(
    chainId: int,
    nonce: int,
    behind: nat,
    why: Why,
    since: int,
    hash: string,
    caption: string,
    origin: string,
    resend: Option<Offer>
  )

  function TransferOf(r: Row): Option<Transfer> {
    var erc20 := r.meta.kind == "erc20";
    if (r.meta.kind != "native" && !erc20) || r.meta.recipient == "" || r.meta.amount == ""
       || (erc20 && r.meta.token == "") then None
    else if erc20 then Some(Erc20(r.meta.recipient, r.meta.amount, r.meta.token))
    else Some(Native(r.meta.recipient, r.meta.amount))
  }

  // ---------- One chain ----------

  function Nonces(waiting: seq<Row>): set<int> {
    set r | r in waiting && r.nonce.Some? :: r.nonce.value
  }

  predicate AtNonce(r: Row, n: int) { r.nonce.Some? && r.nonce.value == n }

  predicate AfterNonce(r: Row, n: int) { r.nonce.Some? && r.nonce.value > n }

  function Attempts(waiting: seq<Row>, n: int): (at: seq<Row>)
    ensures forall r :: r in at <==> r in waiting && AtNonce(r, n)
  {
    if waiting == [] then []
    else
      var before, r := Attempts(waiting[..|waiting| - 1], n), waiting[|waiting| - 1];
      assert waiting == waiting[..|waiting| - 1] + [r];
      if AtNonce(r, n) then before + [r] else before
  }

  function LaterNonces(waiting: seq<Row>, n: int): set<int> {
    set r | r in waiting && AfterNonce(r, n) :: r.nonce.value
  }

  // The earliest timestamp of a later row, where 0 stands for none yet.
  function LaterSince(waiting: seq<Row>, n: int): int {
    if waiting == [] then 0
    else
      var since, r := LaterSince(waiting[..|waiting| - 1], n), waiting[|waiting| - 1];
      if !AfterNonce(r, n) then since else if since == 0 then r.timestamp else Min(since, r.timestamp)
  }

  // The attempt with the latest timestamp, the first of them on ties.
  function Newest(at: seq<Row>): (r: Row)
    requires at != []
    ensures r in at && forall a | a in at :: a.timestamp <= r.timestamp
  {
    var last := |at| - 1;
    assert at == at[..last] + [at[last]];
    if last == 0 then at[0]
    else
      var r := Newest(at[..last]);
      if at[last].timestamp > r.timestamp then at[last] else r
  }

  predicate FeesKnown(at: seq<Row>) {
    forall r | r in at :: r.maxFeePerGas.Some? && r.maxPriorityFeePerGas.Some?
  }

  function MaxWei(a: Wei, b: Wei): Wei { if a < b then b else a }

  function Floor(fees: seq<Wei>): (floor: Wei)
    ensures forall f | f in fees :: f <= floor
    ensures floor == 0 || floor in fees
  {
    if fees == [] then 0
    else
      assert fees == fees[..|fees| - 1] + [fees[|fees| - 1]];
      MaxWei(Floor(fees[..|fees| - 1]), fees[|fees| - 1])
  }

  function MaxFees(at: seq<Row>): (fees: seq<Wei>)
    requires FeesKnown(at)
    ensures |fees| == |at|
  {
    seq(|at|, i requires 0 <= i < |at| => at[i].maxFeePerGas.value)
  }

  function Tips(at: seq<Row>): (fees: seq<Wei>)
    requires FeesKnown(at)
    ensures |fees| == |at|
  {
    seq(|at|, i requires 0 <= i < |at| => at[i].maxPriorityFeePerGas.value)
  }

  // The offer to send an attempt again, when it is a transfer and every attempt's fees are known.
  function OfferOf(chainId: int, n: int, newest: Row, at: seq<Row>): Option<Offer> {
    var transfer := TransferOf(newest);
    if transfer.None? || !FeesKnown(at) then None
    else Some(Offer(transfer.value, chainId, newest.from, n, Floor(MaxFees(at)), Floor(Tips(at))))
  }

  function WhyOf(newest: Row): Why {
    if newest.status == Unknown then Unresolved else if newest.stalled then Stalled else Queued
  }

  // The entry of a nonce that was sent, once its newest attempt is old, and stalled or waited behind.
  function SentEntry(chainId: int, n: int, behind: nat, newest: Row, at: seq<Row>, now: int): Option<Entry> {
    if now - newest.timestamp < StuckNonceSecs || (behind == 0 && !newest.stalled) then None
    else
      Some(Entry(chainId, n, behind, WhyOf(newest), newest.timestamp, newest.hash, newest.caption, newest.origin,
                 OfferOf(chainId, n, newest, at)))
  }

  // The entry of a nonce that was never sent: a gap is only evidence once a later send has waited on it.
  function GapEntry(chainId: int, n: int, behind: nat, since: int, now: int): Option<Entry> {
    if behind == 0 || now - since < StuckNonceSecs then None
    else Some(Entry(chainId, n, behind, Stranded, since, "", "", "", None))
  }

  // The entry of a chain whose rows above its highest mined nonce are waiting, and whose reserved
  // and unsent nonces there are gaps.
  ghost function ChainEntry(chainId: int, waiting: seq<Row>, gaps: set<int>, now: int): Option<Entry> {
    var candidates := gaps + Nonces(waiting);
    if candidates == {} then None
    else
      var n := Least(candidates);
      var at := Attempts(waiting, n);
      var behind := |LaterNonces(waiting, n)|;
      if at == [] then GapEntry(chainId, n, behind, LaterSince(waiting, n), now)
      else SentEntry(chainId, n, behind, Newest(at), at, now)
  }

  // The nonces that wait or are gaps.
  method Candidates(waiting: seq<Row>, gaps: set<int>) returns (candidates: set<int>)
    ensures candidates == gaps + Nonces(waiting)
  {
    candidates := gaps;
    for i := 0 to |waiting|
      invariant candidates == gaps + Nonces(waiting[..i])
    {
      assert waiting[..i + 1] == waiting[..i] + [waiting[i]];
      if waiting[i].nonce.Some? {
        candidates := candidates + {waiting[i].nonce.value};
      }
    }
    assert waiting[..|waiting|] == waiting;
  }

  // The attempts at n0, and what waits behind it.
  method SplitQueue(waiting: seq<Row>, n0: int) returns (at: seq<Row>, later: set<int>, laterSince: int)
    ensures at == Attempts(waiting, n0) && later == LaterNonces(waiting, n0) && laterSince == LaterSince(waiting, n0)
  {
    at, later, laterSince := [], {}, 0;
    for i := 0 to |waiting|
      invariant at == Attempts(waiting[..i], n0) && later == LaterNonces(waiting[..i], n0)
      invariant laterSince == LaterSince(waiting[..i], n0)
    {
      var r := waiting[i];
      assert waiting[..i + 1] == waiting[..i] + [r];
      assert waiting[..i + 1][..i] == waiting[..i];
      if AtNonce(r, n0) {
        at := at + [r];
      } else if AfterNonce(r, n0) {
        later := later + {r.nonce.value};
        laterSince := if laterSince == 0 then r.timestamp else Min(laterSince, r.timestamp);
      }
    }
    assert waiting[..|waiting|] == waiting;
  }

  method BlockedAt(chainId: int, waiting: seq<Row>, gaps: set<int>, now: int) returns (e: Option<Entry>)
    ensures e == ChainEntry(chainId, waiting, gaps, now)
  {
    hide Attempts, LaterNonces, LaterSince, Nonces, Newest, FeesKnown, Floor, MaxFees, Tips;
    var candidates := Candidates(waiting, gaps);
    if candidates == {} {
      return None;
    }
    var n0 := MinElement(candidates);
    assert n0 == Least(candidates);
    var at, later, laterSince := SplitQueue(waiting, n0);
    if at == [] {
      if later == {} || now - laterSince < StuckNonceSecs {
        return None;
      }
      return Some(Entry(chainId, n0, |later|, Stranded, laterSince, "", "", "", None));
    }
    var newest, floorFee, floorTip, feesKnown := NewestAndFloors(at);
    var since := newest.timestamp;
    var stalled := newest.stalled;
    if now - since < StuckNonceSecs || (later == {} && !stalled) {
      return None;
    }
    var why := if newest.status == Unknown then Unresolved else if stalled then Stalled else Queued;
    var transfer := TransferOf(newest);
    var resend := None;
    if transfer.Some? && feesKnown {
      resend := Some(Offer(transfer.value, chainId, newest.from, n0, floorFee, floorTip));
    }
    e := Some(Entry(chainId, n0, |later|, why, since, newest.hash, newest.caption, newest.origin, resend));
  }

  // The latest attempt at a nonce decides; every attempt sets the fee floor.
  method NewestAndFloors(at: seq<Row>) returns (newest: Row, floorFee: Wei, floorTip: Wei, feesKnown: bool)
    requires at != []
    ensures newest == Newest(at) && feesKnown == FeesKnown(at)
    ensures feesKnown ==> floorFee == Floor(MaxFees(at)) && floorTip == Floor(Tips(at))
  {
    hide Newest, Floor, MaxFees, Tips;
    FloorOfNone();
    newest, floorFee, floorTip, feesKnown := at[0], 0, 0, true;
    for i := 0 to |at|
      invariant newest == if i == 0 then at[0] else Newest(at[..i])
      invariant feesKnown == FeesKnown(at[..i])
      invariant feesKnown ==> floorFee == Floor(MaxFees(at[..i])) && floorTip == Floor(Tips(at[..i]))
    {
      var r := at[i];
      assert at[..i + 1] == at[..i] + [r];
      NewestSnoc(at[..i], r);
      if r.timestamp > newest.timestamp {
        newest := r;
      }
      feesKnown := feesKnown && r.maxFeePerGas.Some? && r.maxPriorityFeePerGas.Some?;
      if feesKnown {
        FloorsNext(at[..i], r);
        floorFee := MaxWei(floorFee, r.maxFeePerGas.value);
        floorTip := MaxWei(floorTip, r.maxPriorityFeePerGas.value);
      }
    }
    assert at[..|at|] == at;
  }

  lemma FloorOfNone()
    ensures Floor(MaxFees([])) == 0 && Floor(Tips([])) == 0
  {}

  lemma FloorSnoc(fees: seq<Wei>, fee: Wei)
    ensures Floor(fees + [fee]) == MaxWei(Floor(fees), fee)
  {
    assert (fees + [fee])[..|fees|] == fees;
  }

  lemma FloorsNext(at: seq<Row>, r: Row)
    requires FeesKnown(at + [r])
    ensures FeesKnown(at) && r.maxFeePerGas.Some? && r.maxPriorityFeePerGas.Some?
    ensures Floor(MaxFees(at + [r])) == MaxWei(Floor(MaxFees(at)), r.maxFeePerGas.value)
    ensures Floor(Tips(at + [r])) == MaxWei(Floor(Tips(at)), r.maxPriorityFeePerGas.value)
  {
    hide Floor;
    assert r in at + [r];
    assert forall a :: a in at ==> a in at + [r];
    assert MaxFees(at + [r]) == MaxFees(at) + [r.maxFeePerGas.value];
    assert Tips(at + [r]) == Tips(at) + [r.maxPriorityFeePerGas.value];
    FloorSnoc(MaxFees(at), r.maxFeePerGas.value);
    FloorSnoc(Tips(at), r.maxPriorityFeePerGas.value);
  }

  lemma NewestSnoc(at: seq<Row>, r: Row)
    ensures Newest(at + [r]) == if at == [] || r.timestamp > Newest(at).timestamp then r else Newest(at)
  {
    assert (at + [r])[..|at|] == at;
  }

  // ---------- All chains ----------

  ghost function EntryFor(rows: seq<Row>, stranded: seq<Gap>, now: int, chainId: int): Option<Entry> {
    var floor := MinedUpTo(rows, chainId);
    ChainEntry(chainId, Waiting(rows, chainId, floor), Gaps(stranded, chainId, floor), now)
  }

  ghost predicate Ascending(entries: seq<Entry>) {
    forall i, j | 0 <= i < j < |entries| :: entries[i].chainId < entries[j].chainId
  }

  // One entry for each blocked chain, in the order of their numbers.
  ghost predicate Reports(entries: seq<Entry>, rows: seq<Row>, stranded: seq<Gap>, now: int) {
    && Ascending(entries)
    && forall e :: e in entries <==> EntryFor(rows, stranded, now, e.chainId) == Some(e)
  }

  function Value<K, V>(m: map<K, V>, k: K, d: V): V { if k in m then m[k] else d }

  method CollectMined(rows: seq<Row>) returns (minedUpTo: map<int, int>)
    ensures forall c :: Value(minedUpTo, c, -1) == MinedUpTo(rows, c)
  {
    minedUpTo := map[];
    for i := 0 to |rows|
      invariant forall c :: Value(minedUpTo, c, -1) == MinedUpTo(rows[..i], c)
    {
      var r := rows[i];
      assert rows[..i + 1][..i] == rows[..i];
      if RowMined(r) && r.nonce.Some? {
        minedUpTo := minedUpTo[r.chainId := Max(Value(minedUpTo, r.chainId, -1), r.nonce.value)];
      }
    }
    assert rows[..|rows|] == rows;
  }

  method CollectWaiting(rows: seq<Row>, minedUpTo: map<int, int>) returns (waiting: map<int, seq<Row>>)
    ensures forall c :: Value(waiting, c, []) == Waiting(rows, c, Value(minedUpTo, c, -1))
  {
    waiting := map[];
    for i := 0 to |rows|
      invariant forall c :: Value(waiting, c, []) == Waiting(rows[..i], c, Value(minedUpTo, c, -1))
    {
      var r := rows[i];
      assert rows[..i + 1][..i] == rows[..i];
      if WaitsAbove(r, r.chainId, Value(minedUpTo, r.chainId, -1)) {
        waiting := waiting[r.chainId := Value(waiting, r.chainId, []) + [r]];
      }
    }
    assert rows[..|rows|] == rows;
  }

  method CollectGaps(stranded: seq<Gap>, minedUpTo: map<int, int>) returns (gaps: map<int, set<int>>)
    ensures forall c :: Value(gaps, c, {}) == Gaps(stranded, c, Value(minedUpTo, c, -1))
  {
    gaps := map[];
    for i := 0 to |stranded|
      invariant forall c :: Value(gaps, c, {}) == Gaps(stranded[..i], c, Value(minedUpTo, c, -1))
    {
      var g := stranded[i];
      assert stranded[..i + 1] == stranded[..i] + [g];
      if OpenGap(g, g.chainId, Value(minedUpTo, g.chainId, -1)) {
        gaps := gaps[g.chainId := Value(gaps, g.chainId, {}) + {g.nonce.value}];
      }
    }
    assert stranded[..|stranded|] == stranded;
  }

  method BlockedNonces(rows: seq<Row>, stranded: seq<Gap>, now: int) returns (out: seq<Entry>)
    ensures Reports(out, rows, stranded, now)
  {
    hide ChainEntry, MinedUpTo, Waiting, Gaps;
    var minedUpTo := CollectMined(rows);
    var waiting := CollectWaiting(rows, minedUpTo);
    var gaps := CollectGaps(stranded, minedUpTo);
    var ordered := Ordered(waiting.Keys + gaps.Keys);
    out := [];
    for i := 0 to |ordered|
      invariant Ascending(out) && forall e :: e in out ==> e.chainId in ordered[..i]
      invariant forall e :: e in out <==> e.chainId in ordered[..i] && EntryFor(rows, stranded, now, e.chainId) == Some(e)
    {
      var c := ordered[i];
      var entry := BlockedAt(c, Value(waiting, c, []), Value(gaps, c, {}), now);
      assert entry == EntryFor(rows, stranded, now, c);
      EntryChain(rows, stranded, now, c);
      assert ordered[..i + 1] == ordered[..i] + [c];
      if entry.Some? {
        out := out + [entry.value];
      }
    }
    forall c | c !in ordered
      ensures EntryFor(rows, stranded, now, c) == None
    {
      NothingWaits(c, now);
    }
  }

  lemma NothingWaits(chainId: int, now: int)
    ensures ChainEntry(chainId, [], {}, now) == None
  {}

  lemma EntryChain(rows: seq<Row>, stranded: seq<Gap>, now: int, chainId: int)
    ensures var e := EntryFor(rows, stranded, now, chainId); e.Some? ==> e.value.chainId == chainId
  {}

  // The report is determined by the entries of the chains.
  lemma {:induction false} ReportIsUnique(a: seq<Entry>, b: seq<Entry>, rows: seq<Row>, stranded: seq<Gap>, now: int)
    requires Reports(a, rows, stranded, now) && Reports(b, rows, stranded, now)
    ensures a == b
  {
    SameAscending(a, b);
  }

  lemma InTail(a: seq<Entry>, e: Entry)
    requires Ascending(a) && a != []
    ensures e in a[1..] <==> e in a && e != a[0]
  {
    assert a == [a[0]] + a[1..];
  }

  lemma {:induction false} SameAscending(a: seq<Entry>, b: seq<Entry>)
    requires Ascending(a) && Ascending(b) && forall e :: e in a <==> e in b
    ensures a == b
  {
    if a != [] || b != [] {
      assert a != [] ==> a[0] in b;
      assert b != [] ==> b[0] in a;
      assert a[0] in b && b[0] in a;
      var i :| 0 <= i < |b| && b[i] == a[0];
      var j :| 0 <= j < |a| && a[j] == b[0];
      assert a[0] == b[0];
      forall e
        ensures e in a[1..] <==> e in b[1..]
      {
        InTail(a, e);
        InTail(b, e);
      }
      SameAscending(a[1..], b[1..]);
    }
  }
}
