/** A guarded lane over whole runs: requests, answers that come late or never, lapse timers, the clock. */
module LaneRuns {
  import opened Guards

  // A lane with its spinner, the lapse timers still to fire, the calls still to answer, and the
  // claims made so far with the time each is over.
  datatype LaneRun = LaneRun(
    now: int,
    lane: Lane,
    loading: bool,
    timers: set<Timer>,
    calls: set<nat>,
    claims: map<nat, int>
  ) {
    // A claim neither completed nor expired.
    predicate Live(t: nat) { t in claims && now < claims[t] }
  }

  datatype LaneEvent =
    | Asked
    | Answered(ticket: nat, declines: bool)
    | Lost(ticket: nat)
    | Fire(timer: Timer, declines: bool)
    | Lower
    | Tick(ms: nat)

  // Take the lane, raise the spinner, make the call, start the lapse timer; or coalesce.
  function Begin(r: LaneRun, budgetMs: nat): LaneRun {
    var lane := r.lane.Requested(budgetMs, r.now);
    if r.lane.flight.Busy(r.now) then r.(lane := lane)
    else
      var t := lane.flight.ticket;
      r.(lane := lane, loading := true, timers := r.timers + {LapseOf(lane.flight)},
         calls := r.calls + {t}, claims := r.claims[t := r.now + budgetMs])
  }

  // Run the queued request, which may find nothing to ask any more; or lower the spinner.
  function HandOn(r: LaneRun, budgetMs: nat, declines: bool): LaneRun {
    if !r.lane.again then r.(loading := false)
    else
      var drained := r.(lane := r.lane.(again := false));
      if declines then drained.(loading := false) else Begin(drained, budgetMs)
  }

  predicate Enabled(r: LaneRun, e: LaneEvent) {
    match e
    case Asked => true
    case Answered(t, _) => t in r.calls
    case Lost(t) => t in r.calls
    case Fire(timer, _) => timer in r.timers && timer.due <= r.now
    case Lower => true
    case Tick(ms) => true
  }

  function Complete(r: LaneRun, t: nat): LaneRun {
    var lane := r.lane.(flight := r.lane.flight.Released(t));
    r.(lane := lane, claims := if t in r.claims && r.claims[t] > r.now then r.claims[t := r.now] else r.claims)
  }

  function Next(r: LaneRun, e: LaneEvent, budgetMs: nat): LaneRun
    requires Enabled(r, e)
  {
    match e
    case Asked => Begin(r, budgetMs)
    case Answered(t, declines) =>
      var answered := Complete(r.(calls := r.calls - {t}), t);
      if t == r.lane.flight.ticket then HandOn(answered, budgetMs, declines) else answered
    case Lost(t) => r.(calls := r.calls - {t})
    case Fire(timer, declines) =>
      var fired := r.(timers := r.timers - {timer});
      if !fired.lane.flight.Busy(r.now) then HandOn(fired, budgetMs, declines) else fired
    case Lower => r.(loading := false)
    case Tick(ms) => r.(now := r.now + ms)
  }

  function Start(now: int): LaneRun { LaneRun(now, Lane(Flight(false, 0, 0), false), false, {}, {}, map[]) }

  // Tickets, and which claims are over.
  ghost predicate Claims(r: LaneRun) {
    var f := r.lane.flight;
    && (forall t :: t in r.calls ==> 1 <= t <= f.ticket)
    && (forall timer :: timer in r.timers ==> 1 <= timer.ticket <= f.ticket)
    && (forall t :: t in r.claims <==> 1 <= t <= f.ticket)
    && (forall t | t in r.claims && t < f.ticket :: r.claims[t] <= r.now)
    && (f.ticket in r.claims ==> if f.held then r.claims[f.ticket] == f.deadline else r.claims[f.ticket] <= r.now)
    && (f.ticket == 0 ==> !f.held && !r.lane.again && !r.loading)
  }

  // The lapse timer of the claim in force is still to fire.
  predicate Pending(r: LaneRun) {
    LapseOf(r.lane.flight) in r.timers
  }

  // The timer fires only after the deadline.
  predicate Lapses(r: LaneRun) { r.lane.flight.ticket > 0 && !Pending(r) ==> r.lane.flight.deadline < r.now }

  // Nothing is stranded: whatever is still up, a lapse timer will come for it.
  ghost predicate LaneInv(r: LaneRun) {
    Claims(r) && Lapses(r) && (r.lane.again || r.loading ==> Pending(r))
  }

  lemma StartInv(now: int)
    ensures LaneInv(Start(now))
  {}

  lemma BeginInv(r: LaneRun, budgetMs: nat)
    requires Claims(r) && (r.lane.flight.Busy(r.now) ==> LaneInv(r))
    ensures LaneInv(Begin(r, budgetMs))
  {}

  lemma HandOnInv(r: LaneRun, budgetMs: nat, declines: bool)
    requires Claims(r) && Lapses(r) && !r.lane.flight.Busy(r.now)
    ensures LaneInv(HandOn(r, budgetMs, declines))
  {
    hide Begin;
    if r.lane.again && !declines {
      BeginInv(r.(lane := r.lane.(again := false)), budgetMs);
    }
  }

  lemma NextInv(r: LaneRun, e: LaneEvent, budgetMs: nat)
    requires LaneInv(r) && Enabled(r, e)
    ensures LaneInv(Next(r, e, budgetMs))
  {
    hide Begin, HandOn;
    match e
    case Asked => BeginInv(r, budgetMs);
    case Answered(t, declines) =>
      CompleteInv(r, t);
      var answered := Complete(r.(calls := r.calls - {t}), t);
      if t == r.lane.flight.ticket {
        HandOnInv(answered, budgetMs, declines);
      }
    case Fire(timer, declines) =>
      var fired := r.(timers := r.timers - {timer});
      if !fired.lane.flight.Busy(r.now) {
        HandOnInv(fired, budgetMs, declines);
      }
    case _ =>
  }

  lemma CompleteInv(r: LaneRun, t: nat)
    requires LaneInv(r) && t in r.calls
    ensures LaneInv(Complete(r.(calls := r.calls - {t}), t))
    ensures t != r.lane.flight.ticket ==> Complete(r.(calls := r.calls - {t}), t) == r.(calls := r.calls - {t})
    ensures t == r.lane.flight.ticket ==> !Complete(r, t).lane.flight.Busy(r.now)
  {}

  // ---------- Safety ----------

  // At most one claim is live, and the lane is busy exactly when one is.
  lemma OneLiveClaim(r: LaneRun)
    requires LaneInv(r)
    ensures forall t :: r.Live(t) ==> t == r.lane.flight.ticket && r.lane.flight.Busy(r.now)
    ensures r.lane.flight.Busy(r.now) ==> r.Live(r.lane.flight.ticket)
  {}

  // A completion whose claim has been replaced changes nothing: it neither frees the lane nor hands it on.
  lemma StaleCompletion(r: LaneRun, t: nat, declines: bool, budgetMs: nat)
    requires LaneInv(r) && t in r.calls && t != r.lane.flight.ticket
    ensures Next(r, Answered(t, declines), budgetMs) == r.(calls := r.calls - {t})
  {
    CompleteInv(r, t);
  }

  // ---------- Runs ----------

  ghost predicate Follows(r: LaneRun, events: seq<LaneEvent>, last: LaneRun, budgetMs: nat)
    decreases |events|
  {
    if events == [] then last == r
    else Enabled(r, events[0]) && Follows(Next(r, events[0], budgetMs), events[1..], last, budgetMs)
  }

  lemma {:induction false} FollowsSnoc(r: LaneRun, events: seq<LaneEvent>, last: LaneRun, e: LaneEvent, budgetMs: nat)
    requires Follows(r, events, last, budgetMs) && Enabled(last, e)
    ensures Follows(r, events + [e], Next(last, e, budgetMs), budgetMs)
    decreases |events|
  {
    hide Next;
    if events == [] {
      assert ([] + [e])[1..] == [];
    } else {
      assert (events + [e])[1..] == events[1..] + [e];
      FollowsSnoc(Next(r, events[0], budgetMs), events[1..], last, e, budgetMs);
    }
  }

  // Whatever the requests, replies, losses and timers, the invariant holds and tickets only grow,
  // by one for each new claim.
  lemma {:induction false} RunInv(r: LaneRun, events: seq<LaneEvent>, last: LaneRun, budgetMs: nat)
    requires LaneInv(r) && Follows(r, events, last, budgetMs)
    ensures LaneInv(last) && r.lane.flight.ticket <= last.lane.flight.ticket && r.now <= last.now
    ensures forall t :: t in r.claims ==> t in last.claims
    decreases |events|
  {
    if events != [] {
      NextInv(r, events[0], budgetMs);
      TicketsGrow(r, events[0], budgetMs);
      RunInv(Next(r, events[0], budgetMs), events[1..], last, budgetMs);
    }
  }

  lemma TicketsGrow(r: LaneRun, e: LaneEvent, budgetMs: nat)
    requires LaneInv(r) && Enabled(r, e)
    ensures var next := Next(r, e, budgetMs); var t := r.lane.flight.ticket;
      && r.now <= next.now
      && (next.lane.flight.ticket == t || (next.lane.flight.ticket == t + 1 && !next.Live(t)))
      && (forall k :: k in r.claims ==> k in next.claims)
  {
    hide LaneInv;
    NextInv(r, e, budgetMs);
    assert Claims(r) && Claims(Next(r, e, budgetMs)) by {
      InvClaims(r);
      InvClaims(Next(r, e, budgetMs));
    }
    hide Claims;
  }

  lemma InvClaims(r: LaneRun)
    requires LaneInv(r)
    ensures Claims(r)
  {}

  // ---------- Nothing is stranded ----------

  // With no lapse timer left to fire, no re-run is queued and no spinner is up, even if no call
  // ever answered.
  lemma QuietWhenTimersFired(r: LaneRun)
    requires LaneInv(r) && r.timers == {}
    ensures !r.lane.again && !r.loading && !r.lane.flight.Busy(r.now)
  {}

  // Answers, losses and timers, as opposed to requests and the clock.
  predicate Settling(e: LaneEvent) { e.Answered? || e.Lost? || e.Fire? }

  function Settled(events: seq<LaneEvent>): nat {
    if events == [] then 0 else (if Settling(events[0]) then 1 else 0) + Settled(events[1..])
  }

  function Outstanding(r: LaneRun): nat { |r.timers| + |r.calls| + if r.lane.again then 2 else 0 }

  lemma BeginAdds(r: LaneRun, budgetMs: nat)
    requires Claims(r) && !r.lane.again && !r.lane.flight.Busy(r.now)
    ensures Outstanding(Begin(r, budgetMs)) == Outstanding(r) + 2
  {
    var t := r.lane.flight.ticket + 1;
    assert t !in r.calls;
    assert Timer(t, r.now + budgetMs + 1) !in r.timers;
  }

  lemma SettlingSettles(r: LaneRun, e: LaneEvent, budgetMs: nat)
    requires LaneInv(r) && Enabled(r, e) && !e.Asked?
    ensures Outstanding(Next(r, e, budgetMs)) <= Outstanding(r) - if Settling(e) then 1 else 0
  {
    hide Begin;
    match e
    case Answered(t, declines) =>
      CompleteInv(r, t);
      var answered := Complete(r.(calls := r.calls - {t}), t);
      if t == r.lane.flight.ticket && r.lane.again && !declines {
        BeginAdds(answered.(lane := answered.lane.(again := false)), budgetMs);
      }
    case Fire(timer, declines) =>
      var fired := r.(timers := r.timers - {timer});
      if !fired.lane.flight.Busy(r.now) && r.lane.again && !declines {
        BeginAdds(fired.(lane := fired.lane.(again := false)), budgetMs);
      }
    case _ =>
  }

  // Without new requests only so many answers, losses and timers can come. When the timers have fired,
  // no re-run is queued, the spinner is down and no claim is live.
  lemma {:induction false} EverythingComesDown(r: LaneRun, events: seq<LaneEvent>, last: LaneRun, budgetMs: nat)
    requires LaneInv(r) && Follows(r, events, last, budgetMs) && forall e | e in events :: !e.Asked?
    ensures Settled(events) + Outstanding(last) <= Outstanding(r)
    ensures last.timers == {} ==> !last.lane.again && !last.loading && !last.lane.flight.Busy(last.now)
    decreases |events|
  {
    hide Next, Outstanding;
    if events != [] {
      var e := events[0];
      assert e in events && forall k | k in events[1..] :: k in events;
      NextInv(r, e, budgetMs);
      SettlingSettles(r, e, budgetMs);
      EverythingComesDown(Next(r, e, budgetMs), events[1..], last, budgetMs);
    }
    RunInv(r, events, last, budgetMs);
    if last.timers == {} {
      QuietWhenTimersFired(last);
    }
  }

  // No call answers in these events.
  ghost predicate Lossy(events: seq<LaneEvent>) {
    forall e | e in events :: e.Lost? || e.Fire? || e.Tick?
  }

  // The clock runs until the timer is due, and it fires.
  function Wait(r: LaneRun, timer: Timer): LaneEvent {
    Tick(if r.now < timer.due then timer.due - r.now else 0)
  }

  lemma FireSettles(r: LaneRun, timer: Timer, budgetMs: nat)
    requires LaneInv(r) && timer in r.timers
    ensures var waited := Next(r, Wait(r, timer), budgetMs);
      && LaneInv(waited) && Enabled(waited, Fire(timer, false))
      && var fired := Next(waited, Fire(timer, false), budgetMs);
      && LaneInv(fired) && Outstanding(fired) == Outstanding(r) - 1
  {
    hide Begin;
    NextInv(r, Wait(r, timer), budgetMs);
    var waited := Next(r, Wait(r, timer), budgetMs);
    NextInv(waited, Fire(timer, false), budgetMs);
    var fired := waited.(timers := waited.timers - {timer});
    if !fired.lane.flight.Busy(fired.now) && fired.lane.again {
      BeginAdds(fired.(lane := fired.lane.(again := false)), budgetMs);
    }
  }

  // The bound is met: from every state, if every callback is lost, the timers alone bring everything
  // down, in exactly as many losses and timers as were outstanding.
  lemma {:induction false} TimersAloneSettle(r: LaneRun, budgetMs: nat) returns (events: seq<LaneEvent>, last: LaneRun)
    requires LaneInv(r)
    ensures Follows(r, events, last, budgetMs) && Lossy(events) && Settled(events) == Outstanding(r)
    ensures Outstanding(last) == 0 && !last.lane.again && !last.loading && !last.lane.flight.Busy(last.now)
    decreases Outstanding(r)
  {
    hide Next, LaneInv;
    if timer: Timer :| timer in r.timers {
      FireSettles(r, timer, budgetMs);
      var wait, fire := Wait(r, timer), Fire(timer, false);
      var waited := Next(r, wait, budgetMs);
      var rest;
      rest, last := TimersAloneSettle(Next(waited, fire, budgetMs), budgetMs);
      events := [wait] + ([fire] + rest);
      FollowsCons(waited, fire, rest, last, budgetMs);
      FollowsCons(r, wait, [fire] + rest, last, budgetMs);
    } else if t: nat :| t in r.calls {
      LossSettles(r, t, budgetMs);
      var rest;
      rest, last := TimersAloneSettle(Next(r, Lost(t), budgetMs), budgetMs);
      events := [Lost(t)] + rest;
      FollowsCons(r, Lost(t), rest, last, budgetMs);
    } else {
      NoTimersNoQueue(r);
      events, last := [], r;
    }
  }

  lemma FollowsCons(r: LaneRun, e: LaneEvent, rest: seq<LaneEvent>, last: LaneRun, budgetMs: nat)
    requires Enabled(r, e) && Follows(Next(r, e, budgetMs), rest, last, budgetMs)
    ensures Follows(r, [e] + rest, last, budgetMs)
    ensures Settled([e] + rest) == Settled(rest) + if Settling(e) then 1 else 0
  {
    assert ([e] + rest)[1..] == rest;
  }

  lemma LossSettles(r: LaneRun, t: nat, budgetMs: nat)
    requires LaneInv(r) && t in r.calls
    ensures LaneInv(Next(r, Lost(t), budgetMs)) && Outstanding(Next(r, Lost(t), budgetMs)) == Outstanding(r) - 1
  {}

  lemma NoTimersNoQueue(r: LaneRun)
    requires LaneInv(r) && r.timers == {} && r.calls == {}
    ensures Outstanding(r) == 0 && !r.lane.again && !r.loading && !r.lane.flight.Busy(r.now)
  {}

  // Until then some timer is pending, and letting the clock run lets it fire.
  lemma TimersCanFire(r: LaneRun, budgetMs: nat, declines: bool)
    requires LaneInv(r) && (r.lane.again || r.loading)
    ensures var timer := LapseOf(r.lane.flight);
      var wait := if r.now < timer.due then timer.due - r.now else 0;
      && timer in r.timers && Enabled(Next(r, Tick(wait), budgetMs), Fire(timer, declines))
      && var fired := Next(Next(r, Tick(wait), budgetMs), Fire(timer, declines), budgetMs);
      && !fired.lane.again && (!r.lane.again || declines ==> !fired.loading)
  {}
}
