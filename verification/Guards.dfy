/** Claims that expire, and the guarded asynchronous lane built on them. */
module Guards {
  const CallBudgetMs := 20_000
  const SendCallBudgetMs := 130_000
  const GuardSlackMs := 1_000

  // The budget of a claim that covers the given number of chained calls, with margin.
  function GuardBudgetMs(legs: nat, callMs: nat): (budget: nat)
    ensures budget > legs * callMs
  {
    legs * callMs + GuardSlackMs
  }

  // ---------- Claims ----------

  datatype Flight = Flight(held: bool, ticket: nat, deadline: int) {
    predicate Busy(now: int) { held && now < deadline }

    function Taken(budgetMs: nat, now: int): Flight { Flight(true, ticket + 1, now + budgetMs) }

    function Released(t: nat): Flight { if t == ticket then this.(held := false) else this }
  }

  // The lapse timer of a claim, which fires no earlier than just after the deadline.
  datatype Timer = Timer(ticket: nat, due: int)

  function LapseOf(f: Flight): Timer { Timer(f.ticket, f.deadline + 1) }

  // An in-flight claim that expires: a deadline, never a latch.
  class InFlight {
    var held: bool
    var ticket: nat
    var deadline: int

    constructor ()
      ensures State() == Flight(false, 0, 0)
    {
      held, ticket, deadline := false, 0, 0;
    }

    function State(): Flight
      reads this
    {
      Flight(held, ticket, deadline)
    }

    method Busy(now: int) returns (busy: bool)
      ensures busy == State().Busy(now)
    {
      busy := held && now < deadline;
    }

    // Take the slot under a new ticket, or refuse it while a claim is live.
    method Take(budgetMs: nat, now: int) returns (taken: bool, slot: nat)
      modifies this
      ensures taken == !old(State().Busy(now))
      ensures taken ==> State() == old(State()).Taken(budgetMs, now) && slot == ticket
      ensures taken ==> State().Busy(now) == (budgetMs > 0)
      ensures !taken ==> State() == old(State()) && slot == 0
    {
      var busy := Busy(now);
      if busy {
        return false, 0;
      }
      held := true;
      deadline := now + budgetMs;
      ticket := ticket + 1;
      return true, ticket;
    }

    method Release(t: nat)
      modifies this
      ensures State() == old(State()).Released(t)
    {
      if t == ticket {
        held := false;
      }
    }
  }

  // ---------- Lanes ----------

  // One live call at most, and one re-run at most coalesced behind it.
  class AsyncLane {
    const flight: InFlight
    const budgetMs: nat
    var again: bool

    constructor (budgetMs: nat)
      ensures this.budgetMs == budgetMs && !again && fresh(flight) && flight.State() == Flight(false, 0, 0)
    {
      this.budgetMs := budgetMs;
      flight := new InFlight();
      again := false;
    }

    function State(): Lane
      reads this, flight
    {
      Lane(flight.State(), again)
    }

    // Take the lane, or coalesce behind the live call.
    method TakeLane(now: int) returns (taken: bool, slot: nat)
      modifies this, flight
      ensures taken == !old(State().flight.Busy(now))
      ensures State() == old(State()).Requested(budgetMs, now)
      ensures taken ==> slot == State().flight.ticket
    {
      taken, slot := flight.Take(budgetMs, now);
      if !taken {
        again := true;
      }
    }

    // Drain the re-run queued behind a claim, if there is one.
    method LaneFinish() returns (rerun: bool)
      modifies this
      ensures rerun == old(again) && !again
    {
      rerun := again;
      again := false;
    }
  }

  datatype Lane = Lane(flight: Flight, again: bool) {
    function Requested(budgetMs: nat, now: int): Lane {
      if flight.Busy(now) then this.(again := true) else this.(flight := flight.Taken(budgetMs, now))
    }
  }
}
