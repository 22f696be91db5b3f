/**
 The two lanes of the view are lanes of LaneRuns: every run of the view takes each of them through a lane
 run, so what LaneRuns proves of a lane holds of them.
 */
module WalletLanes {
  import opened Basics
  import opened Guards
  import opened LaneRuns
  import opened Scope
  import P = WalletProtocol

  // The lane of balances and history, or that of the quote.
  datatype Which = Data | Quotes

  function LaneOf(st: P.State, w: Which): Lane { if w.Data? then st.dataLane else st.quoteLane }

  function TimersOf(st: P.State, w: Which): set<Timer> { if w.Data? then st.dataTimers else st.quoteTimers }

  function BudgetOf(w: Which): nat { if w.Data? then P.DataBudget() else P.QuoteBudget() }

  predicate InLane(c: P.Call, w: Which) {
    if w.Data? then c.BalancesCall? || c.HistoryCall? else c.QuoteCall?
  }

  // A re-run finds nothing to do: no account to read, or no send to price.
  predicate Declines(st: P.State, w: Which) {
    if w.Data? then st.screen.at.account == "" else !DescribesASend(st.quoteRequest)
  }

  predicate IdsOk(st: P.State) { forall id | id in st.calls :: id < st.nextCall }

  // Each ticket has one call of the lane at most on its way, and the lane run knows of it.
  ghost predicate SlotsTied(calls: map<nat, P.Call>, slots: set<nat>, w: Which) {
    && (forall id | id in calls && InLane(calls[id], w) :: calls[id].slot in slots)
    && (forall id, id' | id in calls && id' in calls && InLane(calls[id], w) && InLane(calls[id'], w)
                         && calls[id].slot == calls[id'].slot :: id == id')
  }

  // The lane run stands where the lane of the view does.
  ghost predicate Tied(r: LaneRun, st: P.State, w: Which) {
    && r.lane == LaneOf(st, w) && r.now == st.now && r.timers == TimersOf(st, w)
    && IdsOk(st) && SlotsTied(st.calls, r.calls, w)
  }

  // ---------- What happens to a lane ----------

  function LoadEvent(st: P.State): LaneEvent { if Declines(st, Data) then Lower else Asked }

  function PriceEvent(request: Request): LaneEvent { if DescribesASend(request) then Asked else Lower }

  // What a reply is to a lane: the first of two legs completes nothing, unless its claim was replaced.
  function ReplyEvent(st: P.State, c: P.Call, mined: bool, w: Which): Option<LaneEvent> {
    match c
    case BalancesCall(slot, _, _) =>
      if w.Data? && slot != st.dataLane.flight.ticket then Some(Lost(slot)) else None
    case HistoryCall(slot, _, _) => if w.Data? then Some(Answered(slot, Declines(st, w))) else None
    case QuoteCall(slot, _, _, _, _, _) => if w.Quotes? then Some(Answered(slot, Declines(st, w))) else None
    case ResendCall(slot, gen, leg, _) =>
      if w.Data? && slot == st.resend.ticket && gen == st.dataGen && leg.StatusLeg? && mined then Some(LoadEvent(st))
      else None
    case _ => None
  }

  // What an event of the view is to a lane, if anything.
  function EventOf(st: P.State, e: P.Event, w: Which): Option<LaneEvent> {
    match e
    case Elapse(ms) => Some(Tick(ms))
    case Reload => if w.Data? then Some(LoadEvent(st)) else None
    case Edit(request) => if w.Quotes? then Some(PriceEvent(request)) else None
    case PollQuote(sendPending) =>
      if w.Quotes? && st.quoteRequest != NoRequest && !sendPending then Some(PriceEvent(st.quoteRequest)) else None
    case DataLapse(timer) =>
      if w.Data? && timer in st.dataTimers && timer.due <= st.now then Some(Fire(timer, Declines(st, w))) else None
    case QuoteLapse(timer) =>
      if w.Quotes? && timer in st.quoteTimers && timer.due <= st.now then Some(Fire(timer, Declines(st, w))) else None
    case ReplyArrives(id, _, mined, _) =>
      if id in st.calls then ReplyEvent(st, st.calls[id], mined, w) else None
    case _ => None
  }

  // ---------- Steps that leave a lane alone ----------

  predicate Kept(st: P.State, next: P.State, w: Which) {
    && LaneOf(next, w) == LaneOf(st, w) && next.now == st.now && TimersOf(next, w) == TimersOf(st, w)
    && IdsOk(next)
    && forall id | id in next.calls && InLane(next.calls[id], w) :: id in st.calls && st.calls[id] == next.calls[id]
  }

  lemma KeptTied(r: LaneRun, st: P.State, next: P.State, w: Which)
    requires Tied(r, st, w) && Kept(st, next, w)
    ensures Tied(r, next, w)
  {}

  lemma ChangesKeep(st: P.State, w: Which, to: Selection, reply: Reply, on: bool)
    requires IdsOk(st)
    ensures Kept(st, P.PublishSelection(st, to), w) && Kept(st, P.ApplyVerifiedProxy(st, reply), w)
    ensures Kept(st, P.SetQuoteAutoRefresh(st, on), w) && Kept(st, P.DismissResend(st), w)
  {
    hide EnterScope, ApplyVerdict, Same;
  }

  lemma CallsKeep(st: P.State, w: Which, hash: string, hasHash: bool)
    requires IdsOk(st)
    ensures Kept(st, P.SubmitSend(st), w) && Kept(st, P.LoadFeeTiers(st), w)
    ensures Kept(st, P.ResendBlockedNonce(st, hasHash), w) && Kept(st, P.FetchTxDetails(st, hash), w)
  {
    hide P.Issue, Kept;
    var taken := st.fees.Taken(P.QuoteBudget(), st.now);
    ClaimKeeps(st, taken.Released(taken.ticket), st.details, st.resend, w);
    IssueKeeps(st, st.screen.(sendError := Blank), st.fees, st.details, st.resend, P.SendCall(st.dataGen, st.screen.at), w);
    IssueKeeps(st, st.screen, taken, st.details, st.resend, P.FeesCall(taken.ticket, st.dataGen, st.screen.at), w);
    var resend := st.resend.Taken(GuardBudgetMs(3, SendCallBudgetMs), st.now);
    var leg := if hasHash then P.StatusLeg else P.FeesLeg;
    IssueKeeps(st, st.screen, st.fees, st.details, resend, P.ResendCall(resend.ticket, st.dataGen, leg, st.screen.at), w);
    var details := st.details.Taken(GuardBudgetMs(1, CallBudgetMs), st.now);
    IssueKeeps(st, st.screen, st.fees, details, st.resend, P.DetailsCall(details.ticket, st.dataGen, hash, st.screen.at), w);
    ClaimKeeps(st, st.fees, st.details, st.resend, w);
  }

  lemma ClaimKeeps(st: P.State, fees: Flight, details: Flight, resend: Flight, w: Which)
    requires IdsOk(st)
    ensures Kept(st, st.(fees := fees, details := details, resend := resend), w)
  {}

  // A call that is none of the lane's goes out.
  lemma IssueKeeps(st: P.State, s: ScopedState, fees: Flight, details: Flight, resend: Flight, c: P.Call, w: Which)
    requires IdsOk(st) && !InLane(c, w)
    ensures Kept(st, P.Issue(st.(screen := s, fees := fees, details := details, resend := resend), c), w)
  {}

  lemma LoadKeepsQuotes(st: P.State)
    requires IdsOk(st)
    ensures Kept(st, P.LoadBalancesAndHistory(st), Quotes) && Kept(st, P.HandOnData(st), Quotes)
  {}

  lemma RunQuoteKeepsData(st: P.State, request: Request, interactive: bool)
    requires IdsOk(st)
    ensures Kept(st, P.RunQuote(st, request, interactive), Data)
  {
    hide DescribesASend, EnterQuoteRequest;
  }

  lemma HandOnKeepsData(st: P.State)
    requires IdsOk(st)
    ensures Kept(st, P.HandOnQuote(st), Data)
  {
    hide P.RunQuote;
    if st.quoteLane.again {
      RunQuoteKeepsData(
        st.(quoteLane := st.quoteLane.(again := false), againInteractive := false), st.quoteRequest, st.againInteractive);
    }
  }

  // ---------- Requests and the hand-on ----------

  lemma LoadTied(r: LaneRun, st: P.State)
    requires Tied(r, st, Data) && Claims(r)
    ensures Tied(Next(r, LoadEvent(st), BudgetOf(Data)), P.LoadBalancesAndHistory(st), Data)
  {
    hide ApplyNoAccount;
  }

  lemma PriceTied(r: LaneRun, st: P.State, request: Request, interactive: bool)
    requires Tied(r, st, Quotes) && Claims(r)
    ensures Tied(Next(r, PriceEvent(request), BudgetOf(Quotes)), P.RunQuote(st, request, interactive), Quotes)
  {
    hide DescribesASend, EnterQuoteRequest;
  }

  function HandedOn(st: P.State, w: Which): P.State { if w.Data? then P.HandOnData(st) else P.HandOnQuote(st) }

  lemma HandOnTied(r: LaneRun, st: P.State, w: Which)
    requires Tied(r, st, w) && Claims(r)
    ensures Tied(HandOn(r, BudgetOf(w), Declines(st, w)), HandedOn(st, w), w)
  {
    hide P.LoadBalancesAndHistory, P.RunQuote, Begin, DescribesASend;
    if r.lane.again {
      var lane := r.lane.(again := false);
      var drained := r.(lane := lane);
      if w.Data? {
        LoadTied(drained, st.(dataLane := lane));
      } else {
        PriceTied(drained, st.(quoteLane := lane, againInteractive := false), st.quoteRequest, st.againInteractive);
      }
    }
  }

  // ---------- Timers and replies ----------

  function Lapsed(st: P.State, timer: Timer, w: Which): P.State {
    if w.Data? then P.DataTimer(st, timer) else P.QuoteTimer(st, timer)
  }

  lemma TimerTied(r: LaneRun, st: P.State, timer: Timer, w: Which)
    requires Tied(r, st, w) && Claims(r) && timer in TimersOf(st, w) && timer.due <= st.now
    ensures Tied(Next(r, Fire(timer, Declines(st, w)), BudgetOf(w)), Lapsed(st, timer, w), w)
  {
    hide P.HandOnData, P.HandOnQuote, HandOn, DescribesASend;
    var fired := r.(timers := r.timers - {timer});
    HandOnTied(
      fired, if w.Data? then st.(dataTimers := st.dataTimers - {timer}) else st.(quoteTimers := st.quoteTimers - {timer}), w);
  }

  // The call of the reply is no longer on its way.
  function Gone(st: P.State, id: nat): P.State { st.(calls := st.calls - {id}) }

  lemma GoneTied(r: LaneRun, st: P.State, id: nat, w: Which)
    requires Tied(r, st, w) && id in st.calls
    ensures Tied(r, Gone(st, id), w)
    ensures InLane(st.calls[id], w) ==> Tied(r.(calls := r.calls - {st.calls[id].slot}), Gone(st, id), w)
  {}

  // The last leg of a call completes its claim, whatever it says.
  lemma CompletionTied(r: LaneRun, st: P.State, c: P.Call, reply: Reply, w: Which)
    requires LaneInv(r) && (if w.Data? then c.HistoryCall? else c.QuoteCall?) && c.slot in r.calls
    requires Tied(r.(calls := r.calls - {c.slot}), st, w)
    ensures Tied(Next(r, Answered(c.slot, Declines(st, w)), BudgetOf(w)),
                 if w.Data? then P.HistoryReply(st, c, reply) else P.QuoteReply(st, c, reply), w)
  {
    hide P.HandOnData, P.HandOnQuote, HandOn, ApplyHistory, ApplyQuote, Stamped, DescribesASend, LaneInv;
    CompleteInv(r, c.slot);
    var answered := Complete(r.(calls := r.calls - {c.slot}), c.slot);
    InvClaims(answered);
    hide Claims;
    if w.Data? {
      var applied := if c.gen != st.dataGen then st.screen
                     else ApplyHistory(st.screen, Stamped(reply, st.screen.at.chainId), c.under);
      HistoryStays(st.screen, Stamped(reply, st.screen.at.chainId), c.under);
      HandOnTied(
        answered, st.(screen := applied, dataLane := st.dataLane.(flight := st.dataLane.flight.Released(c.slot))), w);
    } else {
      var applied := if c.gen != st.dataGen || c.qgen != st.quoteGen then st.screen
                     else ApplyQuote(st.screen, reply, c.priced, c.interactive, c.under);
      HandOnTied(
        answered, st.(screen := applied, quoteLane := st.quoteLane.(flight := st.quoteLane.flight.Released(c.slot))), w);
    }
  }

  lemma HistoryStays(s: ScopedState, r: Reply, under: Selection)
    ensures ApplyHistory(s, r, under).at == s.at
  {
    hide AnswersFor;
  }

  // The first leg hands its slot to the second, or is lost with its claim.
  lemma FirstLegTied(r: LaneRun, st: P.State, id: nat, reply: Reply)
    requires Tied(r, st, Data) && id in st.calls && st.calls[id].BalancesCall?
    ensures var c := st.calls[id]; var next := P.BalancesReply(Gone(st, id), c, reply);
      if c.slot == st.dataLane.flight.ticket then Tied(r, next, Data)
      else Tied(r.(calls := r.calls - {c.slot}), next, Data)
  {
    hide ApplyBalances, Stamped;
    GoneTied(r, st, id, Data);
  }

  // Replies that are none of the lane's.
  lemma OtherRepliesKeep(st: P.State, c: P.Call, reply: Reply, mined: bool, priced: Option<string>, w: Which)
    requires IdsOk(st)
    ensures c.FeesCall? ==> Kept(st, P.FeesReply(st, c, reply), w)
    ensures c.DetailsCall? ==> Kept(st, P.DetailsReply(st, c, reply), w)
    ensures c.SendCall? ==> Kept(st, P.SendReturns(st, c, reply), w)
  {
    hide ApplyFeeTiers, ApplyTxDetails, ApplySend;
  }

  lemma LaneRepliesKeepOther(st: P.State, c: P.Call, reply: Reply)
    requires IdsOk(st)
    ensures c.BalancesCall? ==> Kept(st, P.BalancesReply(st, c, reply), Quotes)
    ensures c.HistoryCall? ==> Kept(st, P.HistoryReply(st, c, reply), Quotes)
    ensures c.QuoteCall? ==> Kept(st, P.QuoteReply(st, c, reply), Data)
  {
    hide ApplyBalances, ApplyHistory, ApplyQuote, Stamped, P.HandOnData, P.HandOnQuote;
    if c.HistoryCall? && c.slot == st.dataLane.flight.ticket {
      var applied := if c.gen != st.dataGen then st.screen
                     else ApplyHistory(st.screen, Stamped(reply, st.screen.at.chainId), c.under);
      LoadKeepsQuotes(
        st.(screen := applied, dataLane := st.dataLane.(flight := st.dataLane.flight.Released(c.slot))));
    }
    if c.QuoteCall? && c.slot == st.quoteLane.flight.ticket {
      var applied := if c.gen != st.dataGen || c.qgen != st.quoteGen then st.screen
                     else ApplyQuote(st.screen, reply, c.priced, c.interactive, c.under);
      HandOnKeepsData(
        st.(screen := applied, quoteLane := st.quoteLane.(flight := st.quoteLane.flight.Released(c.slot))));
    }
  }

  // A resend reads the account again when its row has mined, and is nothing to a lane otherwise.
  lemma ResendTied(r: LaneRun, st: P.State, c: P.Call, reply: Reply, mined: bool, priced: Option<string>, w: Which)
    requires Tied(r, st, w) && Claims(r) && c.ResendCall?
    ensures Moved(r, ReplyEvent(st, c, mined, w), P.ResendReply(st, c, reply, mined, priced), w)
  {
    hide P.LoadBalancesAndHistory, P.Issue, Claims, Begin, Tied, Kept;
    var ended := P.EndResend(st, c.slot);
    IdsOfTied(r, st, w);
    ClaimKeeps(st, st.fees, st.details, ended.resend, w);
    KeptTied(r, st, ended, w);
    IdsOfTied(r, ended, w);
    if c.slot == st.resend.ticket && c.gen == st.dataGen {
      match c.leg
      case StatusLeg =>
        if !mined {
          NextLegTied(r, st, P.ResendCall(c.slot, c.gen, P.FeesLeg, st.screen.at), w);
        } else if w.Data? {
          LoadTied(r, ended);
        } else {
          LoadKeepsQuotes(ended);
          KeptTied(r, ended, P.LoadBalancesAndHistory(ended), w);
        }
      case FeesLeg =>
        if reply.ok && priced.Some? {
          NextLegTied(r, st, P.ResendCall(c.slot, c.gen, P.QuoteLeg(priced.value), st.screen.at), w);
        }
      case QuoteLeg(request) => ReviewTied(r, ended, Known(request + reply.text, c.under), w);
    }
  }

  lemma IdsOfTied(r: LaneRun, st: P.State, w: Which)
    requires Tied(r, st, w)
    ensures IdsOk(st)
  {}

  lemma NextLegTied(r: LaneRun, st: P.State, c: P.Call, w: Which)
    requires Tied(r, st, w) && !InLane(c, w)
    ensures Tied(r, P.Issue(st, c), w)
  {
    IssueKeeps(st, st.screen, st.fees, st.details, st.resend, c, w);
    KeptTied(r, st, P.Issue(st, c), w);
  }

  lemma ReviewTied(r: LaneRun, st: P.State, review: Field, w: Which)
    requires Tied(r, st, w)
    ensures Tied(r, st.(screen := st.screen.(resendReview := review)), w)
  {}

  // The lane run after an event, if it is one to the lane.
  ghost predicate Moved(r: LaneRun, event: Option<LaneEvent>, next: P.State, w: Which) {
    if event.None? then Tied(r, next, w)
    else Enabled(r, event.value) && Tied(Next(r, event.value, BudgetOf(w)), next, w)
  }

  lemma DeliverTied(r: LaneRun, st: P.State, id: nat, reply: Reply, mined: bool, priced: Option<string>, w: Which)
    requires LaneInv(r) && Tied(r, st, w) && id in st.calls
    ensures Moved(r, ReplyEvent(st, st.calls[id], mined, w), P.Deliver(st, id, reply, mined, priced), w)
  {
    hide P.BalancesReply, P.HistoryReply, P.QuoteReply, P.FeesReply, P.DetailsReply, P.SendReturns, P.ResendReply;
    hide HandOn, Begin, LaneInv, Claims, DescribesASend;
    var c, gone := st.calls[id], Gone(st, id);
    InvClaims(r);
    GoneTied(r, st, id, w);
    match c
    case BalancesCall(_, _, _) =>
      LaneRepliesKeepOther(gone, c, reply);
      if w.Data? {
        FirstLegTied(r, st, id, reply);
      } else {
        KeptTied(r, gone, P.BalancesReply(gone, c, reply), w);
      }
    case HistoryCall(_, _, _) =>
      LaneRepliesKeepOther(gone, c, reply);
      if w.Data? {
        CompletionTied(r, gone, c, reply, w);
      } else {
        KeptTied(r, gone, P.HistoryReply(gone, c, reply), w);
      }
    case QuoteCall(_, _, _, _, _, _) =>
      LaneRepliesKeepOther(gone, c, reply);
      if w.Quotes? {
        CompletionTied(r, gone, c, reply, w);
      } else {
        KeptTied(r, gone, P.QuoteReply(gone, c, reply), w);
      }
    case ResendCall(_, _, _, _) => ResendTied(r, gone, c, reply, mined, priced, w);
    case FeesCall(_, _, _) =>
      OtherRepliesKeep(gone, c, reply, mined, priced, w);
      KeptTied(r, gone, P.FeesReply(gone, c, reply), w);
    case DetailsCall(_, _, _, _) =>
      OtherRepliesKeep(gone, c, reply, mined, priced, w);
      KeptTied(r, gone, P.DetailsReply(gone, c, reply), w);
    case SendCall(_, _) =>
      OtherRepliesKeep(gone, c, reply, mined, priced, w);
      KeptTied(r, gone, P.SendReturns(gone, c, reply), w);
  }

  // ---------- Every event, every run ----------

  lemma StepTied(r: LaneRun, st: P.State, e: P.Event, w: Which)
    requires LaneInv(r) && Tied(r, st, w)
    ensures Moved(r, EventOf(st, e, w), P.Step(st, e), w)
  {
    hide P.PublishSelection, P.LoadBalancesAndHistory, P.LoadFeeTiers, P.RunQuote, P.SetQuoteAutoRefresh, P.SubmitSend;
    hide P.ResendBlockedNonce, P.DismissResend, P.FetchTxDetails, P.ApplyVerifiedProxy, P.Deliver, P.DataTimer, P.QuoteTimer;
    hide HandOn, Begin, LaneInv, Claims, DescribesASend, ReplyEvent, Kept;
    InvClaims(r);
    IdsOfTied(r, st, w);
    match e
    case SelectAccount(account) =>
      var to := st.screen.at.(account := account);
      ChangesKeep(st, w, to, Silence, true);
      KeptTied(r, st, P.PublishSelection(st, to), w);
    case SelectNetwork(chainId) =>
      var to := st.screen.at.(chainId := chainId);
      ChangesKeep(st, w, to, Silence, true);
      KeptTied(r, st, P.PublishSelection(st, to), w);
    case Reload =>
      LoadKeepsQuotes(st);
      if w.Data? {
        LoadTied(r, st);
      } else {
        KeptTied(r, st, P.LoadBalancesAndHistory(st), w);
      }
    case Edit(request) => EditTied(r, st, request, true, w);
    case PollQuote(sendPending) => EditTied(r, st, st.quoteRequest, false, w);
    case ReloadFees =>
      CallsKeep(st, w, "", true);
      KeptTied(r, st, P.LoadFeeTiers(st), w);
    case AutoRefresh(on) =>
      ChangesKeep(st, w, st.screen.at, Silence, on);
      KeptTied(r, st, P.SetQuoteAutoRefresh(st, on), w);
    case Submit =>
      CallsKeep(st, w, "", true);
      KeptTied(r, st, P.SubmitSend(st), w);
    case Resend(hasHash) =>
      CallsKeep(st, w, "", hasHash);
      KeptTied(r, st, P.ResendBlockedNonce(st, hasHash), w);
    case Dismiss =>
      ChangesKeep(st, w, st.screen.at, Silence, true);
      KeptTied(r, st, P.DismissResend(st), w);
    case OpenDetails(hash) =>
      CallsKeep(st, w, hash, true);
      KeptTied(r, st, P.FetchTxDetails(st, hash), w);
    case VerdictArrives(reply) =>
      ChangesKeep(st, w, st.screen.at, reply, true);
      KeptTied(r, st, P.ApplyVerifiedProxy(st, reply), w);
    case ReplyArrives(id, reply, mined, priced) =>
      if id in st.calls {
        DeliverTied(r, st, id, reply, mined, priced, w);
      } else {
        NothingToDeliver(st, id, reply, mined, priced);
      }
    case DataLapse(timer) => LapseTied(r, st, timer, Data, w);
    case QuoteLapse(timer) => LapseTied(r, st, timer, Quotes, w);
    case ListTokens(tokens) => TokensTied(r, st, tokens, w);
    case Elapse(ms) =>
  }

  lemma TokensTied(r: LaneRun, st: P.State, tokens: string, w: Which)
    requires Tied(r, st, w)
    ensures Tied(r, st.(screen := st.screen.(tokens := tokens)), w)
  {}

  lemma NothingToDeliver(st: P.State, id: nat, reply: Reply, mined: bool, priced: Option<string>)
    requires id !in st.calls
    ensures P.Deliver(st, id, reply, mined, priced) == st
  {}

  lemma EditTied(r: LaneRun, st: P.State, request: Request, interactive: bool, w: Which)
    requires Tied(r, st, w) && Claims(r)
    ensures Moved(r, if w.Quotes? then Some(PriceEvent(request)) else None, P.RunQuote(st, request, interactive), w)
  {
    hide P.RunQuote, Begin, DescribesASend;
    if w.Quotes? {
      PriceTied(r, st, request, interactive);
    } else {
      RunQuoteKeepsData(st, request, interactive);
      KeptTied(r, st, P.RunQuote(st, request, interactive), w);
    }
  }

  // A timer that is not pending or not due does nothing; the other lane's does nothing to this one.
  lemma LapseTied(r: LaneRun, st: P.State, timer: Timer, of: Which, w: Which)
    requires Tied(r, st, w) && Claims(r)
    ensures Moved(r, EventOf(st, if of.Data? then P.DataLapse(timer) else P.QuoteLapse(timer), w), Lapsed(st, timer, of), w)
  {
    hide HandOn, P.HandOnData, P.HandOnQuote, DescribesASend;
    if timer in TimersOf(st, of) && timer.due <= st.now {
      if of == w {
        TimerTied(r, st, timer, w);
      } else if of.Data? {
        LoadKeepsQuotes(st.(dataTimers := st.dataTimers - {timer}));
        KeptTied(r, st, Lapsed(st, timer, of), w);
      } else {
        HandOnKeepsData(st.(quoteTimers := st.quoteTimers - {timer}));
        KeptTied(r, st, Lapsed(st, timer, of), w);
      }
    }
  }

  // The events of a lane in a run of the view.
  function LaneEvents(now: int, events: seq<P.Event>, w: Which): seq<LaneEvent>
    decreases |events|
  {
    if events == [] then []
    else
      var before := events[..|events| - 1];
      var e := EventOf(P.Run(P.Start(now), before), events[|events| - 1], w);
      LaneEvents(now, before, w) + if e.None? then [] else [e.value]
  }

  // Every run of the view takes each lane through a lane run.
  lemma {:induction false} RunFollows(now: int, events: seq<P.Event>, w: Which) returns (r: LaneRun)
    ensures Follows(Start(now), LaneEvents(now, events, w), r, BudgetOf(w))
    ensures LaneInv(r) && Tied(r, P.Run(P.Start(now), events), w)
    decreases |events|
  {
    hide P.Step, Next, EventOf, LaneInv;
    StartInv(now);
    if events == [] {
      r := Start(now);
    } else {
      var before := events[..|events| - 1];
      var st := P.Run(P.Start(now), before);
      r := RunFollows(now, before, w);
      var event := EventOf(st, events[|events| - 1], w);
      StepTied(r, st, events[|events| - 1], w);
      if event.Some? {
        NextInv(r, event.value, BudgetOf(w));
        FollowsSnoc(Start(now), LaneEvents(now, before, w), r, event.value, BudgetOf(w));
        r := Next(r, event.value, BudgetOf(w));
      } else {
        assert LaneEvents(now, before, w) + [] == LaneEvents(now, before, w);
      }
    }
  }

  // In every run, while a re-run is queued behind a lane or a claim is live, the lapse timer of the
  // claim in force is still to fire; once the timers have fired nothing is queued and nothing is busy.
  lemma QueuedWorkHasATimer(now: int, events: seq<P.Event>, w: Which)
    ensures var st := P.Run(P.Start(now), events); var lane := LaneOf(st, w);
      && (lane.again || lane.flight.Busy(st.now) ==> LapseOf(lane.flight) in TimersOf(st, w))
      && (TimersOf(st, w) == {} ==> !lane.again && !lane.flight.Busy(st.now))
  {
    hide P.Run;
    var r := RunFollows(now, events, w);
  }
}
