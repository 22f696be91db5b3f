/**
 The wallet view as a state machine: user actions, replies that come late, out of order or never, lapse
 timers and the clock, over the generation counters, the lanes and what is on screen.
 */
module WalletProtocol {
  import opened Basics
  import opened Guards
  import opened Scope

  // A call on its way, with what it captured when it was issued.
  datatype Call =
    | BalancesCall(slot: nat, gen: nat, under: Selection)
    | HistoryCall(slot: nat, gen: nat, under: Selection)
    | FeesCall(slot: nat, gen: nat, under: Selection)
    | QuoteCall(slot: nat, gen: nat, qgen: nat, priced: Request, interactive: bool, under: Selection)
    | DetailsCall(slot: nat, gen: nat, hash: string, under: Selection)
    | ResendCall(slot: nat, gen: nat, leg: Leg, under: Selection)
    | SendCall(gen: nat, under: Selection)

  // A resend asks whether the row has mined, then the current fees, then a quote of the priced request.
  datatype Leg = StatusLeg | FeesLeg | QuoteLeg(request: string)

  datatype State = State(
    now: int,
    screen: ScopedState,
    dataGen: nat,
    quoteGen: nat,
    quoteRequest: Request,
    againInteractive: bool,
    vpSilent: nat,
    dataLane: Lane,
    quoteLane: Lane,
    dataTimers: set<Timer>,
    quoteTimers: set<Timer>,
    fees: Flight,
    details: Flight,
    resend: Flight,
    calls: map<nat, Call>,
    nextCall: nat
  )

  // Nothing selected, nothing read.
  function Start(now: int): State {
    var idle := Flight(false, 0, 0);
    State(now, NothingRead(), 0, 0, NoRequest, false, 0, Lane(idle, false), Lane(idle, false), {}, {}, idle, idle, idle,
          map[], 0)
  }

  function NothingRead(): ScopedState {
    ScopedState(Selection("", 0), Stale, Blank, NoRoute, Blank, Blank, Blank, Blank, NoQuote, NoRequest, false, Blank, Blank, "",
                Blank, NoVerdict)
  }

  const MaxSilentPolls := 3

  function DataBudget(): nat { GuardBudgetMs(2, CallBudgetMs) }

  function QuoteBudget(): nat { GuardBudgetMs(1, SendCallBudgetMs) }

  function Issue(st: State, c: Call): State {
    st.(calls := st.calls[st.nextCall := c], nextCall := st.nextCall + 1)
  }

  // ---------- Moving the selection ----------

  function PublishSelection(st: State, to: Selection): State {
    var moved := !Same(st.screen.at, to);
    st.(screen := EnterScope(st.screen, to).(at := to),
        dataGen := if moved then st.dataGen + 1 else st.dataGen,
        quoteGen := if moved then st.quoteGen + 1 else st.quoteGen,
        vpSilent := if st.screen.at.chainId != to.chainId then 0 else st.vpSilent)
  }

  function SetSelectedAccount(st: State, account: string): State {
    PublishSelection(st, st.screen.at.(account := account))
  }

  function SetActiveNetwork(st: State, chainId: int): State {
    PublishSelection(st, st.screen.at.(chainId := chainId))
  }

  // ---------- Balances and history ----------

  function LoadBalancesAndHistory(st: State): State {
    if st.screen.at.account == "" then st.(screen := ApplyNoAccount(st.screen))
    else
      var taken := st.(dataLane := st.dataLane.Requested(DataBudget(), st.now));
      if st.dataLane.flight.Busy(st.now) then taken
      else
        var timed := taken.(dataTimers := st.dataTimers + {LapseOf(taken.dataLane.flight)});
        Issue(timed, BalancesCall(taken.dataLane.flight.ticket, st.dataGen, st.screen.at))
  }

  function HandOnData(st: State): State {
    if st.dataLane.again then LoadBalancesAndHistory(st.(dataLane := st.dataLane.(again := false))) else st
  }

  // The reply is stamped with the chain on screen as it arrives.
  function BalancesReply(st: State, c: Call, r: Reply): State
    requires c.BalancesCall?
  {
    if c.slot != st.dataLane.flight.ticket then st
    else
      var applied := if c.gen != st.dataGen then st.screen
                     else ApplyBalances(st.screen, Stamped(r, st.screen.at.chainId), c.under);
      Issue(st.(screen := applied), HistoryCall(c.slot, c.gen, c.under))
  }

  function HistoryReply(st: State, c: Call, r: Reply): State
    requires c.HistoryCall?
  {
    if c.slot != st.dataLane.flight.ticket then st
    else
      var applied := if c.gen != st.dataGen then st.screen
                     else ApplyHistory(st.screen, Stamped(r, st.screen.at.chainId), c.under);
      HandOnData(st.(screen := applied, dataLane := st.dataLane.(flight := st.dataLane.flight.Released(c.slot))))
  }

  // A lapse timer fires once, when it is due.
  function DataTimer(st: State, timer: Timer): State {
    if timer !in st.dataTimers || st.now < timer.due then st
    else
      var fired := st.(dataTimers := st.dataTimers - {timer});
      if st.dataLane.flight.Busy(st.now) then fired else HandOnData(fired)
  }

  // ---------- Fees ----------

  function LoadFeeTiers(st: State): State {
    if st.fees.Busy(st.now) then st
    else
      var taken := st.fees.Taken(QuoteBudget(), st.now);
      if st.screen.at.chainId == 0 then st.(fees := taken.Released(taken.ticket))
      else Issue(st.(fees := taken), FeesCall(taken.ticket, st.dataGen, st.screen.at))
  }

  function FeesReply(st: State, c: Call, r: Reply): State
    requires c.FeesCall?
  {
    var released := st.(fees := st.fees.Released(c.slot));
    if c.slot != st.fees.ticket || c.gen != st.dataGen then released
    else released.(screen := ApplyFeeTiers(st.screen, r, c.under))
  }

  // ---------- The quote ----------

  function RunQuote(st: State, request: Request, interactive: bool): State {
    var entered := EnterQuoteRequest(st.screen, request);
    var s := st.(quoteGen := if request != st.quoteRequest then st.quoteGen + 1 else st.quoteGen,
                 quoteRequest := request,
                 screen := if interactive then entered.(sendError := Blank) else entered);
    if !DescribesASend(request) then s
    else
      var taken := s.(quoteLane := s.quoteLane.Requested(QuoteBudget(), s.now));
      if s.quoteLane.flight.Busy(s.now) then taken.(againInteractive := s.againInteractive || interactive)
      else
        var timed := taken.(quoteTimers := s.quoteTimers + {LapseOf(taken.quoteLane.flight)});
        Issue(timed, QuoteCall(taken.quoteLane.flight.ticket, s.dataGen, s.quoteGen, request, interactive, s.screen.at))
  }

  // The queued request is the newest one, and an edit if any queued request was.
  function HandOnQuote(st: State): State {
    if st.quoteLane.again then
      RunQuote(st.(quoteLane := st.quoteLane.(again := false), againInteractive := false), st.quoteRequest, st.againInteractive)
    else st
  }

  function QuoteReply(st: State, c: Call, r: Reply): State
    requires c.QuoteCall?
  {
    if c.slot != st.quoteLane.flight.ticket then st
    else
      var applied := if c.gen != st.dataGen || c.qgen != st.quoteGen then st.screen
                     else ApplyQuote(st.screen, r, c.priced, c.interactive, c.under);
      HandOnQuote(st.(screen := applied, quoteLane := st.quoteLane.(flight := st.quoteLane.flight.Released(c.slot))))
  }

  function QuoteTimer(st: State, timer: Timer): State {
    if timer !in st.quoteTimers || st.now < timer.due then st
    else
      var fired := st.(quoteTimers := st.quoteTimers - {timer});
      if st.quoteLane.flight.Busy(st.now) then fired else HandOnQuote(fired)
  }

  function QuoteTick(st: State, sendPending: bool): State {
    if st.quoteRequest == NoRequest || sendPending then st else RunQuote(st, st.quoteRequest, false)
  }

  function SetQuoteAutoRefresh(st: State, on: bool): State {
    if on then st.(screen := st.screen.(sendError := Blank))
    else st.(quoteGen := st.quoteGen + 1, quoteRequest := NoRequest, screen := WithdrawQuote(st.screen))
  }

  // ---------- Sending ----------

  // The call dispatches queued events inline, so anything can happen before it returns.
  function SubmitSend(st: State): State {
    Issue(st.(screen := st.screen.(sendError := Blank)), SendCall(st.dataGen, st.screen.at))
  }

  function SendReturns(st: State, c: Call, r: Reply): State
    requires c.SendCall?
  {
    var applied := ApplySend(st.screen, r, c.gen == st.dataGen, c.under);
    st.(screen := if r.ok then applied.(resendReview := Blank) else applied)
  }

  // ---------- Resending a blocked nonce ----------

  function ResendBlockedNonce(st: State, hasHash: bool): State {
    if st.resend.Busy(st.now) then st
    else
      var taken := st.resend.Taken(GuardBudgetMs(3, SendCallBudgetMs), st.now);
      Issue(st.(resend := taken), ResendCall(taken.ticket, st.dataGen, if hasHash then StatusLeg else FeesLeg, st.screen.at))
  }

  function EndResend(st: State, slot: nat): State { st.(resend := st.resend.Released(slot)) }

  // mined: the status reply says the row has mined. priced: the request with its new fees, if any.
  function ResendReply(st: State, c: Call, r: Reply, mined: bool, priced: Option<string>): State
    requires c.ResendCall?
  {
    if c.slot != st.resend.ticket || c.gen != st.dataGen then EndResend(st, c.slot)
    else
      match c.leg
      case StatusLeg =>
        if mined then LoadBalancesAndHistory(EndResend(st, c.slot))
        else Issue(st, ResendCall(c.slot, c.gen, FeesLeg, st.screen.at))
      case FeesLeg =>
        if !r.ok || priced.None? then EndResend(st, c.slot)
        else Issue(st, ResendCall(c.slot, c.gen, QuoteLeg(priced.value), st.screen.at))
      case QuoteLeg(request) =>
        var ended := EndResend(st, c.slot);
        if !r.ok then ended else ended.(screen := ended.screen.(resendReview := Known(request + r.text, c.under)))
  }

  function DismissResend(st: State): State { st.(screen := st.screen.(resendReview := Blank)) }

  // ---------- Transaction details ----------

  function FetchTxDetails(st: State, hash: string): State {
    if st.screen.at.account == "" || hash == "" || st.details.Busy(st.now) then st
    else
      var taken := st.details.Taken(GuardBudgetMs(1, CallBudgetMs), st.now);
      Issue(st.(details := taken), DetailsCall(taken.ticket, st.dataGen, hash, st.screen.at))
  }

  function DetailsReply(st: State, c: Call, r: Reply): State
    requires c.DetailsCall?
  {
    var released := st.(details := st.details.Released(c.slot));
    if c.slot != st.details.ticket || c.gen != st.dataGen then released
    else released.(screen := ApplyTxDetails(st.screen, r, c.hash, c.under))
  }

  // ---------- The verified proxy ----------

  function ApplyVerifiedProxy(st: State, r: Reply): State {
    var v := ApplyVerdict(st.screen, r, st.vpSilent, MaxSilentPolls);
    st.(screen := v.s, vpSilent := v.silent)
  }

  // ---------- Events ----------

  datatype Event =
    | SelectAccount(account: string)
    | SelectNetwork(chainId: int)
    | ListTokens(tokens: string)
    | Reload
    | ReloadFees
    | Edit(request: Request)
    | PollQuote(sendPending: bool)
    | AutoRefresh(on: bool)
    | Submit
    | Resend(hasHash: bool)
    | Dismiss
    | OpenDetails(hash: string)
    | VerdictArrives(r: Reply)
    | ReplyArrives(id: nat, r: Reply, mined: bool, priced: Option<string>)
    | DataLapse(timer: Timer)
    | QuoteLapse(timer: Timer)
    | Elapse(ms: nat)

  function Deliver(st: State, id: nat, r: Reply, mined: bool, priced: Option<string>): State {
    if id !in st.calls then st
    else
      var c := st.calls[id];
      var answered := st.(calls := st.calls - {id});
      match c
      case BalancesCall(_, _, _) => BalancesReply(answered, c, r)
      case HistoryCall(_, _, _) => HistoryReply(answered, c, r)
      case FeesCall(_, _, _) => FeesReply(answered, c, r)
      case QuoteCall(_, _, _, _, _, _) => QuoteReply(answered, c, r)
      case DetailsCall(_, _, _, _) => DetailsReply(answered, c, r)
      case ResendCall(_, _, _, _) => ResendReply(answered, c, r, mined, priced)
      case SendCall(_, _) => SendReturns(answered, c, r)
  }

  function Step(st: State, e: Event): State {
    match e
    case SelectAccount(account) => SetSelectedAccount(st, account)
    case SelectNetwork(chainId) => SetActiveNetwork(st, chainId)
    case ListTokens(tokens) => st.(screen := st.screen.(tokens := tokens))
    case Reload => LoadBalancesAndHistory(st)
    case ReloadFees => LoadFeeTiers(st)
    case Edit(request) => RunQuote(st, request, true)
    case PollQuote(sendPending) => QuoteTick(st, sendPending)
    case AutoRefresh(on) => SetQuoteAutoRefresh(st, on)
    case Submit => SubmitSend(st)
    case Resend(hasHash) => ResendBlockedNonce(st, hasHash)
    case Dismiss => DismissResend(st)
    case OpenDetails(hash) => FetchTxDetails(st, hash)
    case VerdictArrives(r) => ApplyVerifiedProxy(st, r)
    case ReplyArrives(id, r, mined, priced) => Deliver(st, id, r, mined, priced)
    case DataLapse(timer) => DataTimer(st, timer)
    case QuoteLapse(timer) => QuoteTimer(st, timer)
    case Elapse(ms) => st.(now := st.now + ms)
  }

  function Run(st: State, events: seq<Event>): State
    decreases |events|
  {
    if events == [] then st else Step(Run(st, events[..|events| - 1]), events[|events| - 1])
  }
}
