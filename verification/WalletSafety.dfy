/** What every run of the wallet view keeps on screen. */
module WalletSafety {
  import opened Basics
  import opened Guards
  import opened Scope
  import opened Texts
  import opened WalletProtocol

  // A call issued under the present generation was issued under the present selection, and a quote
  // call of the present quote generation prices the newest request.
  predicate CallOk(c: Call, dataGen: nat, quoteGen: nat, at: Selection, quoteRequest: Request) {
    && c.gen <= dataGen && (c.gen == dataGen ==> Same(c.under, at))
    && (c.BalancesCall? || c.HistoryCall? ==> c.under.account != "")
    && (c.QuoteCall? ==> c.qgen <= quoteGen && (c.qgen == quoteGen ==> c.priced == quoteRequest) && DescribesASend(c.priced))
  }

  predicate CallsOk(st: State) {
    forall id | id in st.calls ::
      id < st.nextCall && CallOk(st.calls[id], st.dataGen, st.quoteGen, st.screen.at, st.quoteRequest)
  }

  // The published request is the newest one or none, and figures come with the request they priced.
  predicate QuoteOk(s: ScopedState, quoteRequest: Request) {
    && (s.quoteRequest == NoRequest || s.quoteRequest == quoteRequest)
    && (s.quote.Priced? ==> s.quote.request == s.quoteRequest != NoRequest)
  }

  predicate ScreenOk(s: ScopedState, quoteRequest: Request) { Scoped(s) && QuoteOk(s, quoteRequest) }

  predicate Inv(st: State) {
    && ScreenOk(st.screen, st.quoteRequest)
    && CallsOk(st)
    && (st.againInteractive ==> st.quoteLane.again)
  }

  // ---------- Transitions of the scoped state ----------

  // The screen s becomes s' under the same selection, and stays as it must be.
  predicate Keeps(s: ScopedState, s': ScopedState, q: Request) { s'.at == s.at && ScreenOk(s', q) }

  lemma BalancesKeep(s: ScopedState, r: Reply, under: Selection, q: Request)
    requires ScreenOk(s, q) && Same(under, s.at)
    ensures Keeps(s, ApplyBalances(s, r, under), q)
  {
    hide Same, AnswersFor;
  }

  lemma HistoryKeeps(s: ScopedState, r: Reply, under: Selection, q: Request)
    requires ScreenOk(s, q) && Same(under, s.at)
    ensures Keeps(s, ApplyHistory(s, r, under), q)
  {
    hide Same, AnswersFor;
  }

  lemma FeesKeep(s: ScopedState, r: Reply, under: Selection, q: Request)
    requires ScreenOk(s, q) && Same(under, s.at)
    ensures Keeps(s, ApplyFeeTiers(s, r, under), q)
  {
    assert under.chainId == s.at.chainId;
    hide Same, AnswersFor;
  }

  lemma QuoteKeeps(s: ScopedState, r: Reply, interactive: bool, under: Selection, q: Request)
    requires ScreenOk(s, q) && Same(under, s.at) && q != NoRequest
    ensures Keeps(s, ApplyQuote(s, r, q, interactive, under), q)
  {
    hide Same, AnswersFor;
  }

  lemma NothingDescribesNothing()
    ensures !DescribesASend(NoRequest)
  {}

  lemma DetailsKeep(s: ScopedState, r: Reply, hash: string, under: Selection, q: Request)
    requires ScreenOk(s, q) && Same(under, s.at)
    ensures Keeps(s, ApplyTxDetails(s, r, hash, under), q)
  {
    hide Same, AnswersFor, SameHex;
  }

  lemma SendKeeps(s: ScopedState, r: Reply, held: bool, under: Selection, q: Request)
    requires ScreenOk(s, q) && (held ==> Same(under, s.at))
    ensures Keeps(s, ApplySend(s, r, held, under), q)
    ensures Keeps(s, ApplySend(s, r, held, under).(resendReview := Blank), q)
  {
    hide Same;
  }

  lemma ReviewKeeps(s: ScopedState, review: Field, q: Request)
    requires ScreenOk(s, q) && (review.Known? ==> Same(review.under, s.at))
    ensures Keeps(s, s.(resendReview := review), q)
  {
    hide Same;
  }

  lemma VerdictKeeps(s: ScopedState, r: Reply, silent: nat, maxSilent: nat, q: Request)
    requires ScreenOk(s, q)
    ensures Keeps(s, ApplyVerdict(s, r, silent, maxSilent).s, q)
  {
    AnsweredChain(r, s.at);
    hide Same, AnswersFor;
    var answered := r.mode.Some? && AnswersFor(r, s.at);
    VerdictPublished(s, if answered then Verdict(r.chainId, r.mode, r.state) else UnknownVerdict(s.at.chainId), q);
    hide Scoped, QuoteOk, WithdrawQuote, UnknownVerdict;
  }

  lemma AnsweredChain(r: Reply, at: Selection)
    ensures AnswersFor(r, at) && r.chainId.Some? ==> r.chainId.value == at.chainId
  {}

  lemma VerdictPublished(s: ScopedState, v: Verdict, q: Request)
    requires ScreenOk(s, q) && (v.chainId.Some? ==> v.chainId.value == s.at.chainId)
    ensures ScreenOk(WithdrawQuote(s.(verifiedProxy := v)).(balancesRoute := NoRoute), q)
    ensures StandingOf(s.verifiedProxy) == StandingOf(v) ==> ScreenOk(s.(verifiedProxy := v), q)
  {
    hide Same;
  }

  lemma NoAccountKeeps(s: ScopedState, q: Request)
    requires ScreenOk(s, q)
    ensures Keeps(s, ApplyNoAccount(s), q)
  {
    SameMoves(s.at, s.at);
    hide Same;
  }

  // The error of the request just edited away is withdrawn with it.
  lemma EnterKeeps(s: ScopedState, q: Request, request: Request)
    requires ScreenOk(s, q)
    ensures Keeps(s, EnterQuoteRequest(s, request), request)
    ensures Keeps(s, EnterQuoteRequest(s, request).(sendError := Blank), request)
  {
    hide Same;
  }

  lemma WithdrawKeeps(s: ScopedState, q: Request)
    requires ScreenOk(s, q)
    ensures Keeps(s, WithdrawQuote(s), NoRequest) && Keeps(s, s.(sendError := Blank), q)
    ensures forall tokens :: Keeps(s, s.(tokens := tokens), q)
  {
    hide Same;
  }

  // Nothing on screen outlives the selection it was read under.
  lemma EnterScopeKeeps(s: ScopedState, to: Selection, q: Request)
    requires ScreenOk(s, q)
    ensures ScreenOk(EnterScope(s, to).(at := to), q)
  {
    if Same(s.at, to) {
      SameMoves(s.at, to);
    }
    hide SameText;
    if !Same(s.at, to) && s.at.chainId == to.chainId {
      hide Same;
    }
  }

  lemma SameMoves(a: Selection, b: Selection)
    requires Same(a, b) || a == b
    ensures a.chainId == b.chainId && Same(a, a)
    ensures forall c: Selection :: Same(c, a) ==> Same(c, b)
  {}

  // ---------- Steps ----------

  lemma IssueInv(st: State, c: Call)
    requires Inv(st) && CallOk(c, st.dataGen, st.quoteGen, st.screen.at, st.quoteRequest)
    ensures Inv(Issue(st, c))
  {
    hide ScreenOk, CallOk;
  }

  // A call that captured the present generation and selection.
  lemma FreshCallOk(st: State, c: Call)
    requires c.gen == st.dataGen && c.under == st.screen.at && !c.QuoteCall?
    requires c.BalancesCall? || c.HistoryCall? ==> c.under.account != ""
    ensures CallOk(c, st.dataGen, st.quoteGen, st.screen.at, st.quoteRequest)
  {}

  lemma ScreenInv(st: State, s: ScopedState)
    requires Inv(st) && Keeps(st.screen, s, st.quoteRequest)
    ensures Inv(st.(screen := s))
  {
    hide ScreenOk, CallOk;
  }

  lemma PublishSelectionInv(st: State, to: Selection)
    requires Inv(st)
    ensures Inv(PublishSelection(st, to))
  {
    hide ScreenOk, EnterScope;
    EnterScopeKeeps(st.screen, to, st.quoteRequest);
    if Same(st.screen.at, to) {
      SameMoves(st.screen.at, to);
    }
    hide Same;
  }

  lemma LoadBalancesAndHistoryInv(st: State)
    requires Inv(st)
    ensures Inv(LoadBalancesAndHistory(st))
  {
    hide ScreenOk, CallOk, ApplyNoAccount, Inv;
    if st.screen.at.account == "" {
      NoAccountInv(st);
    } else {
      var taken := st.(dataLane := st.dataLane.Requested(DataBudget(), st.now));
      LanesInv(st, taken.dataLane, st.quoteLane);
      var timers := st.dataTimers + {LapseOf(taken.dataLane.flight)};
      TimersInv(taken, timers, st.quoteTimers);
      var c := BalancesCall(taken.dataLane.flight.ticket, st.dataGen, st.screen.at);
      FreshCallOk(taken.(dataTimers := timers), c);
      IssueInv(taken.(dataTimers := timers), c);
    }
  }

  lemma NoAccountInv(st: State)
    requires Inv(st)
    ensures Inv(st.(screen := ApplyNoAccount(st.screen)))
  {
    hide ScreenOk, CallOk, ApplyNoAccount;
    NoAccountKeeps(st.screen, st.quoteRequest);
  }

  // Lanes and claims are no part of the invariant, but for the queued edit.
  lemma LanesInv(st: State, dataLane: Lane, quoteLane: Lane)
    requires Inv(st) && quoteLane.again == st.quoteLane.again
    ensures Inv(st.(dataLane := dataLane, quoteLane := quoteLane))
  {
    hide ScreenOk, CallOk;
  }

  lemma TimersInv(st: State, dataTimers: set<Timer>, quoteTimers: set<Timer>)
    requires Inv(st)
    ensures Inv(st.(dataTimers := dataTimers, quoteTimers := quoteTimers))
  {
    hide ScreenOk, CallOk;
  }

  lemma ClaimsInv(st: State, fees: Flight, details: Flight, resend: Flight)
    requires Inv(st)
    ensures Inv(st.(fees := fees, details := details, resend := resend))
  {
    hide ScreenOk, CallOk;
  }

  lemma HandOnDataInv(st: State)
    requires Inv(st)
    ensures Inv(HandOnData(st))
  {
    hide LoadBalancesAndHistory, Inv;
    if st.dataLane.again {
      LanesInv(st, st.dataLane.(again := false), st.quoteLane);
      LoadBalancesAndHistoryInv(st.(dataLane := st.dataLane.(again := false)));
    }
  }

  lemma BalancesReplyInv(st: State, c: Call, r: Reply)
    requires Inv(st) && c.BalancesCall? && CallOk(c, st.dataGen, st.quoteGen, st.screen.at, st.quoteRequest)
    ensures Inv(BalancesReply(st, c, r))
  {
    var stamped := Stamped(r, st.screen.at.chainId);
    var applied := if c.gen != st.dataGen then st.screen else ApplyBalances(st.screen, stamped, c.under);
    if c.gen == st.dataGen {
      BalancesKeep(st.screen, stamped, c.under, st.quoteRequest);
    }
    hide ScreenOk, ApplyBalances, Stamped, Same;
    ScreenInv(st, applied);
    IssueInv(st.(screen := applied), HistoryCall(c.slot, c.gen, c.under));
  }

  lemma HistoryReplyInv(st: State, c: Call, r: Reply)
    requires Inv(st) && c.HistoryCall? && CallOk(c, st.dataGen, st.quoteGen, st.screen.at, st.quoteRequest)
    ensures Inv(HistoryReply(st, c, r))
  {
    hide ScreenOk, ApplyHistory, Stamped, Same, HandOnData;
    var stamped := Stamped(r, st.screen.at.chainId);
    var applied := if c.gen != st.dataGen then st.screen else ApplyHistory(st.screen, stamped, c.under);
    if c.gen == st.dataGen {
      HistoryKeeps(st.screen, stamped, c.under, st.quoteRequest);
    }
    ScreenInv(st, applied);
    var released := st.dataLane.(flight := st.dataLane.flight.Released(c.slot));
    LanesInv(st.(screen := applied), released, st.quoteLane);
    HandOnDataInv(st.(screen := applied, dataLane := released));
  }

  lemma LoadFeeTiersInv(st: State)
    requires Inv(st)
    ensures Inv(LoadFeeTiers(st))
  {
    hide Inv, CallOk;
    var taken := st.fees.Taken(QuoteBudget(), st.now);
    ClaimsInv(st, taken.Released(taken.ticket), st.details, st.resend);
    ClaimsInv(st, taken, st.details, st.resend);
    var c := FeesCall(taken.ticket, st.dataGen, st.screen.at);
    FreshCallOk(st.(fees := taken), c);
    IssueInv(st.(fees := taken), c);
  }

  lemma FeesReplyInv(st: State, c: Call, r: Reply)
    requires Inv(st) && c.FeesCall? && CallOk(c, st.dataGen, st.quoteGen, st.screen.at, st.quoteRequest)
    ensures Inv(FeesReply(st, c, r))
  {
    hide ScreenOk, ApplyFeeTiers, Same;
    var released := st.(fees := st.fees.Released(c.slot));
    ClaimsInv(st, st.fees.Released(c.slot), st.details, st.resend);
    if c.gen == st.dataGen {
      FeesKeep(st.screen, r, c.under, st.quoteRequest);
      ScreenInv(released, ApplyFeeTiers(st.screen, r, c.under));
    }
  }

  // The new request enters, and every call of an older one falls behind the generation.
  lemma EnteredInv(st: State, request: Request, s: ScopedState)
    requires ScreenOk(st.screen, st.quoteRequest) && CallsOk(st) && (st.againInteractive ==> st.quoteLane.again)
    requires Keeps(st.screen, s, request)
    ensures Inv(st.(quoteGen := if request != st.quoteRequest then st.quoteGen + 1 else st.quoteGen,
                    quoteRequest := request, screen := s))
  {
    hide ScreenOk, Same, DescribesASend;
  }

  lemma RunQuoteInv(st: State, request: Request, interactive: bool)
    requires Inv(st)
    ensures Inv(RunQuote(st, request, interactive))
  {
    hide ScreenOk, DescribesASend, EnterQuoteRequest, Same;
    EnterKeeps(st.screen, st.quoteRequest, request);
    var entered := EnterQuoteRequest(st.screen, request);
    var screen := if interactive then entered.(sendError := Blank) else entered;
    EnteredInv(st, request, screen);
    hide CallsOk;
    var s := st.(quoteGen := if request != st.quoteRequest then st.quoteGen + 1 else st.quoteGen,
                 quoteRequest := request, screen := screen);
    if DescribesASend(request) {
      var lane := s.quoteLane.Requested(QuoteBudget(), s.now);
      var taken := s.(quoteLane := lane);
      if s.quoteLane.flight.Busy(s.now) {
        QueuedInv(s, lane, s.againInteractive || interactive);
      } else {
        LanesInv(s, s.dataLane, lane);
        var timers := s.quoteTimers + {LapseOf(lane.flight)};
        TimersInv(taken, s.dataTimers, timers);
        SameMoves(s.screen.at, s.screen.at);
        var timed := taken.(quoteTimers := timers);
        IssueInv(timed, QuoteCall(lane.flight.ticket, s.dataGen, s.quoteGen, request, interactive, s.screen.at));
      }
    }
  }

  lemma QueuedInv(st: State, quoteLane: Lane, edit: bool)
    requires Inv(st) && quoteLane.again
    ensures Inv(st.(quoteLane := quoteLane, againInteractive := edit))
  {
    hide ScreenOk, CallOk;
  }

  lemma DrainInv(st: State)
    requires Inv(st)
    ensures Inv(st.(quoteLane := st.quoteLane.(again := false), againInteractive := false))
  {
    hide ScreenOk, CallOk;
  }

  lemma HandOnQuoteInv(st: State)
    requires Inv(st)
    ensures Inv(HandOnQuote(st))
  {
    hide Inv, RunQuote;
    if st.quoteLane.again {
      DrainInv(st);
      RunQuoteInv(
        st.(quoteLane := st.quoteLane.(again := false), againInteractive := false), st.quoteRequest, st.againInteractive);
    }
  }

  lemma QuoteReplyInv(st: State, c: Call, r: Reply)
    requires Inv(st) && c.QuoteCall? && CallOk(c, st.dataGen, st.quoteGen, st.screen.at, st.quoteRequest)
    ensures Inv(QuoteReply(st, c, r))
  {
    hide ScreenOk, ApplyQuote, Same, HandOnQuote, DescribesASend;
    var late := c.gen != st.dataGen || c.qgen != st.quoteGen;
    var applied := if late then st.screen else ApplyQuote(st.screen, r, c.priced, c.interactive, c.under);
    if !late {
      NothingDescribesNothing();
      QuoteKeeps(st.screen, r, c.interactive, c.under, st.quoteRequest);
    }
    ScreenInv(st, applied);
    var released := st.quoteLane.(flight := st.quoteLane.flight.Released(c.slot));
    LanesInv(st.(screen := applied), st.dataLane, released);
    HandOnQuoteInv(st.(screen := applied, quoteLane := released));
  }

  lemma AutoRefreshInv(st: State, on: bool)
    requires Inv(st)
    ensures Inv(SetQuoteAutoRefresh(st, on))
  {
    hide ScreenOk, DescribesASend, WithdrawQuote, Same;
    WithdrawKeeps(st.screen, st.quoteRequest);
  }

  lemma SubmitSendInv(st: State)
    requires Inv(st)
    ensures Inv(SubmitSend(st))
  {
    hide ScreenOk, CallOk;
    WithdrawKeeps(st.screen, st.quoteRequest);
    var cleared := st.(screen := st.screen.(sendError := Blank));
    ScreenInv(st, st.screen.(sendError := Blank));
    FreshCallOk(cleared, SendCall(st.dataGen, st.screen.at));
    IssueInv(cleared, SendCall(st.dataGen, st.screen.at));
  }

  lemma SendReturnsInv(st: State, c: Call, r: Reply)
    requires Inv(st) && c.SendCall? && CallOk(c, st.dataGen, st.quoteGen, st.screen.at, st.quoteRequest)
    ensures Inv(SendReturns(st, c, r))
  {
    hide ScreenOk, ApplySend, Same;
    SendKeeps(st.screen, r, c.gen == st.dataGen, c.under, st.quoteRequest);
    var applied := ApplySend(st.screen, r, c.gen == st.dataGen, c.under);
    ScreenInv(st, if r.ok then applied.(resendReview := Blank) else applied);
  }

  lemma ResendBlockedNonceInv(st: State, hasHash: bool)
    requires Inv(st)
    ensures Inv(ResendBlockedNonce(st, hasHash))
  {
    hide Inv, CallOk;
    var taken := st.resend.Taken(GuardBudgetMs(3, SendCallBudgetMs), st.now);
    ClaimsInv(st, st.fees, st.details, taken);
    var c := ResendCall(taken.ticket, st.dataGen, if hasHash then StatusLeg else FeesLeg, st.screen.at);
    FreshCallOk(st.(resend := taken), c);
    IssueInv(st.(resend := taken), c);
  }

  lemma DismissResendInv(st: State)
    requires Inv(st)
    ensures Inv(DismissResend(st))
  {
    hide ScreenOk;
    ReviewKeeps(st.screen, Blank, st.quoteRequest);
    ScreenInv(st, st.screen.(resendReview := Blank));
  }

  lemma ResendReplyInv(st: State, c: Call, r: Reply, mined: bool, priced: Option<string>)
    requires Inv(st) && c.ResendCall? && CallOk(c, st.dataGen, st.quoteGen, st.screen.at, st.quoteRequest)
    ensures Inv(ResendReply(st, c, r, mined, priced))
  {
    hide Inv, Same, LoadBalancesAndHistory;
    var ended := EndResend(st, c.slot);
    ClaimsInv(st, st.fees, st.details, ended.resend);
    if c.slot == st.resend.ticket && c.gen == st.dataGen {
      LoadBalancesAndHistoryInv(ended);
      match c.leg
      case StatusLeg => NextLegInv(st, c, FeesLeg);
      case FeesLeg =>
        if priced.Some? {
          NextLegInv(st, c, QuoteLeg(priced.value));
        }
      case QuoteLeg(request) => ReviewInv(ended, Known(request + r.text, c.under));
    }
  }

  lemma NextLegInv(st: State, c: Call, leg: Leg)
    requires Inv(st) && c.ResendCall? && c.gen == st.dataGen
    ensures Inv(Issue(st, ResendCall(c.slot, c.gen, leg, st.screen.at)))
  {
    hide Inv, CallOk;
    FreshCallOk(st, ResendCall(c.slot, c.gen, leg, st.screen.at));
    IssueInv(st, ResendCall(c.slot, c.gen, leg, st.screen.at));
  }

  lemma ReviewInv(st: State, review: Field)
    requires Inv(st) && (review.Known? ==> Same(review.under, st.screen.at))
    ensures Inv(st.(screen := st.screen.(resendReview := review)))
  {
    hide ScreenOk, Same;
    ReviewKeeps(st.screen, review, st.quoteRequest);
    ScreenInv(st, st.screen.(resendReview := review));
  }

  lemma FetchTxDetailsInv(st: State, hash: string)
    requires Inv(st)
    ensures Inv(FetchTxDetails(st, hash))
  {
    hide Inv, CallOk;
    var taken := st.details.Taken(GuardBudgetMs(1, CallBudgetMs), st.now);
    ClaimsInv(st, st.fees, taken, st.resend);
    var c := DetailsCall(taken.ticket, st.dataGen, hash, st.screen.at);
    FreshCallOk(st.(details := taken), c);
    IssueInv(st.(details := taken), c);
  }

  lemma DetailsReplyInv(st: State, c: Call, r: Reply)
    requires Inv(st) && c.DetailsCall? && CallOk(c, st.dataGen, st.quoteGen, st.screen.at, st.quoteRequest)
    ensures Inv(DetailsReply(st, c, r))
  {
    hide ScreenOk, ApplyTxDetails, Same;
    var released := st.(details := st.details.Released(c.slot));
    ClaimsInv(st, st.fees, st.details.Released(c.slot), st.resend);
    if c.gen == st.dataGen {
      DetailsKeep(st.screen, r, c.hash, c.under, st.quoteRequest);
      ScreenInv(released, ApplyTxDetails(st.screen, r, c.hash, c.under));
    }
  }

  lemma VerdictInv(st: State, r: Reply)
    requires Inv(st)
    ensures Inv(ApplyVerifiedProxy(st, r))
  {
    hide ScreenOk, ApplyVerdict, CallOk;
    VerdictKeeps(st.screen, r, st.vpSilent, MaxSilentPolls, st.quoteRequest);
  }

  lemma AnsweredInv(st: State, id: nat)
    requires Inv(st) && id in st.calls
    ensures Inv(st.(calls := st.calls - {id}))
    ensures CallOk(st.calls[id], st.dataGen, st.quoteGen, st.screen.at, st.quoteRequest)
  {
    hide ScreenOk, CallOk;
  }

  lemma DeliverInv(st: State, id: nat, r: Reply, mined: bool, priced: Option<string>)
    requires Inv(st)
    ensures Inv(Deliver(st, id, r, mined, priced))
  {
    hide ScreenOk, CallOk, BalancesReply, HistoryReply, FeesReply, QuoteReply, DetailsReply, ResendReply, SendReturns;
    if id in st.calls {
      var c := st.calls[id];
      var answered := st.(calls := st.calls - {id});
      AnsweredInv(st, id);
      hide Inv, CallsOk;
      match c
      case BalancesCall(_, _, _) => BalancesReplyInv(answered, c, r);
      case HistoryCall(_, _, _) => HistoryReplyInv(answered, c, r);
      case FeesCall(_, _, _) => FeesReplyInv(answered, c, r);
      case QuoteCall(_, _, _, _, _, _) => QuoteReplyInv(answered, c, r);
      case DetailsCall(_, _, _, _) => DetailsReplyInv(answered, c, r);
      case ResendCall(_, _, _, _) => ResendReplyInv(answered, c, r, mined, priced);
      case SendCall(_, _) => SendReturnsInv(answered, c, r);
    }
  }

  lemma TokensInv(st: State, tokens: string)
    requires Inv(st)
    ensures Inv(st.(screen := st.screen.(tokens := tokens)))
  {
    hide ScreenOk;
    WithdrawKeeps(st.screen, st.quoteRequest);
    ScreenInv(st, st.screen.(tokens := tokens));
  }

  lemma ElapseInv(st: State, ms: nat)
    requires Inv(st)
    ensures Inv(st.(now := st.now + ms))
  {
    hide ScreenOk, CallOk;
  }

  lemma StepInv(st: State, e: Event)
    requires Inv(st)
    ensures Inv(Step(st, e))
  {
    hide Inv, PublishSelection, LoadBalancesAndHistory, LoadFeeTiers, RunQuote, SetQuoteAutoRefresh, SubmitSend;
    hide ResendBlockedNonce, DismissResend, FetchTxDetails, ApplyVerifiedProxy, Deliver, HandOnData, HandOnQuote;
    match e
    case SelectAccount(account) => PublishSelectionInv(st, st.screen.at.(account := account));
    case SelectNetwork(chainId) => PublishSelectionInv(st, st.screen.at.(chainId := chainId));
    case ListTokens(tokens) => TokensInv(st, tokens);
    case Reload => LoadBalancesAndHistoryInv(st);
    case ReloadFees => LoadFeeTiersInv(st);
    case Edit(request) => RunQuoteInv(st, request, true);
    case PollQuote(sendPending) => RunQuoteInv(st, st.quoteRequest, false);
    case AutoRefresh(on) => AutoRefreshInv(st, on);
    case Submit => SubmitSendInv(st);
    case Resend(hasHash) => ResendBlockedNonceInv(st, hasHash);
    case Dismiss => DismissResendInv(st);
    case OpenDetails(hash) => FetchTxDetailsInv(st, hash);
    case VerdictArrives(r) => VerdictInv(st, r);
    case ReplyArrives(id, r, mined, priced) => DeliverInv(st, id, r, mined, priced);
    case DataLapse(timer) =>
      TimersInv(st, st.dataTimers - {timer}, st.quoteTimers);
      HandOnDataInv(st.(dataTimers := st.dataTimers - {timer}));
    case QuoteLapse(timer) =>
      TimersInv(st, st.dataTimers, st.quoteTimers - {timer});
      HandOnQuoteInv(st.(quoteTimers := st.quoteTimers - {timer}));
    case Elapse(ms) => ElapseInv(st, ms);
  }

  // ---------- Every run ----------

  lemma StartInv(now: int)
    ensures Inv(Start(now))
  {}

  // In every run, whatever moves, and whatever answers late, out of order or never, everything scoped
  // on screen came from a call issued under the selection on screen, fees from one under its chain,
  // and the published quote request is the newest one or none.
  lemma {:induction false} EveryRunIsSafe(now: int, events: seq<Event>)
    ensures Inv(Run(Start(now), events))
    decreases |events|
  {
    hide Step, Inv;
    StartInv(now);
    if events != [] {
      EveryRunIsSafe(now, events[..|events| - 1]);
      StepInv(Run(Start(now), events[..|events| - 1]), events[|events| - 1]);
    }
  }

  // ---------- What the generation counters are for ----------

  // The claim a call was made under has been replaced.
  predicate Replaced(c: Call, st: State) {
    match c
    case BalancesCall(slot, _, _) => slot != st.dataLane.flight.ticket
    case HistoryCall(slot, _, _) => slot != st.dataLane.flight.ticket
    case FeesCall(slot, _, _) => slot != st.fees.ticket
    case QuoteCall(slot, _, _, _, _, _) => slot != st.quoteLane.flight.ticket
    case DetailsCall(slot, _, _, _) => slot != st.details.ticket
    case ResendCall(slot, _, _, _) => slot != st.resend.ticket
    case SendCall(_, _) => false
  }

  // The selection, or the request of a quote, has moved since a call was made.
  predicate Outdated(c: Call, st: State) { c.gen != st.dataGen || (c.QuoteCall? && c.qgen != st.quoteGen) }

  // A reply whose claim was replaced, or whose generation has passed, leaves the same state whatever it
  // says. (An accepted send still closes the review it was sent from.)
  lemma LateRepliesSayNothing(st: State, id: nat, r: Reply, r': Reply, mined: bool, mined': bool,
                              priced: Option<string>, priced': Option<string>)
    requires id in st.calls && !st.calls[id].SendCall?
    requires Replaced(st.calls[id], st) || Outdated(st.calls[id], st)
    ensures Deliver(st, id, r, mined, priced) == Deliver(st, id, r', mined', priced')
    ensures Replaced(st.calls[id], st) ==> Deliver(st, id, r, mined, priced) == st.(calls := st.calls - {id})
  {
    hide ApplyBalances, ApplyHistory, ApplyFeeTiers, ApplyQuote, ApplyTxDetails, HandOnData, HandOnQuote, Issue;
    hide Stamped;
    hide LoadBalancesAndHistory;
  }

  // Moving the selection, even away and back, makes every earlier call a late one.
  lemma MovesOutdateCalls(st: State, id: nat, to: Selection)
    requires Inv(st) && id in st.calls && !Same(st.screen.at, to)
    ensures var back := PublishSelection(PublishSelection(st, to), st.screen.at);
      && Same(back.screen.at, st.screen.at) && id in back.calls && back.calls[id] == st.calls[id]
      && back.calls[id].gen < back.dataGen
  {
    hide ScreenOk, EnterScope, SameText;
    SameMoves(st.screen.at, st.screen.at);
  }

  // Editing a request, even away and back, makes every earlier quote call a late one.
  lemma EditsOutdateQuotes(st: State, id: nat, other: Request, interactive: bool, interactive': bool)
    requires Inv(st) && id in st.calls && st.calls[id].QuoteCall? && other != st.quoteRequest
    ensures var back := RunQuote(RunQuote(st, other, interactive), st.quoteRequest, interactive');
      back.quoteRequest == st.quoteRequest && id in back.calls && back.calls[id] == st.calls[id]
      && st.calls[id].qgen < back.quoteGen
  {
    hide RunQuote, ScreenOk, CallOk;
    assert CallOk(st.calls[id], st.dataGen, st.quoteGen, st.screen.at, st.quoteRequest);
    assert st.calls[id].qgen <= st.quoteGen by { QuoteCallsAreBehind(st, st.calls[id]); }
    RunQuoteAdds(st, other, interactive, id);
    RunQuoteAdds(RunQuote(st, other, interactive), st.quoteRequest, interactive', id);
  }

  lemma QuoteCallsAreBehind(st: State, c: Call)
    requires c.QuoteCall? && CallOk(c, st.dataGen, st.quoteGen, st.screen.at, st.quoteRequest)
    ensures c.qgen <= st.quoteGen
  {
    hide Same, DescribesASend;
  }

  lemma RunQuoteAdds(st: State, request: Request, interactive: bool, id: nat)
    requires id in st.calls && id < st.nextCall
    ensures var next := RunQuote(st, request, interactive);
      && id in next.calls && next.calls[id] == st.calls[id] && id < next.nextCall && next.quoteRequest == request
      && next.quoteGen == st.quoteGen + if request != st.quoteRequest then 1 else 0
  {
    hide DescribesASend, EnterQuoteRequest;
  }

  // The stamped chain proves nothing: balances read under one network pass the check on the screen of
  // another, and only the generation keeps them off it.
  lemma StampAloneIsNotEnough(s: ScopedState, r: Reply, readUnder: Selection)
    requires Scoped(s) && r.ok && r.account == Some(readUnder.account)
    requires SameText(readUnder.account, s.at.account) && readUnder.chainId != s.at.chainId
    ensures ApplyBalances(s, Stamped(r, s.at.chainId), readUnder).balances == Known(r.text, readUnder)
    ensures !Scoped(ApplyBalances(s, Stamped(r, s.at.chainId), readUnder))
  {}

  // ---------- Queued edits ----------

  // An edit that finds the lane busy is queued for the newest request.
  lemma EditIsQueued(st: State, request: Request)
    requires DescribesASend(request) && st.quoteLane.flight.Busy(st.now)
    ensures var next := RunQuote(st, request, true);
      next.againInteractive && next.quoteLane.again && next.quoteRequest == request
  {}

  // The newest request goes out as an edit, under the present generations.
  predicate Replayed(st: State, next: State) {
    && st.nextCall in next.calls
    && var c := next.calls[st.nextCall];
    && c.QuoteCall? && c.interactive && c.priced == next.quoteRequest == st.quoteRequest
    && c.qgen == next.quoteGen && c.gen == next.dataGen && c.slot == next.quoteLane.flight.ticket
  }

  // Nothing is queued any more.
  predicate Drained(next: State) { !next.againInteractive && !next.quoteLane.again }

  // The event hands the quote lane on: its call completes, or its claim lapses.
  predicate HandsQuoteOn(st: State, e: Event) {
    match e
    case QuoteLapse(timer) => timer in st.quoteTimers && timer.due <= st.now && !st.quoteLane.flight.Busy(st.now)
    case ReplyArrives(id, _, _, _) =>
      id in st.calls && st.calls[id].QuoteCall? && st.calls[id].slot == st.quoteLane.flight.ticket
    case _ => false
  }

  lemma HandOnReplays(st: State)
    requires Inv(st) && st.againInteractive && !st.quoteLane.flight.Busy(st.now)
    ensures var next := HandOnQuote(st);
      if DescribesASend(st.quoteRequest) then Replayed(st, next) && Drained(next) else Drained(next)
  {
    hide DescribesASend, ScreenOk, EnterQuoteRequest;
  }

  // A queued edit stays queued through every event but the one that hands the lane on; that one sends
  // it out, as an edit of the newest request, or drops it if the form describes no send by then.
  lemma QueuedEditsAreReplayed(st: State, e: Event)
    requires Inv(st) && st.againInteractive
    ensures var next := Step(st, e);
      if !HandsQuoteOn(st, e) then next.againInteractive && next.quoteLane.again
      else if DescribesASend(st.quoteRequest) then Replayed(st, next) && Drained(next)
      else Drained(next)
  {
    hide DescribesASend, ScreenOk, EnterQuoteRequest, EnterScope, ApplyNoAccount, ApplyVerdict, ApplyBalances;
    hide ApplyHistory, ApplyFeeTiers, ApplyQuote, ApplyTxDetails, ApplySend, Stamped, HandOnQuote, Replayed, Same, Inv;
    StepInv(st, e);
    QueuedMeansAgain(st);
    match e
    case QuoteLapse(timer) =>
      if HandsQuoteOn(st, e) {
        var fired := st.(quoteTimers := st.quoteTimers - {timer});
        TimersInv(st, st.dataTimers, st.quoteTimers - {timer});
        HandOnReplays(fired);
        assert Replayed(fired, HandOnQuote(fired)) ==> Replayed(st, HandOnQuote(fired)) by {
          ReplayedFrom(fired, st, HandOnQuote(fired));
        }
      }
    case ReplyArrives(id, r, mined, priced) => QueuedEditsSurviveReplies(st, id, r, mined, priced);
    case _ =>
  }

  lemma QueuedMeansAgain(st: State)
    requires Inv(st)
    ensures st.againInteractive ==> st.quoteLane.again
  {}

  lemma ReplayedFrom(a: State, b: State, next: State)
    requires a.nextCall == b.nextCall && a.quoteRequest == b.quoteRequest
    ensures Replayed(a, next) ==> Replayed(b, next)
  {}

  lemma QueuedEditsSurviveReplies(st: State, id: nat, r: Reply, mined: bool, priced: Option<string>)
    requires Inv(st) && st.againInteractive
    ensures var next := Deliver(st, id, r, mined, priced);
      if !HandsQuoteOn(st, ReplyArrives(id, r, mined, priced)) then next.againInteractive && next.quoteLane.again
      else if DescribesASend(st.quoteRequest) then Replayed(st, next) && Drained(next)
      else Drained(next)
  {
    hide DescribesASend, ScreenOk, EnterQuoteRequest, ApplyNoAccount, ApplyBalances, ApplyHistory, CallOk;
    hide ApplyFeeTiers, ApplyQuote, ApplyTxDetails, ApplySend, Stamped, HandOnQuote, Same;
    if id in st.calls && st.calls[id].QuoteCall? && st.calls[id].slot == st.quoteLane.flight.ticket {
      var c := st.calls[id];
      var answered := st.(calls := st.calls - {id});
      assert CallOk(c, st.dataGen, st.quoteGen, st.screen.at, st.quoteRequest);
      assert Inv(answered);
      ReplyReplays(answered, c, r);
    }
  }

  lemma ReplyReplays(st: State, c: Call, r: Reply)
    requires Inv(st) && st.againInteractive && c.QuoteCall? && c.slot == st.quoteLane.flight.ticket
    requires CallOk(c, st.dataGen, st.quoteGen, st.screen.at, st.quoteRequest)
    ensures var next := QuoteReply(st, c, r);
      if DescribesASend(st.quoteRequest) then Replayed(st, next) && Drained(next) else Drained(next)
  {
    hide ScreenOk, ApplyQuote, Same, HandOnQuote, DescribesASend;
    var late := c.gen != st.dataGen || c.qgen != st.quoteGen;
    var applied := if late then st.screen else ApplyQuote(st.screen, r, c.priced, c.interactive, c.under);
    if !late {
      NothingDescribesNothing();
      QuoteKeeps(st.screen, r, c.interactive, c.under, st.quoteRequest);
    }
    ScreenInv(st, applied);
    var released := st.quoteLane.(flight := st.quoteLane.flight.Released(c.slot));
    LanesInv(st.(screen := applied), st.dataLane, released);
    HandOnReplays(st.(screen := applied, quoteLane := released));
  }
}
