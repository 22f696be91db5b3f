/**
 The view's backend as it runs: an object whose methods update its counters, its claims and the published
 properties one at a time. Each method does what the state machine of WalletProtocol says, and every
 intermediate update that reaches the screen is safe.
 */
module WalletBackend {
  import opened Basics
  import opened Guards
  import opened Scope
  import opened Texts
  import opened WalletSafety
  import P = WalletProtocol

  // ---------- Publishing one property at a time ----------

  // The screen after the first k of the fifteen setters that turn one state into another.
  function Mixed(a: ScopedState, b: ScopedState, k: nat): ScopedState {
    ScopedState(
      a.at,
      if k > 0 then b.freshness else a.freshness,
      if k > 1 then b.balances else a.balances,
      if k > 2 then b.balancesRoute else a.balancesRoute,
      if k > 3 then b.history else a.history,
      if k > 4 then b.blockedChains else a.blockedChains,
      if k > 5 then b.blockedNonces else a.blockedNonces,
      if k > 6 then b.resendReview else a.resendReview,
      if k > 7 then b.quote else a.quote,
      if k > 8 then b.quoteRequest else a.quoteRequest,
      if k > 9 then b.quoteStale else a.quoteStale,
      if k > 10 then b.sendError else a.sendError,
      if k > 11 then b.txDetails else a.txDetails,
      if k > 12 then b.tokens else a.tokens,
      if k > 13 then b.feeTiers else a.feeTiers,
      if k > 14 then b.verifiedProxy else a.verifiedProxy)
  }

  // What the view may be shown at any moment.
  predicate Presentable(s: ScopedState) { Scoped(s) && Paired(s) }

  // One state may be published over another: a quote or a route goes down before the verdict beside
  // it moves, and figures never meet a request they did not price.
  predicate Publishable(a: ScopedState, b: ScopedState) {
    && Presentable(a) && Presentable(b.(at := a.at))
    && (StandingOf(a.verifiedProxy) == StandingOf(b.verifiedProxy) || (b.quote.NoQuote? && b.balancesRoute.NoRoute?))
    && (b.quote.Priced? && a.quoteRequest != NoRequest ==> b.quote.request == a.quoteRequest)
  }

  lemma MixedIsPresentable(a: ScopedState, b: ScopedState, k: nat)
    requires Publishable(a, b)
    ensures Presentable(Mixed(a, b, k))
  {
    hide Same;
  }

  lemma MixedIsAll(a: ScopedState, b: ScopedState)
    ensures Mixed(a, b, 15) == b.(at := a.at)
  {}

  lemma PublishReadsSteps(a: ScopedState, s: ScopedState)
    ensures Mixed(a, s, 1) == Mixed(a, s, 0).(freshness := s.freshness)
    ensures Mixed(a, s, 2) == Mixed(a, s, 1).(balances := s.balances)
    ensures Mixed(a, s, 3) == Mixed(a, s, 2).(balancesRoute := s.balancesRoute)
    ensures Mixed(a, s, 4) == Mixed(a, s, 3).(history := s.history)
    ensures Mixed(a, s, 5) == Mixed(a, s, 4).(blockedChains := s.blockedChains)
    ensures Mixed(a, s, 6) == Mixed(a, s, 5).(blockedNonces := s.blockedNonces)
    ensures Mixed(a, s, 7) == Mixed(a, s, 6).(resendReview := s.resendReview)
  {}

  lemma PublishRestSteps(a: ScopedState, s: ScopedState)
    ensures Mixed(a, s, 8) == Mixed(a, s, 7).(quote := s.quote)
    ensures Mixed(a, s, 9) == Mixed(a, s, 8).(quoteRequest := s.quoteRequest)
    ensures Mixed(a, s, 10) == Mixed(a, s, 9).(quoteStale := s.quoteStale)
    ensures Mixed(a, s, 11) == Mixed(a, s, 10).(sendError := s.sendError)
    ensures Mixed(a, s, 12) == Mixed(a, s, 11).(txDetails := s.txDetails)
    ensures Mixed(a, s, 13) == Mixed(a, s, 12).(tokens := s.tokens)
    ensures Mixed(a, s, 14) == Mixed(a, s, 13).(feeTiers := s.feeTiers)
    ensures Mixed(a, s, 15) == Mixed(a, s, 14).(verifiedProxy := s.verifiedProxy)
  {}

  // A step that keeps the screen as it must be may be published over it.
  lemma KeptIsPublishable(a: ScopedState, b: ScopedState, q: Request, q': Request)
    requires ScreenOk(a, q) && Keeps(a, b, q')
    requires StandingOf(a.verifiedProxy) == StandingOf(b.verifiedProxy) || (b.quote.NoQuote? && b.balancesRoute.NoRoute?)
    requires q == q' || b.quote.NoQuote? || (b.quote == a.quote && b.quoteRequest == a.quoteRequest)
    ensures Publishable(a, b) && b.(at := a.at) == b
  {
    hide Scoped;
  }

  // A move withdraws first, so each of its three updates is presentable.
  lemma MoveIsPublishable(a: ScopedState, to: Selection, q: Request)
    requires ScreenOk(a, q)
    ensures Presentable(EnterScope(a, to).(at := to))
    ensures Presentable(EnterScope(a, to).(at := Selection(to.account, a.at.chainId)))
    ensures !Same(a.at, to) ==> Publishable(a, EnterScope(a, to))
  {
    EnterScopeKeeps(a, to, q);
    if Same(a.at, to) {
      assert Selection(to.account, a.at.chainId) == to;
    }
    hide SameText;
  }

  // The published properties. Every setter is an update of its own, which the view is shown.
  class EthWalletUiSource {
    var selectedAccount: string
    var activeChain: int
    var scopedDataFresh: Freshness
    var balances: Field
    var balancesRoute: Route
    var history: Field
    var blockedChains: Field
    var blockedNonces: Field
    var resendReview: Field
    var quote: Quote
    var quoteRequest: Request
    var quoteStale: bool
    var sendError: Field
    var txDetails: Field
    var tokens: string
    var feeTiers: Field
    var verifiedProxy: Verdict

    // Every state the view has been shown.
    ghost var updates: seq<ScopedState>

    constructor ()
      ensures ScopeSnapshot() == P.NothingRead() && Showing()
    {
      selectedAccount, activeChain := "", 0;
      scopedDataFresh := Stale;
      balances, balancesRoute, history, blockedChains, blockedNonces := Blank, NoRoute, Blank, Blank, Blank;
      resendReview, quote, quoteRequest, quoteStale, sendError := Blank, NoQuote, NoRequest, false, Blank;
      txDetails, tokens, feeTiers, verifiedProxy := Blank, "", Blank, NoVerdict;
      updates := [];
    }

    function ScopeSnapshot(): ScopedState
      reads this
    {
      ScopedState(Selection(selectedAccount, activeChain), scopedDataFresh, balances, balancesRoute, history, blockedChains,
                  blockedNonces, resendReview, quote, quoteRequest, quoteStale, sendError, txDetails, tokens, feeTiers,
                  verifiedProxy)
    }

    // Everything shown so far was presentable.
    ghost predicate Showing()
      reads this
    {
      forall u | u in updates :: Presentable(u)
    }

    ghost method Show()
      requires Presentable(ScopeSnapshot()) && Showing()
      modifies this`updates
      ensures Showing() && updates == old(updates) + [ScopeSnapshot()]
    {
      hide Presentable;
      updates := updates + [ScopeSnapshot()];
    }

    method SetSelectedAccount(v: string)
      requires Presentable(ScopeSnapshot().(at := Selection(v, ScopeSnapshot().at.chainId))) && Showing()
      modifies this
      ensures ScopeSnapshot() == old(ScopeSnapshot()).(at := Selection(v, old(ScopeSnapshot()).at.chainId)) && Showing()
    {
      selectedAccount := v;
      Show();
    }

    method SetActiveNetwork(v: int)
      requires Presentable(ScopeSnapshot().(at := Selection(ScopeSnapshot().at.account, v))) && Showing()
      modifies this
      ensures ScopeSnapshot() == old(ScopeSnapshot()).(at := Selection(old(ScopeSnapshot()).at.account, v)) && Showing()
    {
      activeChain := v;
      Show();
    }

    method SetScopedDataFresh(v: Freshness)
      requires Presentable(ScopeSnapshot().(freshness := v)) && Showing()
      modifies this
      ensures ScopeSnapshot() == old(ScopeSnapshot()).(freshness := v) && Showing()
    {
      scopedDataFresh := v;
      Show();
    }

    method SetBalances(v: Field)
      requires Presentable(ScopeSnapshot().(balances := v)) && Showing()
      modifies this
      ensures ScopeSnapshot() == old(ScopeSnapshot()).(balances := v) && Showing()
    {
      balances := v;
      Show();
    }

    method SetBalancesRoute(v: Route)
      requires Presentable(ScopeSnapshot().(balancesRoute := v)) && Showing()
      modifies this
      ensures ScopeSnapshot() == old(ScopeSnapshot()).(balancesRoute := v) && Showing()
    {
      balancesRoute := v;
      Show();
    }

    method SetHistory(v: Field)
      requires Presentable(ScopeSnapshot().(history := v)) && Showing()
      modifies this
      ensures ScopeSnapshot() == old(ScopeSnapshot()).(history := v) && Showing()
    {
      history := v;
      Show();
    }

    method SetBlockedChains(v: Field)
      requires Presentable(ScopeSnapshot().(blockedChains := v)) && Showing()
      modifies this
      ensures ScopeSnapshot() == old(ScopeSnapshot()).(blockedChains := v) && Showing()
    {
      blockedChains := v;
      Show();
    }

    method SetBlockedNonces(v: Field)
      requires Presentable(ScopeSnapshot().(blockedNonces := v)) && Showing()
      modifies this
      ensures ScopeSnapshot() == old(ScopeSnapshot()).(blockedNonces := v) && Showing()
    {
      blockedNonces := v;
      Show();
    }

    method SetResendReview(v: Field)
      requires Presentable(ScopeSnapshot().(resendReview := v)) && Showing()
      modifies this
      ensures ScopeSnapshot() == old(ScopeSnapshot()).(resendReview := v) && Showing()
    {
      resendReview := v;
      Show();
    }

    method SetQuote(v: Quote)
      requires Presentable(ScopeSnapshot().(quote := v)) && Showing()
      modifies this
      ensures ScopeSnapshot() == old(ScopeSnapshot()).(quote := v) && Showing()
    {
      quote := v;
      Show();
    }

    method SetQuoteRequest(v: Request)
      requires Presentable(ScopeSnapshot().(quoteRequest := v)) && Showing()
      modifies this
      ensures ScopeSnapshot() == old(ScopeSnapshot()).(quoteRequest := v) && Showing()
    {
      quoteRequest := v;
      Show();
    }

    method SetQuoteStale(v: bool)
      requires Presentable(ScopeSnapshot().(quoteStale := v)) && Showing()
      modifies this
      ensures ScopeSnapshot() == old(ScopeSnapshot()).(quoteStale := v) && Showing()
    {
      quoteStale := v;
      Show();
    }

    method SetSendError(v: Field)
      requires Presentable(ScopeSnapshot().(sendError := v)) && Showing()
      modifies this
      ensures ScopeSnapshot() == old(ScopeSnapshot()).(sendError := v) && Showing()
    {
      sendError := v;
      Show();
    }

    method SetTxDetails(v: Field)
      requires Presentable(ScopeSnapshot().(txDetails := v)) && Showing()
      modifies this
      ensures ScopeSnapshot() == old(ScopeSnapshot()).(txDetails := v) && Showing()
    {
      txDetails := v;
      Show();
    }

    method SetTokens(v: string)
      requires Presentable(ScopeSnapshot().(tokens := v)) && Showing()
      modifies this
      ensures ScopeSnapshot() == old(ScopeSnapshot()).(tokens := v) && Showing()
    {
      tokens := v;
      Show();
    }

    method SetFeeTiers(v: Field)
      requires Presentable(ScopeSnapshot().(feeTiers := v)) && Showing()
      modifies this
      ensures ScopeSnapshot() == old(ScopeSnapshot()).(feeTiers := v) && Showing()
    {
      feeTiers := v;
      Show();
    }

    method SetVerifiedProxy(v: Verdict)
      requires Presentable(ScopeSnapshot().(verifiedProxy := v)) && Showing()
      modifies this
      ensures ScopeSnapshot() == old(ScopeSnapshot()).(verifiedProxy := v) && Showing()
    {
      verifiedProxy := v;
      Show();
    }

    // The setters of what was read.
    method PublishReads(s: ScopedState, ghost a: ScopedState)
      requires Publishable(a, s) && ScopeSnapshot() == Mixed(a, s, 0) && Showing()
      modifies this
      ensures ScopeSnapshot() == Mixed(a, s, 7) && Showing()
    {
      hide Publishable, Presentable, Showing, Mixed, ScopeSnapshot;
      PublishReadsSteps(a, s);
      MixedIsPresentable(a, s, 1);
      SetScopedDataFresh(s.freshness);
      MixedIsPresentable(a, s, 2);
      SetBalances(s.balances);
      MixedIsPresentable(a, s, 3);
      SetBalancesRoute(s.balancesRoute);
      MixedIsPresentable(a, s, 4);
      SetHistory(s.history);
      MixedIsPresentable(a, s, 5);
      SetBlockedChains(s.blockedChains);
      MixedIsPresentable(a, s, 6);
      SetBlockedNonces(s.blockedNonces);
      MixedIsPresentable(a, s, 7);
      SetResendReview(s.resendReview);
    }

    // The setters of the quote, the send and the chain.
    method PublishRest(s: ScopedState, ghost a: ScopedState)
      requires Publishable(a, s) && ScopeSnapshot() == Mixed(a, s, 7) && Showing()
      modifies this
      ensures ScopeSnapshot() == Mixed(a, s, 15) && Showing()
    {
      hide Publishable, Presentable, Showing, Mixed, ScopeSnapshot;
      PublishRestSteps(a, s);
      MixedIsPresentable(a, s, 8);
      SetQuote(s.quote);
      MixedIsPresentable(a, s, 9);
      SetQuoteRequest(s.quoteRequest);
      MixedIsPresentable(a, s, 10);
      SetQuoteStale(s.quoteStale);
      MixedIsPresentable(a, s, 11);
      SetSendError(s.sendError);
      MixedIsPresentable(a, s, 12);
      SetTxDetails(s.txDetails);
      MixedIsPresentable(a, s, 13);
      SetTokens(s.tokens);
      MixedIsPresentable(a, s, 14);
      SetFeeTiers(s.feeTiers);
      MixedIsPresentable(a, s, 15);
      SetVerifiedProxy(s.verifiedProxy);
    }

    // Publish a whole snapshot, one property at a time.
    method PublishScope(s: ScopedState)
      requires Publishable(ScopeSnapshot(), s) && Showing()
      modifies this
      ensures ScopeSnapshot() == s.(at := old(ScopeSnapshot()).at) && Showing()
    {
      hide Publishable, Showing, ScopeSnapshot;
      ghost var a := ScopeSnapshot();
      MixedIsAll(a, s);
      PublishReads(s, a);
      PublishRest(s, a);
    }
  }

  class EthWalletUiBackend {
    var now: int

    const view: EthWalletUiSource

    var dataGen: nat
    var quoteGen: nat
    var newestRequest: Request
    var quoteAgainInteractive: bool
    var vpSilent: nat

    // The lanes and claims are members held by value.
    var dataLane: Lane
    var quoteLane: Lane
    // Their lapse timers still to fire.
    var dataTimers: set<Timer>
    var quoteTimers: set<Timer>
    var feesInFlight: Flight
    var detailsInFlight: Flight
    var resendInFlight: Flight

    // The callbacks still to run, each with what it captured.
    var calls: map<nat, P.Call>
    var nextCall: nat

    // The state of WalletProtocol that this object is in.
    ghost var model: P.State

    ghost predicate Valid()
      reads this, view
    {
      Inv(model) && view.Showing() && Tied()
    }

    ghost predicate Tied()
      reads this, view
    {
      && model.now == now
      && model.screen == view.ScopeSnapshot()
      && model.dataGen == dataGen
      && model.quoteGen == quoteGen
      && model.quoteRequest == newestRequest
      && model.againInteractive == quoteAgainInteractive
      && model.vpSilent == vpSilent
      && model.dataLane == dataLane
      && model.quoteLane == quoteLane
      && model.dataTimers == dataTimers
      && model.quoteTimers == quoteTimers
      && model.fees == feesInFlight
      && model.details == detailsInFlight
      && model.resend == resendInFlight
      && model.calls == calls
      && model.nextCall == nextCall
    }

    // Nothing selected, nothing read.
    constructor (now: int)
      ensures Valid() && model == P.Start(now) && fresh(view)
    {
      this.now := now;
      view := new EthWalletUiSource();
      dataGen, quoteGen, newestRequest, quoteAgainInteractive, vpSilent := 0, 0, NoRequest, false, 0;
      var idle := Flight(false, 0, 0);
      dataLane, quoteLane := Lane(idle, false), Lane(idle, false);
      dataTimers, quoteTimers := {}, {};
      feesInFlight, detailsInFlight, resendInFlight := idle, idle, idle;
      calls, nextCall := map[], 0;
      model := P.Start(now);
      new;
      StartInv(now);
    }

    // ---------- Moving the selection ----------

    // Withdraw before the selection is published: the other order would show the previous account's
    // figures under the new name.
    method Withdraw(to: Selection)
      requires ScreenOk(view.ScopeSnapshot(), newestRequest) && view.Showing()
      modifies this`dataGen, this`quoteGen, this`vpSilent, view
      ensures var s := old(view.ScopeSnapshot());
        && view.ScopeSnapshot() == EnterScope(s, to).(at := s.at) && view.Showing()
        && dataGen == old(dataGen) + (if Same(s.at, to) then 0 else 1)
        && quoteGen == old(quoteGen) + (if Same(s.at, to) then 0 else 1)
        && vpSilent == if s.at.chainId != to.chainId then 0 else old(vpSilent)
    {
      hide EnterScope, Same, Presentable, Publishable, ScreenOk, EthWalletUiSource.ScopeSnapshot;
      hide EthWalletUiSource.Showing;
      var s := view.ScopeSnapshot();
      MoveIsPublishable(s, to, newestRequest);
      StayIsEnter(s, to);
      if !Same(s.at, to) {
        dataGen := dataGen + 1;
        quoteGen := quoteGen + 1;
        view.PublishScope(EnterScope(s, to));
      }
      if s.at.chainId != to.chainId {
        vpSilent := 0;
      }
    }

    method PublishSelection(account: string, chainId: int)
      requires Valid()
      modifies this`model, this`dataGen, this`quoteGen, this`vpSilent, view
      ensures Valid() && model == P.PublishSelection(old(model), Selection(account, chainId))
    {
      hide Inv, EnterScope, Same, Presentable, ScreenOk, EthWalletUiSource.ScopeSnapshot, EthWalletUiSource.Showing;
      var to := Selection(account, chainId);
      ScreenOfInv(model);
      MoveIsPublishable(model.screen, to, newestRequest);
      PublishSelectionInv(model, to);
      Withdraw(to);
      view.SetSelectedAccount(account);
      view.SetActiveNetwork(chainId);
      model := P.PublishSelection(model, to);
    }

    method SetSelectedAccount(account: string)
      requires Valid()
      modifies this, view
      ensures Valid() && model == P.SetSelectedAccount(old(model), account)
    {
      PublishSelection(account, view.activeChain);
    }

    method SetActiveNetwork(chainId: int)
      requires Valid()
      modifies this, view
      ensures Valid() && model == P.SetActiveNetwork(old(model), chainId)
    {
      PublishSelection(view.selectedAccount, chainId);
    }

    // ---------- Parts of the steps below ----------

    method Publish(s: ScopedState)
      requires Valid() && Keeps(model.screen, s, newestRequest)
      requires StandingOf(model.screen.verifiedProxy) == StandingOf(s.verifiedProxy)
            || (s.quote.NoQuote? && s.balancesRoute.NoRoute?)
      modifies this`model, view
      ensures Valid() && model == old(model).(screen := s)
    {
      hide Inv, Publishable, ScreenOk, EthWalletUiSource.ScopeSnapshot, EthWalletUiSource.Showing;
      ScreenOfInv(model);
      KeptIsPublishable(model.screen, s, newestRequest, newestRequest);
      ScreenInv(model, s);
      view.PublishScope(s);
      model := model.(screen := s);
    }

    method IssueCall(c: P.Call)
      requires Valid() && CallOk(c, dataGen, quoteGen, view.ScopeSnapshot().at, newestRequest)
      modifies this`model, this`calls, this`nextCall
      ensures Valid() && model == P.Issue(old(model), c)
    {
      hide Inv, CallOk, EthWalletUiSource.ScopeSnapshot, EthWalletUiSource.Showing;
      IssueInv(model, c);
      calls := calls[nextCall := c];
      nextCall := nextCall + 1;
      model := P.Issue(model, c);
    }

    method SetDataLane(lane: Lane)
      requires Valid()
      modifies this`model, this`dataLane
      ensures Valid() && model == old(model).(dataLane := lane)
    {
      hide Inv, EthWalletUiSource.ScopeSnapshot, EthWalletUiSource.Showing;
      LanesInv(model, lane, quoteLane);
      dataLane := lane;
      model := model.(dataLane := lane);
    }

    method SetQuoteLane(lane: Lane)
      requires Valid() && lane.again == quoteLane.again
      modifies this`model, this`quoteLane
      ensures Valid() && model == old(model).(quoteLane := lane)
    {
      hide Inv, EthWalletUiSource.ScopeSnapshot, EthWalletUiSource.Showing;
      LanesInv(model, dataLane, lane);
      quoteLane := lane;
      model := model.(quoteLane := lane);
    }

    method SetDataTimers(timers: set<Timer>)
      requires Valid()
      modifies this`model, this`dataTimers
      ensures Valid() && model == old(model).(dataTimers := timers)
    {
      hide Inv, EthWalletUiSource.ScopeSnapshot, EthWalletUiSource.Showing;
      TimersInv(model, timers, quoteTimers);
      dataTimers := timers;
      model := model.(dataTimers := timers);
    }

    method SetQuoteTimers(timers: set<Timer>)
      requires Valid()
      modifies this`model, this`quoteTimers
      ensures Valid() && model == old(model).(quoteTimers := timers)
    {
      hide Inv, EthWalletUiSource.ScopeSnapshot, EthWalletUiSource.Showing;
      TimersInv(model, dataTimers, timers);
      quoteTimers := timers;
      model := model.(quoteTimers := timers);
    }

    // ---------- Balances and history ----------

    // Take the lane for a call, or coalesce behind the live one.
    method BeginDataLane() returns (taken: bool, slot: nat)
      requires Valid()
      modifies this`model, this`dataLane
      ensures Valid() && taken == !old(model.dataLane.flight.Busy(model.now))
      ensures model == old(model).(dataLane := old(model.dataLane.Requested(P.DataBudget(), model.now)))
      ensures slot == model.dataLane.flight.ticket
    {
      taken := !dataLane.flight.Busy(now);
      var lane := dataLane.Requested(P.DataBudget(), now);
      SetDataLane(lane);
      slot := lane.flight.ticket;
    }

    method LoadBalancesAndHistory()
      requires Valid()
      modifies this, view
      ensures Valid() && model == P.LoadBalancesAndHistory(old(model))
    {
      hide Inv, ScreenOk, CallOk, EthWalletUiSource.ScopeSnapshot, EthWalletUiSource.Showing;
      var s := view.ScopeSnapshot();
      if s.at.account == "" {
        ScreenOfInv(model);
        NoAccountKeeps(s, newestRequest);
        Publish(ApplyNoAccount(s));
        return;
      }
      var taken, slot := BeginDataLane();
      if !taken {
        return;
      }
      SetDataTimers(dataTimers + {LapseOf(dataLane.flight)});
      FreshCallOk(model, P.BalancesCall(slot, dataGen, s.at));
      IssueCall(P.BalancesCall(slot, dataGen, s.at));
    }

    // Hand the lane on: run the queued request, if there is one.
    method HandOnData()
      requires Valid()
      modifies this, view
      ensures Valid() && model == P.HandOnData(old(model))
    {
      hide Inv, ScreenOk, CallOk, EthWalletUiSource.ScopeSnapshot, EthWalletUiSource.Showing, P.LoadBalancesAndHistory;
      if dataLane.again {
        SetDataLane(dataLane.(again := false));
        LoadBalancesAndHistory();
      }
    }

    method DataTimer(timer: Timer)
      requires Valid()
      modifies this, view
      ensures Valid() && model == P.DataTimer(old(model), timer)
    {
      hide Inv, ScreenOk, CallOk, EthWalletUiSource.ScopeSnapshot, EthWalletUiSource.Showing, P.HandOnData;
      if timer !in dataTimers || now < timer.due {
        return;
      }
      SetDataTimers(dataTimers - {timer});
      if !dataLane.flight.Busy(now) {
        HandOnData();
      }
    }

    method BalancesReply(c: P.Call, r: Reply)
      requires Valid() && c.BalancesCall? && CallOk(c, dataGen, quoteGen, view.ScopeSnapshot().at, newestRequest)
      modifies this, view
      ensures Valid() && model == P.BalancesReply(old(model), c, r)
    {
      hide Inv, ScreenOk, EthWalletUiSource.ScopeSnapshot, EthWalletUiSource.Showing, ApplyBalances, Stamped, Same;
      if c.slot != dataLane.flight.ticket {
        return;
      }
      var s := view.ScopeSnapshot();
      if c.gen == dataGen {
        var reply := Stamped(r, s.at.chainId);
        ScreenOfInv(model);
        BalancesKeep(s, reply, c.under, newestRequest);
        ReadsKeepVerdict(s, reply, c.under);
        Publish(ApplyBalances(s, reply, c.under));
      }
      IssueCall(P.HistoryCall(c.slot, c.gen, c.under));
    }

    method HistoryReply(c: P.Call, r: Reply)
      requires Valid() && c.HistoryCall? && CallOk(c, dataGen, quoteGen, view.ScopeSnapshot().at, newestRequest)
      modifies this, view
      ensures Valid() && model == P.HistoryReply(old(model), c, r)
    {
      hide Inv, ScreenOk, EthWalletUiSource.ScopeSnapshot, EthWalletUiSource.Showing, ApplyHistory, Stamped, Same;
      hide P.HandOnData;
      if c.slot != dataLane.flight.ticket {
        return;
      }
      var s := view.ScopeSnapshot();
      if c.gen == dataGen {
        var reply := Stamped(r, s.at.chainId);
        ScreenOfInv(model);
        HistoryKeeps(s, reply, c.under, newestRequest);
        ReadsKeepVerdict(s, reply, c.under);
        Publish(ApplyHistory(s, reply, c.under));
      }
      SetDataLane(dataLane.(flight := dataLane.flight.Released(c.slot)));
      HandOnData();
    }

    // ---------- Fees ----------

    method SetFees(flight: Flight)
      requires Valid()
      modifies this`model, this`feesInFlight
      ensures Valid() && model == old(model).(fees := flight)
    {
      hide Inv, EthWalletUiSource.ScopeSnapshot, EthWalletUiSource.Showing;
      ClaimsInv(model, flight, detailsInFlight, resendInFlight);
      feesInFlight := flight;
      model := model.(fees := flight);
    }

    method LoadFeeTiers()
      requires Valid()
      modifies this, view
      ensures Valid() && model == P.LoadFeeTiers(old(model))
    {
      hide Inv, ScreenOk, CallOk, EthWalletUiSource.ScopeSnapshot, EthWalletUiSource.Showing;
      if feesInFlight.Busy(now) {
        return;
      }
      var at := view.ScopeSnapshot().at;
      var taken := feesInFlight.Taken(P.QuoteBudget(), now);
      if at.chainId == 0 {
        SetFees(taken.Released(taken.ticket));
        return;
      }
      SetFees(taken);
      FreshCallOk(model, P.FeesCall(taken.ticket, dataGen, at));
      IssueCall(P.FeesCall(taken.ticket, dataGen, at));
    }

    method FeesReply(c: P.Call, r: Reply)
      requires Valid() && c.FeesCall? && CallOk(c, dataGen, quoteGen, view.ScopeSnapshot().at, newestRequest)
      modifies this, view
      ensures Valid() && model == P.FeesReply(old(model), c, r)
    {
      hide Inv, ScreenOk, EthWalletUiSource.ScopeSnapshot, EthWalletUiSource.Showing, ApplyFeeTiers, Same;
      var late := c.slot != feesInFlight.ticket || c.gen != dataGen;
      SetFees(feesInFlight.Released(c.slot));
      if late {
        return;
      }
      var s := view.ScopeSnapshot();
      ScreenOfInv(model);
      FeesKeep(s, r, c.under, newestRequest);
      ReadsKeepVerdict(s, r, c.under);
      Publish(ApplyFeeTiers(s, r, c.under));
    }

    // ---------- The quote ----------

    // The request moves, and the figures of the one before it are withdrawn.
    method EnterRequest(request: Request, interactive: bool)
      requires Valid()
      modifies this`model, this`quoteGen, this`newestRequest, view
      ensures Valid()
      ensures var st := old(model);
        var entered := EnterQuoteRequest(st.screen, request);
        model == st.(quoteGen := if request != st.quoteRequest then st.quoteGen + 1 else st.quoteGen,
                     quoteRequest := request,
                     screen := if interactive then entered.(sendError := Blank) else entered)
    {
      hide Inv, ScreenOk, EthWalletUiSource.ScopeSnapshot, EthWalletUiSource.Showing, Publishable, EnterQuoteRequest;
      var s := EnterQuoteRequest(view.ScopeSnapshot(), request);
      if interactive {
        s := s.(sendError := Blank);
      }
      ScreenOfInv(model);
      EnterKeeps(model.screen, newestRequest, request);
      EnterWithdraws(model.screen, request);
      KeptIsPublishable(model.screen, s, newestRequest, request);
      PartsOfInv(model);
      EnteredInv(model, request, s);
      if request != newestRequest {
        quoteGen := quoteGen + 1;
      }
      newestRequest := request;
      view.PublishScope(s);
      model := model.(quoteGen := quoteGen, quoteRequest := request, screen := s);
    }

    // Take the lane for a call, or queue behind the live one, remembering an edit.
    method BeginQuoteLane(interactive: bool) returns (taken: bool, slot: nat)
      requires Valid()
      modifies this`model, this`quoteLane, this`quoteAgainInteractive
      ensures Valid() && taken == !old(model.quoteLane.flight.Busy(model.now))
      ensures slot == model.quoteLane.flight.ticket
      ensures var st := old(model);
        model == st.(quoteLane := st.quoteLane.Requested(P.QuoteBudget(), st.now),
                     againInteractive := st.againInteractive || (interactive && !taken))
    {
      hide Inv, EthWalletUiSource.ScopeSnapshot, EthWalletUiSource.Showing;
      taken := !quoteLane.flight.Busy(now);
      var lane := quoteLane.Requested(P.QuoteBudget(), now);
      slot := lane.flight.ticket;
      if taken {
        LanesInv(model, dataLane, lane);
      } else {
        QueuedInv(model, lane, quoteAgainInteractive || interactive);
        quoteAgainInteractive := quoteAgainInteractive || interactive;
      }
      quoteLane := lane;
      model := model.(quoteLane := lane, againInteractive := quoteAgainInteractive);
    }

    method RunQuote(request: Request, interactive: bool)
      requires Valid()
      modifies this, view
      ensures Valid() && model == P.RunQuote(old(model), request, interactive)
    {
      hide Inv, ScreenOk, EthWalletUiSource.ScopeSnapshot, EthWalletUiSource.Showing, EnterQuoteRequest;
      hide DescribesASend, Same;
      EnterRequest(request, interactive);
      if !DescribesASend(request) {
        return;
      }
      var taken, slot := BeginQuoteLane(interactive);
      if !taken {
        return;
      }
      SetQuoteTimers(quoteTimers + {LapseOf(quoteLane.flight)});
      var at := view.ScopeSnapshot().at;
      SameMoves(at, at);
      IssueCall(P.QuoteCall(slot, dataGen, quoteGen, request, interactive, at));
    }

    method DrainQuoteLane()
      requires Valid()
      modifies this`model, this`quoteLane, this`quoteAgainInteractive
      ensures Valid()
      ensures model == old(model).(quoteLane := old(model.quoteLane.(again := false)), againInteractive := false)
    {
      hide Inv, EthWalletUiSource.ScopeSnapshot, EthWalletUiSource.Showing;
      DrainInv(model);
      quoteLane := quoteLane.(again := false);
      quoteAgainInteractive := false;
      model := model.(quoteLane := quoteLane, againInteractive := false);
    }

    method HandOnQuote()
      requires Valid()
      modifies this, view
      ensures Valid() && model == P.HandOnQuote(old(model))
    {
      hide Inv, EthWalletUiSource.ScopeSnapshot, EthWalletUiSource.Showing, P.RunQuote;
      if quoteLane.again {
        var wasEdit := quoteAgainInteractive;
        DrainQuoteLane();
        RunQuote(newestRequest, wasEdit);
      }
    }

    method QuoteTimer(timer: Timer)
      requires Valid()
      modifies this, view
      ensures Valid() && model == P.QuoteTimer(old(model), timer)
    {
      hide Inv, EthWalletUiSource.ScopeSnapshot, EthWalletUiSource.Showing, P.HandOnQuote;
      if timer !in quoteTimers || now < timer.due {
        return;
      }
      SetQuoteTimers(quoteTimers - {timer});
      if !quoteLane.flight.Busy(now) {
        HandOnQuote();
      }
    }

    method QuoteReply(c: P.Call, r: Reply)
      requires Valid() && c.QuoteCall? && CallOk(c, dataGen, quoteGen, view.ScopeSnapshot().at, newestRequest)
      modifies this, view
      ensures Valid() && model == P.QuoteReply(old(model), c, r)
    {
      hide Inv, ScreenOk, EthWalletUiSource.ScopeSnapshot, EthWalletUiSource.Showing, ApplyQuote, Same;
      hide DescribesASend, P.HandOnQuote;
      if c.slot != quoteLane.flight.ticket {
        return;
      }
      if c.gen == dataGen && c.qgen == quoteGen {
        var s := view.ScopeSnapshot();
        ScreenOfInv(model);
        NothingDescribesNothing();
        QuoteKeeps(s, r, c.interactive, c.under, newestRequest);
        QuoteKeepsVerdict(s, r, c.priced, c.interactive, c.under);
        Publish(ApplyQuote(s, r, c.priced, c.interactive, c.under));
      }
      SetQuoteLane(quoteLane.(flight := quoteLane.flight.Released(c.slot)));
      HandOnQuote();
    }

    // The refresh timer: a send that awaits a human is settled, and is not priced again.
    method QuoteTick(sendPending: bool)
      requires Valid()
      modifies this, view
      ensures Valid() && model == P.QuoteTick(old(model), sendPending)
    {
      hide Inv, EthWalletUiSource.ScopeSnapshot, EthWalletUiSource.Showing, P.RunQuote;
      if newestRequest != NoRequest && !sendPending {
        RunQuote(newestRequest, false);
      }
    }

    // With the dialog closed a quote describes nothing, and a reply in flight must not bring it back.
    method ForgetRequest()
      requires Valid()
      modifies this`model, this`quoteGen, this`newestRequest, view
      ensures Valid() && model == P.SetQuoteAutoRefresh(old(model), false)
    {
      hide Inv, ScreenOk, EthWalletUiSource.ScopeSnapshot, EthWalletUiSource.Showing, Publishable, WithdrawQuote;
      var s := WithdrawQuote(view.ScopeSnapshot());
      ScreenOfInv(model);
      WithdrawKeeps(model.screen, newestRequest);
      Withdrawn(model.screen);
      KeptIsPublishable(model.screen, s, newestRequest, NoRequest);
      AutoRefreshInv(model, false);
      quoteGen := quoteGen + 1;
      newestRequest := NoRequest;
      view.PublishScope(s);
      model := P.SetQuoteAutoRefresh(model, false);
    }

    method ClearSendError()
      requires Valid()
      modifies this`model, view
      ensures Valid() && model == old(model).(screen := old(model.screen).(sendError := Blank))
    {
      hide Inv, ScreenOk, EthWalletUiSource.ScopeSnapshot, EthWalletUiSource.Showing;
      ScreenOfInv(model);
      WithdrawKeeps(model.screen, newestRequest);
      Publish(view.ScopeSnapshot().(sendError := Blank));
    }

    method SetQuoteAutoRefresh(on: bool)
      requires Valid()
      modifies this, view
      ensures Valid() && model == P.SetQuoteAutoRefresh(old(model), on)
    {
      hide Inv, EthWalletUiSource.ScopeSnapshot, EthWalletUiSource.Showing;
      if on {
        ClearSendError();
      } else {
        ForgetRequest();
      }
    }

    // ---------- Sending ----------

    method SubmitSend()
      requires Valid()
      modifies this, view
      ensures Valid() && model == P.SubmitSend(old(model))
    {
      hide Inv, CallOk, EthWalletUiSource.ScopeSnapshot, EthWalletUiSource.Showing;
      ClearSendError();
      var at := view.ScopeSnapshot().at;
      FreshCallOk(model, P.SendCall(dataGen, at));
      IssueCall(P.SendCall(dataGen, at));
    }

    method SendReturns(c: P.Call, r: Reply)
      requires Valid() && c.SendCall? && CallOk(c, dataGen, quoteGen, view.ScopeSnapshot().at, newestRequest)
      modifies this, view
      ensures Valid() && model == P.SendReturns(old(model), c, r)
    {
      hide Inv, ScreenOk, EthWalletUiSource.ScopeSnapshot, EthWalletUiSource.Showing, Same;
      var s := view.ScopeSnapshot();
      var after := ApplySend(s, r, c.gen == dataGen, c.under);
      if r.ok {
        after := after.(resendReview := Blank);
      }
      ScreenOfInv(model);
      SendKeeps(s, r, c.gen == dataGen, c.under, newestRequest);
      Publish(after);
    }

    // ---------- Resending a blocked nonce ----------

    method SetResend(flight: Flight)
      requires Valid()
      modifies this`model, this`resendInFlight
      ensures Valid() && model == old(model).(resend := flight)
    {
      hide Inv, EthWalletUiSource.ScopeSnapshot, EthWalletUiSource.Showing;
      ClaimsInv(model, feesInFlight, detailsInFlight, flight);
      resendInFlight := flight;
      model := model.(resend := flight);
    }

    method SetReview(review: Field)
      requires Valid() && (review.Known? ==> Same(review.under, view.ScopeSnapshot().at))
      modifies this`model, view
      ensures Valid() && model == old(model).(screen := old(model.screen).(resendReview := review))
    {
      hide Inv, ScreenOk, EthWalletUiSource.ScopeSnapshot, EthWalletUiSource.Showing, Same;
      ScreenOfInv(model);
      ReviewKeeps(model.screen, review, newestRequest);
      Publish(view.ScopeSnapshot().(resendReview := review));
    }

    method ResendBlockedNonce(hasHash: bool)
      requires Valid()
      modifies this, view
      ensures Valid() && model == P.ResendBlockedNonce(old(model), hasHash)
    {
      hide Inv, CallOk, EthWalletUiSource.ScopeSnapshot, EthWalletUiSource.Showing;
      if resendInFlight.Busy(now) {
        return;
      }
      var at := view.ScopeSnapshot().at;
      var taken := resendInFlight.Taken(GuardBudgetMs(3, SendCallBudgetMs), now);
      SetResend(taken);
      var c := P.ResendCall(taken.ticket, dataGen, if hasHash then P.StatusLeg else P.FeesLeg, at);
      FreshCallOk(model, c);
      IssueCall(c);
    }

    method NextLeg(c: P.Call, leg: P.Leg)
      requires Valid() && c.ResendCall? && c.gen == dataGen
      modifies this, view
      ensures Valid() && model == P.Issue(old(model), P.ResendCall(c.slot, c.gen, leg, old(model).screen.at))
    {
      hide Inv, CallOk, EthWalletUiSource.ScopeSnapshot, EthWalletUiSource.Showing;
      var next := P.ResendCall(c.slot, c.gen, leg, view.ScopeSnapshot().at);
      FreshCallOk(model, next);
      IssueCall(next);
    }

    method ResendReply(c: P.Call, r: Reply, mined: bool, priced: Option<string>)
      requires Valid() && c.ResendCall? && CallOk(c, dataGen, quoteGen, view.ScopeSnapshot().at, newestRequest)
      modifies this, view
      ensures Valid() && model == P.ResendReply(old(model), c, r, mined, priced)
    {
      hide Inv, EthWalletUiSource.ScopeSnapshot, EthWalletUiSource.Showing, Same, P.LoadBalancesAndHistory;
      var ended := resendInFlight.Released(c.slot);
      if c.slot != resendInFlight.ticket || c.gen != dataGen {
        SetResend(ended);
        return;
      }
      match c.leg
      case StatusLeg =>
        if mined {
          SetResend(ended);
          LoadBalancesAndHistory();
        } else {
          NextLeg(c, P.FeesLeg);
        }
      case FeesLeg =>
        if !r.ok || priced.None? {
          SetResend(ended);
        } else {
          NextLeg(c, P.QuoteLeg(priced.value));
        }
      case QuoteLeg(request) =>
        SetResend(ended);
        if r.ok {
          SetReview(Known(request + r.text, c.under));
        }
    }

    method DismissResend()
      requires Valid()
      modifies this, view
      ensures Valid() && model == P.DismissResend(old(model))
    {
      hide Inv, EthWalletUiSource.ScopeSnapshot, EthWalletUiSource.Showing;
      SetReview(Blank);
    }

    // ---------- Transaction details ----------

    method SetDetails(flight: Flight)
      requires Valid()
      modifies this`model, this`detailsInFlight
      ensures Valid() && model == old(model).(details := flight)
    {
      hide Inv, EthWalletUiSource.ScopeSnapshot, EthWalletUiSource.Showing;
      ClaimsInv(model, feesInFlight, flight, resendInFlight);
      detailsInFlight := flight;
      model := model.(details := flight);
    }

    method FetchTxDetails(hash: string)
      requires Valid()
      modifies this, view
      ensures Valid() && model == P.FetchTxDetails(old(model), hash)
    {
      hide Inv, CallOk, EthWalletUiSource.ScopeSnapshot, EthWalletUiSource.Showing;
      var at := view.ScopeSnapshot().at;
      if at.account == "" || hash == "" || detailsInFlight.Busy(now) {
        return;
      }
      var taken := detailsInFlight.Taken(GuardBudgetMs(1, CallBudgetMs), now);
      SetDetails(taken);
      FreshCallOk(model, P.DetailsCall(taken.ticket, dataGen, hash, at));
      IssueCall(P.DetailsCall(taken.ticket, dataGen, hash, at));
    }

    method DetailsReply(c: P.Call, r: Reply)
      requires Valid() && c.DetailsCall? && CallOk(c, dataGen, quoteGen, view.ScopeSnapshot().at, newestRequest)
      modifies this, view
      ensures Valid() && model == P.DetailsReply(old(model), c, r)
    {
      hide Inv, ScreenOk, EthWalletUiSource.ScopeSnapshot, EthWalletUiSource.Showing, ApplyTxDetails, Same;
      var late := c.slot != detailsInFlight.ticket || c.gen != dataGen;
      SetDetails(detailsInFlight.Released(c.slot));
      if late {
        return;
      }
      var s := view.ScopeSnapshot();
      ScreenOfInv(model);
      DetailsKeep(s, r, c.hash, c.under, newestRequest);
      DetailsKeepVerdict(s, r, c.hash, c.under);
      Publish(ApplyTxDetails(s, r, c.hash, c.under));
    }

    // ---------- The verified proxy ----------

    method ApplyVerifiedProxy(r: Reply)
      requires Valid()
      modifies this, view
      ensures Valid() && model == P.ApplyVerifiedProxy(old(model), r)
    {
      hide Inv, ScreenOk, EthWalletUiSource.ScopeSnapshot, EthWalletUiSource.Showing, ApplyVerdict;
      var s := view.ScopeSnapshot();
      var v := ApplyVerdict(s, r, vpSilent, P.MaxSilentPolls);
      ScreenOfInv(model);
      VerdictKeeps(s, r, vpSilent, P.MaxSilentPolls, newestRequest);
      VerdictWithdraws(s, r, vpSilent, P.MaxSilentPolls);
      Publish(v.s);
      SilentInv(model, v.silent);
      vpSilent := v.silent;
      model := model.(vpSilent := v.silent);
    }

    // ---------- The environment ----------

    // A reply arrives, once at most.
    method Deliver(id: nat, r: Reply, mined: bool, priced: Option<string>)
      requires Valid()
      modifies this, view
      ensures Valid() && model == P.Deliver(old(model), id, r, mined, priced)
    {
      hide Inv, CallOk, EthWalletUiSource.ScopeSnapshot, EthWalletUiSource.Showing, P.BalancesReply, P.HistoryReply;
      hide P.FeesReply, P.QuoteReply, P.DetailsReply, P.ResendReply;
      hide P.SendReturns;
      if id !in calls {
        return;
      }
      var c := calls[id];
      AnsweredInv(model, id);
      calls := calls - {id};
      model := model.(calls := calls);
      match c
      case BalancesCall(_, _, _) => BalancesReply(c, r);
      case HistoryCall(_, _, _) => HistoryReply(c, r);
      case FeesCall(_, _, _) => FeesReply(c, r);
      case QuoteCall(_, _, _, _, _, _) => QuoteReply(c, r);
      case DetailsCall(_, _, _, _) => DetailsReply(c, r);
      case ResendCall(_, _, _, _) => ResendReply(c, r, mined, priced);
      case SendCall(_, _) => SendReturns(c, r);
    }

    method ListTokens(tokens: string)
      requires Valid()
      modifies this, view
      ensures Valid() && model == old(model).(screen := old(model.screen).(tokens := tokens))
    {
      hide Inv, ScreenOk, EthWalletUiSource.ScopeSnapshot, EthWalletUiSource.Showing;
      ScreenOfInv(model);
      WithdrawKeeps(model.screen, newestRequest);
      Publish(view.ScopeSnapshot().(tokens := tokens));
    }

    method Elapse(ms: nat)
      requires Valid()
      modifies this`now, this`model
      ensures Valid() && model == old(model).(now := old(model).now + ms)
    {
      hide Inv, EthWalletUiSource.ScopeSnapshot, EthWalletUiSource.Showing;
      ElapseInv(model, ms);
      now := now + ms;
      model := model.(now := now);
    }

    // Whatever happens, the object follows the state machine.
    method Handle(e: P.Event)
      requires Valid()
      modifies this, view
      ensures Valid() && model == P.Step(old(model), e)
    {
      hide Inv, EthWalletUiSource.ScopeSnapshot, EthWalletUiSource.Showing, P.PublishSelection;
      hide P.LoadBalancesAndHistory, P.LoadFeeTiers, P.RunQuote, P.SetQuoteAutoRefresh, P.SubmitSend;
      hide P.ResendBlockedNonce, P.DismissResend, P.FetchTxDetails, P.ApplyVerifiedProxy, P.Deliver, P.HandOnData;
      hide P.HandOnQuote;
      hide P.QuoteTick, P.DataTimer, P.QuoteTimer, EthWalletUiBackend.Tied;
      match e
      case SelectAccount(account) => SetSelectedAccount(account);
      case SelectNetwork(chainId) => SetActiveNetwork(chainId);
      case ListTokens(tokens) => ListTokens(tokens);
      case Reload => LoadBalancesAndHistory();
      case ReloadFees => LoadFeeTiers();
      case Edit(request) => RunQuote(request, true);
      case PollQuote(sendPending) => QuoteTick(sendPending);
      case AutoRefresh(on) => SetQuoteAutoRefresh(on);
      case Submit => SubmitSend();
      case Resend(hasHash) => ResendBlockedNonce(hasHash);
      case Dismiss => DismissResend();
      case OpenDetails(hash) => FetchTxDetails(hash);
      case VerdictArrives(r) => ApplyVerifiedProxy(r);
      case ReplyArrives(id, r, mined, priced) => Deliver(id, r, mined, priced);
      case DataLapse(timer) => DataTimer(timer);
      case QuoteLapse(timer) => QuoteTimer(timer);
      case Elapse(ms) => Elapse(ms);
    }
  }

  lemma ScreenOfInv(st: P.State)
    requires Inv(st)
    ensures ScreenOk(st.screen, st.quoteRequest)
  {}

  lemma StayIsEnter(s: ScopedState, to: Selection)
    ensures Same(s.at, to) ==> EnterScope(s, to) == s
  {}

  lemma ReadsKeepVerdict(s: ScopedState, r: Reply, under: Selection)
    ensures ApplyBalances(s, r, under).verifiedProxy == ApplyHistory(s, r, under).verifiedProxy
         == ApplyFeeTiers(s, r, under).verifiedProxy == s.verifiedProxy
  {
    hide AnswersFor;
  }

  lemma EnterWithdraws(s: ScopedState, request: Request)
    ensures var e := EnterQuoteRequest(s, request);
      && e.verifiedProxy == s.verifiedProxy && (e.quote.NoQuote? || (e.quote == s.quote && e.quoteRequest == s.quoteRequest))
  {}

  lemma PartsOfInv(st: P.State)
    requires Inv(st)
    ensures ScreenOk(st.screen, st.quoteRequest) && CallsOk(st) && (st.againInteractive ==> st.quoteLane.again)
  {}

  lemma QuoteKeepsVerdict(s: ScopedState, r: Reply, priced: Request, interactive: bool, under: Selection)
    ensures ApplyQuote(s, r, priced, interactive, under).verifiedProxy == s.verifiedProxy
  {
    hide AnswersFor;
  }

  lemma DetailsKeepVerdict(s: ScopedState, r: Reply, hash: string, under: Selection)
    ensures ApplyTxDetails(s, r, hash, under).verifiedProxy == s.verifiedProxy
  {
    hide AnswersFor, SameHex;
  }

  lemma VerdictWithdraws(s: ScopedState, r: Reply, silent: nat, maxSilent: nat)
    ensures var v := ApplyVerdict(s, r, silent, maxSilent).s;
      StandingOf(s.verifiedProxy) == StandingOf(v.verifiedProxy) || (v.quote.NoQuote? && v.balancesRoute.NoRoute?)
  {
    hide AnswersFor;
  }

  lemma Withdrawn(s: ScopedState)
    ensures WithdrawQuote(s).verifiedProxy == s.verifiedProxy && WithdrawQuote(s).quote.NoQuote?
  {}

  lemma SilentInv(st: P.State, silent: nat)
    requires Inv(st)
    ensures Inv(st.(vpSilent := silent))
  {
    hide ScreenOk, CallOk;
  }
}
