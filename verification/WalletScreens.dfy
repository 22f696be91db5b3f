/** What each event sends out and leaves on screen, from the call and the reply alone. */
module WalletScreens {
  import opened Basics
  import opened Guards
  import opened Scope
  import opened Texts
  import opened WalletProtocol
  import opened WalletSafety

  // The chain and the account a reply names, if it names them, are those shown.
  predicate NamesShown(r: Reply, at: Selection) {
    && (r.chainId.Some? ==> r.chainId.value == at.chainId)
    && (r.account.Some? ==> SameText(r.account.value, at.account))
  }

  predicate NamesAny(r: Reply) { r.chainId.Some? || r.account.Some? }

  // The call's claim is in force and its generation present.
  predicate Timely(st: State, c: Call) { !Replaced(c, st) && !Outdated(c, st) }

  function Shown(s: ScopedState): Standing { Standing(s.verifiedProxy.mode, s.verifiedProxy.state) }

  function WithoutQuote(s: ScopedState): ScopedState {
    s.(quote := NoQuote, quoteRequest := NoRequest, quoteStale := false)
  }

  // ---------- Balances and history ----------

  // Balances arrive with the route of the chain shown, and make the screen fresh; a refusal leaves none,
  // and is an answer too. The chain named is the one stamped on arrival, so only the account can be wrong.
  lemma BalancesArrive(st: State, id: nat, r: Reply, mined: bool, priced: Option<string>)
    requires id in st.calls && st.calls[id].BalancesCall? && Timely(st, st.calls[id])
    ensures var s, under := st.screen, st.calls[id].under;
      Deliver(st, id, r, mined, priced).screen ==
      if r.ok then
        if r.account.Some? && !SameText(r.account.value, s.at.account) then s
        else
          s.(balances := Known(r.text, under),
             balancesRoute := Route(if s.at.chainId in r.routes then r.routes[s.at.chainId] else "", under, Shown(s)),
             freshness := Fresh(under))
      else if !NamesShown(r, s.at) then s
      else s.(balances := Blank, balancesRoute := NoRoute, freshness := Fresh(under))
  {
    hide SameText;
  }

  // History arrives with the blocked chains and nonces of the same read; a refusal leaves neither rows
  // nor blocked nonces.
  lemma HistoryArrives(st: State, id: nat, r: Reply, mined: bool, priced: Option<string>)
    requires Inv(st) && id in st.calls && st.calls[id].HistoryCall? && Timely(st, st.calls[id])
    ensures var s, under := st.screen, st.calls[id].under;
      Deliver(st, id, r, mined, priced).screen ==
      if r.ok then
        if r.account.Some? && !SameText(r.account.value, s.at.account) then s
        else
          s.(history := if r.transactions.Some? then Known(r.transactions.value, under) else Blank,
             blockedChains := Known(if r.blockedChains != "" then r.blockedChains else "[]", under),
             blockedNonces := Known(r.blockedNonces, under))
      else if !NamesShown(r, s.at) then s
      else s.(history := Blank, blockedNonces := Blank)
  {
    var c := st.calls[id];
    AccountShown(st, id);
    hide SameText, Inv;
    var s := ApplyHistory(st.screen, Stamped(r, st.screen.at.chainId), c.under);
    var released := st.dataLane.(flight := st.dataLane.flight.Released(c.slot));
    HandOnKeepsScreen(st.(calls := st.calls - {id}, screen := s, dataLane := released));
  }

  // While a call for an account is timely, that account is the one shown, so there is one.
  lemma AccountShown(st: State, id: nat)
    requires Inv(st) && id in st.calls && (st.calls[id].BalancesCall? || st.calls[id].HistoryCall?)
    requires st.calls[id].gen == st.dataGen
    ensures st.screen.at.account != ""
  {
    hide ScreenOk;
    var c := st.calls[id];
    assert CallOk(c, st.dataGen, st.quoteGen, st.screen.at, st.quoteRequest);
    assert |Folded(c.under.account)| == |Folded(st.screen.at.account)|;
  }

  lemma HandOnKeepsScreen(st: State)
    requires st.screen.at.account != ""
    ensures HandOnData(st).screen == st.screen
  {}

  // Without an account there is nothing to read, and the screen says so.
  lemma NothingToRead(st: State)
    requires st.screen.at.account == ""
    ensures LoadBalancesAndHistory(st).screen
         == st.screen.(balances := Blank, balancesRoute := NoRoute, history := Known("[]", st.screen.at),
                       blockedChains := Known("[]", st.screen.at), freshness := Fresh(st.screen.at))
  {}

  // ---------- Fees ----------

  lemma FeesArrive(st: State, id: nat, r: Reply, mined: bool, priced: Option<string>)
    requires id in st.calls && st.calls[id].FeesCall? && Timely(st, st.calls[id])
    ensures var s := st.screen;
      Deliver(st, id, r, mined, priced).screen
      == s.(feeTiers := if r.ok && NamesAny(r) && NamesShown(r, s.at) then Known(r.text, st.calls[id].under) else Blank)
  {
    hide SameText;
  }

  // ---------- The quote ----------

  // What a timely quote reply says: figures for the request it priced; nothing that can be attributed; a
  // refusal of an edit, which the user reads; or a refusal of a timer's, which only marks the figures.
  function Quoted(s: ScopedState, c: Call, r: Reply): ScopedState
    requires c.QuoteCall?
  {
    if r.ok then
      if NamesAny(r) && NamesShown(r, s.at) then
        s.(quote := Priced(r.text, c.priced, c.under, Shown(s)), quoteRequest := c.priced, quoteStale := false)
      else WithoutQuote(s)
    else if c.interactive then WithoutQuote(s).(sendError := Known(r.error, c.under))
    else s.(quoteStale := true)
  }

  // A request enters: figures for another one go, and an edit takes the error with it.
  function Entered(s: ScopedState, request: Request, interactive: bool): ScopedState {
    var kept := if s.quoteRequest == request then s else WithoutQuote(s);
    if interactive then kept.(sendError := Blank) else kept
  }

  lemma EditEnters(st: State, request: Request, interactive: bool)
    ensures RunQuote(st, request, interactive).screen == Entered(st.screen, request, interactive)
  {
    hide DescribesASend;
  }

  // The reply is shown, and then a queued re-run enters the newest request again.
  lemma QuoteArrives(st: State, id: nat, r: Reply, mined: bool, priced: Option<string>)
    requires id in st.calls && st.calls[id].QuoteCall? && Timely(st, st.calls[id])
    ensures var quoted := Quoted(st.screen, st.calls[id], r);
      Deliver(st, id, r, mined, priced).screen
      == if st.quoteLane.again then Entered(quoted, st.quoteRequest, st.againInteractive) else quoted
  {
    hide SameText, RunQuote;
    var c := st.calls[id];
    var applied := ApplyQuote(st.screen, r, c.priced, c.interactive, c.under);
    var released := st.quoteLane.(flight := st.quoteLane.flight.Released(c.slot), again := false);
    var drained := st.(calls := st.calls - {id}, screen := applied, quoteLane := released, againInteractive := false);
    EditEnters(drained, st.quoteRequest, st.againInteractive);
  }

  // So figures for the newest request stand, whether or not a re-run was queued.
  lemma FiguresStand(st: State, id: nat, r: Reply, mined: bool, priced: Option<string>)
    requires Inv(st) && id in st.calls && st.calls[id].QuoteCall? && Timely(st, st.calls[id])
    requires r.ok && NamesAny(r) && NamesShown(r, st.screen.at)
    ensures var s := Deliver(st, id, r, mined, priced).screen;
      s.quote == Priced(r.text, st.quoteRequest, st.calls[id].under, Shown(st.screen)) && s.quoteRequest == st.quoteRequest
      && !s.quoteStale
  {
    QuoteArrives(st, id, r, mined, priced);
    hide SameText, Deliver, ScreenOk;
    assert CallOk(st.calls[id], st.dataGen, st.quoteGen, st.screen.at, st.quoteRequest);
  }

  lemma DialogMoves(st: State)
    ensures SetQuoteAutoRefresh(st, true).screen == st.screen.(sendError := Blank)
    ensures SetQuoteAutoRefresh(st, false).screen == WithoutQuote(st.screen)
    ensures SetQuoteAutoRefresh(st, false).quoteRequest == NoRequest
  {}

  // ---------- Sending and resending ----------

  // A refusal reaches the screen while the selection is held; an accepted send closes the review.
  lemma SendArrives(st: State, id: nat, r: Reply, mined: bool, priced: Option<string>)
    requires id in st.calls && st.calls[id].SendCall?
    ensures var s, c := st.screen, st.calls[id];
      Deliver(st, id, r, mined, priced).screen ==
      if r.ok then s.(resendReview := Blank)
      else if c.gen == st.dataGen then s.(sendError := Known(r.error, c.under)) else s
    ensures SubmitSend(st).screen == st.screen.(sendError := Blank)
  {}

  // The next leg goes out under the same claim and generation, or the claim is given up.
  predicate Continues(st: State, next: State, leg: Option<Leg>, c: Call)
    requires c.ResendCall?
  {
    if leg.None? then next.resend == st.resend.(held := false) && next.nextCall == st.nextCall
    else
      && next.resend == st.resend && st.nextCall in next.calls
      && next.calls[st.nextCall] == ResendCall(c.slot, c.gen, leg.value, st.screen.at)
  }

  // The last leg of a resend puts its request, with the quote, up for review.
  lemma ResendArrives(st: State, id: nat, r: Reply, mined: bool, priced: Option<string>)
    requires id in st.calls && st.calls[id].ResendCall? && Timely(st, st.calls[id])
    ensures var s, c, next := st.screen, st.calls[id], Deliver(st, id, r, mined, priced);
      && (c.leg.QuoteLeg? ==>
            next.screen == if r.ok then s.(resendReview := Known(c.leg.request + r.text, c.under)) else s)
      && (!c.leg.QuoteLeg? && !(c.leg.StatusLeg? && mined) ==> next.screen == s)
    ensures var c, next := st.calls[id], Deliver(st, id, r, mined, priced);
      && (c.leg.FeesLeg? ==> Continues(st, next, if r.ok && priced.Some? then Some(QuoteLeg(priced.value)) else None, c))
      && (c.leg.StatusLeg? && !mined ==> Continues(st, next, Some(FeesLeg), c))
    ensures DismissResend(st).screen == st.screen.(resendReview := Blank)
  {
    hide LoadBalancesAndHistory;
  }

  // ---------- Transaction details ----------

  // Details are shown for the transaction they were asked for; without a hash the reply is no answer,
  // and the screen says so of that transaction.
  lemma DetailsArrive(st: State, id: nat, r: Reply, mined: bool, priced: Option<string>)
    requires id in st.calls && st.calls[id].DetailsCall? && Timely(st, st.calls[id])
    ensures var s, c := st.screen, st.calls[id];
      Deliver(st, id, r, mined, priced).screen ==
      if c.hash == "" then s
      else if r.hash.None? then s.(txDetails := Known("the wallet backend did not answer", c.under))
      else if r.hash.value != "" && SameText(r.hash.value, c.hash) && NamesShown(r, s.at) && (NamesAny(r) || !r.ok)
      then s.(txDetails := Known(r.text, c.under))
      else s
  {
    var hash := st.calls[id].hash;
    assert SameText(hash, hash);
    hide SameText;
  }

  // ---------- The verified proxy ----------

  // An answered verdict replaces the one shown; the third silent one in a row says that nothing is known,
  // and an earlier one says nothing. A verdict of another mode or state withdraws figures and route.
  lemma VerdictArrivesMeaning(st: State, r: Reply)
    ensures var s := st.screen;
      var answered := r.mode.Some? && NamesShown(r, s.at) && (NamesAny(r) || !r.ok);
      var next := Step(st, VerdictArrives(r));
      && next.vpSilent == (if answered then 0 else st.vpSilent + 1)
      && next.screen ==
         if !answered && st.vpSilent < 2 then s
         else
           var v := if answered then Verdict(r.chainId, r.mode, r.state)
                    else Verdict(Some(s.at.chainId), Some("unknown"), Some("unhealthy"));
           if (v.mode, v.state) == (s.verifiedProxy.mode, s.verifiedProxy.state) then s.(verifiedProxy := v)
           else WithoutQuote(s).(verifiedProxy := v, balancesRoute := NoRoute)
  {
    hide SameText;
  }

  // ---------- Moving the selection ----------

  // The same account in other letters changes nothing. A move takes down what was read of the account, and
  // what was read of the chain only when the chain moves.
  lemma MovesMeaning(st: State, to: Selection)
    ensures var s := st.screen;
      PublishSelection(st, to).screen ==
      if s.at.chainId == to.chainId && SameText(s.at.account, to.account) then s.(at := to)
      else
        var chain := s.at.chainId == to.chainId;
        ScopedState(to, Stale, Blank, NoRoute, Blank, Blank, Blank, Blank, NoQuote, NoRequest, false, Blank, Blank,
                    if chain then s.tokens else "", if chain then s.feeTiers else Blank,
                    if chain then s.verifiedProxy else Verdict(None, None, None))
  {
    hide SameText;
  }

  // ---------- What goes out ----------

  // A claim is live until its deadline.
  predicate Live(f: Flight, now: int) { f.held && now < f.deadline }

  function Sent(st: State, c: Call): State { st.(calls := st.calls[st.nextCall := c], nextCall := st.nextCall + 1) }

  // A read of the account shown has 41 seconds for its two calls, and a lapse timer just after them; while
  // one is live, another is queued behind it.
  lemma ReloadSends(st: State)
    requires st.screen.at.account != ""
    ensures var f := st.dataLane.flight;
      Step(st, Reload) ==
      if Live(f, st.now) then st.(dataLane := Lane(f, true))
      else
        Sent(st.(dataLane := Lane(Flight(true, f.ticket + 1, st.now + 41_000), st.dataLane.again),
                 dataTimers := st.dataTimers + {Timer(f.ticket + 1, st.now + 41_001)}),
             BalancesCall(f.ticket + 1, st.dataGen, st.screen.at))
  {}

  // Its second call asks for what the first one did.
  lemma HistoryFollows(st: State, id: nat, r: Reply, mined: bool, priced: Option<string>)
    requires id in st.calls && st.calls[id].BalancesCall? && !Replaced(st.calls[id], st)
    ensures var c, next := st.calls[id], Deliver(st, id, r, mined, priced);
      && next.calls == (st.calls - {id})[st.nextCall := HistoryCall(c.slot, c.gen, c.under)]
      && next.dataLane == st.dataLane
  {}

  lemma FeesSend(st: State)
    ensures var f, at := st.fees, st.screen.at;
      Step(st, ReloadFees) ==
      if Live(f, st.now) then st
      else if at.chainId == 0 then st.(fees := Flight(false, f.ticket + 1, st.now + 131_000))
      else Sent(st.(fees := Flight(true, f.ticket + 1, st.now + 131_000)), FeesCall(f.ticket + 1, st.dataGen, at))
  {}

  // A request enters as the newest one. If it describes a send it goes out, or is queued; an edit stays an
  // edit while it is queued.
  lemma EditSends(st: State, request: Request, interactive: bool)
    ensures var f := st.quoteLane.flight;
      var entered := st.(quoteGen := st.quoteGen + if request == st.quoteRequest then 0 else 1, quoteRequest := request,
                         screen := Entered(st.screen, request, interactive));
      RunQuote(st, request, interactive) ==
      if !DescribesASend(request) then entered
      else if Live(f, st.now) then
        entered.(quoteLane := Lane(f, true), againInteractive := st.againInteractive || interactive)
      else
        Sent(entered.(quoteLane := Lane(Flight(true, f.ticket + 1, st.now + 131_000), st.quoteLane.again),
                      quoteTimers := st.quoteTimers + {Timer(f.ticket + 1, st.now + 131_001)}),
             QuoteCall(f.ticket + 1, st.dataGen, entered.quoteGen, request, interactive, st.screen.at))
    ensures Step(st, Edit(request)) == RunQuote(st, request, true)
  {
    hide DescribesASend, Entered, EnterQuoteRequest;
    EnteredIs(st.screen, request, interactive);
  }

  lemma EnteredIs(s: ScopedState, request: Request, interactive: bool)
    ensures var entered := EnterQuoteRequest(s, request);
      Entered(s, request, interactive) == if interactive then entered.(sendError := Blank) else entered
    ensures EnterQuoteRequest(s, request).at == s.at
  {}

  // The poll asks again for the newest request, not as an edit, and rests while a send is pending.
  lemma PollSends(st: State, sendPending: bool)
    ensures Step(st, PollQuote(sendPending))
         == if sendPending || st.quoteRequest == NoRequest then st else RunQuote(st, st.quoteRequest, false)
  {}

  lemma DetailsSend(st: State, hash: string)
    ensures var f, at := st.details, st.screen.at;
      Step(st, OpenDetails(hash)) ==
      if at.account == "" || hash == "" || Live(f, st.now) then st
      else Sent(st.(details := Flight(true, f.ticket + 1, st.now + 21_000)), DetailsCall(f.ticket + 1, st.dataGen, hash, at))
  {}

  // A row that names a transaction is asked about first.
  lemma ResendSends(st: State, hasHash: bool)
    ensures var f := st.resend;
      Step(st, Resend(hasHash)) ==
      if Live(f, st.now) then st
      else
        Sent(st.(resend := Flight(true, f.ticket + 1, st.now + 391_000)),
             ResendCall(f.ticket + 1, st.dataGen, if hasHash then StatusLeg else FeesLeg, st.screen.at))
  {}

  lemma SubmitSends(st: State)
    ensures Step(st, Submit) == Sent(st.(screen := st.screen.(sendError := Blank)), SendCall(st.dataGen, st.screen.at))
  {}
}
