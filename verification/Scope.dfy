/** The values on screen that mean something only against a selection, and the transitions replies make. */
module Scope {
  import opened Basics
  import opened Texts

  // The account and network cursor that scoped values were read under. Chain 0 is no network.
  datatype Selection = Selection(account: string, chainId: int)

  // An account is the same whatever the case of its letters.
  predicate Same(a: Selection, b: Selection) { a.chainId == b.chainId && SameText(a.account, b.account) }

  // A reply: what it names, and its payload. A call that failed answers nothing at all.
  datatype Reply = Reply(
    ok: bool,
    chainId: Option<int>,
    account: Option<string>,
    hash: Option<string>,
    text: string,
    error: string,
    routes: map<int, string>,
    transactions: Option<string>,
    blockedChains: string,
    blockedNonces: string,
    mode: Option<string>,
    state: Option<string>
  )

  const Silence: Reply := Reply(false, None, None, None, "", "", map[], None, "", "", None, None)

  predicate AgreesWith(chainId: Option<int>, account: Option<string>, s: Selection) {
    (chainId.Some? ==> chainId.value == s.chainId) && (account.Some? ==> SameText(account.value, s.account))
  }

  // A reply that names another account or chain is about something else; a success that names
  // neither cannot be attributed.
  predicate AnswersFor(r: Reply, shown: Selection) {
    AgreesWith(r.chainId, r.account, shown) && (r.chainId.Some? || r.account.Some? || !r.ok)
  }

  // A multi-chain success is stamped with the cursor chain of the moment it arrives.
  function Stamped(r: Reply, cursorChain: int): Reply {
    if r.ok then r.(chainId := Some(cursorChain)) else r
  }

  // The stamp makes the chain half of the check blind: whatever chain the reply was read for, a
  // stamped success passes it, so only the account is still checked.
  lemma StampedIsChainBlind(r: Reply, shown: Selection)
    ensures r.ok ==> (AnswersFor(Stamped(r, shown.chainId), shown)
                      <==> (r.account.Some? ==> SameText(r.account.value, shown.account)))
    ensures r.ok ==> forall c: Option<int> ::
              AnswersFor(Stamped(r.(chainId := c), shown.chainId), shown) <==> AnswersFor(Stamped(r, shown.chainId), shown)
  {}

  // ---------- The scoped state ----------

  // A published value, with the selection its call was issued under.
  datatype Field = Blank | Known(text: string, under: Selection)

  // What a verdict says of the verified proxy; a view without one has no mode.
  datatype Verdict = Verdict(chainId: Option<int>, mode: Option<string>, state: Option<string>)

  const NoVerdict: Verdict := Verdict(None, None, None)

  datatype Standing = Standing(mode: Option<string>, state: Option<string>)

  function StandingOf(v: Verdict): Standing { Standing(v.mode, v.state) }

  // A send form; rest stands for every field that does not decide whether it describes a send.
  datatype Request = Request(amountUnits: string, amount: string, to: string, rest: string)

  const NoRequest: Request := Request("", "", "", "")

  predicate DescribesASend(r: Request) {
    (Trimmed(r.amountUnits) != "" || Trimmed(r.amount) != "") && Trimmed(r.to) != ""
  }

  // A send has text in its recipient and in one of its amounts.
  lemma DescribesMeaning(r: Request)
    ensures DescribesASend(r) <==> !IsBlank(r.to) && (!IsBlank(r.amountUnits) || !IsBlank(r.amount))
  {
    hide Trimmed, IsBlank;
    TrimmedBlank(r.to);
    TrimmedBlank(r.amountUnits);
    TrimmedBlank(r.amount);
  }

  // Figures, with the request they priced and the verdict they were published beside.
  datatype Quote = NoQuote | Priced(text: string, request: Request, under: Selection, beside: Standing)

  datatype Route = NoRoute | Route(text: string, under: Selection, beside: Standing)

  // Whether the account's values were read under the selection shown: the view renders none before.
  datatype Freshness = Stale | Fresh(under: Selection)

  datatype ScopedState = ScopedState(
    at: Selection,
    freshness: Freshness,
    balances: Field,
    balancesRoute: Route,
    history: Field,
    blockedChains: Field,
    blockedNonces: Field,
    resendReview: Field,
    quote: Quote,
    quoteRequest: Request,
    quoteStale: bool,
    sendError: Field,
    txDetails: Field,
    tokens: string,
    feeTiers: Field,
    verifiedProxy: Verdict
  )

  function WithdrawQuote(s: ScopedState): ScopedState {
    s.(quote := NoQuote, quoteRequest := NoRequest, quoteStale := false)
  }

  // Figures priced for another request are about something else.
  function EnterQuoteRequest(s: ScopedState, request: Request): ScopedState {
    if s.quoteRequest == request then s else WithdrawQuote(s)
  }

  // Move the selection, withdrawing everything that no longer describes it.
  function EnterScope(s: ScopedState, to: Selection): ScopedState {
    if Same(s.at, to) then s
    else
      var left := WithdrawQuote(s).(
        at := to, freshness := Stale, balances := Blank, balancesRoute := NoRoute, history := Blank, blockedChains := Blank,
        blockedNonces := Blank, resendReview := Blank, txDetails := Blank, sendError := Blank);
      if s.at.chainId != to.chainId then left.(tokens := "", feeTiers := Blank, verifiedProxy := NoVerdict) else left
  }

  // ---------- What replies do ----------

  // Each takes the selection its call was issued under, to tag what it publishes.

  function ApplyBalances(s: ScopedState, r: Reply, under: Selection): ScopedState {
    if !AnswersFor(r, s.at) then s
    else if r.ok then
      var route := if s.at.chainId in r.routes then r.routes[s.at.chainId] else "";
      s.(balances := Known(r.text, under), balancesRoute := Route(route, under, StandingOf(s.verifiedProxy)),
         freshness := Fresh(under))
    else s.(balances := Blank, balancesRoute := NoRoute, freshness := Fresh(under))
  }

  function ApplyHistory(s: ScopedState, r: Reply, under: Selection): ScopedState {
    if !AnswersFor(r, s.at) then s
    else if !r.ok then s.(history := Blank, blockedNonces := Blank)
    else
      s.(history := if r.transactions.Some? then Known(r.transactions.value, under) else Blank,
         blockedChains := Known(if r.blockedChains == "" then "[]" else r.blockedChains, under),
         blockedNonces := Known(r.blockedNonces, under))
  }

  function ApplyFeeTiers(s: ScopedState, r: Reply, under: Selection): ScopedState {
    s.(feeTiers := if r.ok && AnswersFor(r, s.at) then Known(r.text, under) else Blank)
  }

  // Nothing to read: what is on screen, nothing, does describe this selection.
  function ApplyNoAccount(s: ScopedState): ScopedState {
    s.(balances := Blank, balancesRoute := NoRoute, history := Known("[]", s.at), blockedChains := Known("[]", s.at),
       freshness := Fresh(s.at))
  }

  function ApplyQuote(s: ScopedState, r: Reply, priced: Request, interactive: bool, under: Selection): ScopedState {
    if r.ok && AnswersFor(r, s.at) then
      s.(quote := Priced(r.text, priced, under, StandingOf(s.verifiedProxy)), quoteRequest := priced, quoteStale := false)
    else if r.ok then WithdrawQuote(s)
    else if interactive then WithdrawQuote(s).(sendError := Known(r.error, under))
    else s.(quoteStale := true)
  }

  predicate SameHex(a: string, b: string) { a != "" && b != "" && SameText(a, b) }

  // A reply without a hash is taken for a refusal about the transaction it was asked for.
  function ApplyTxDetails(s: ScopedState, r: Reply, forHash: string, under: Selection): ScopedState {
    var d := if r.hash.Some? then r else Silence.(hash := Some(forHash), text := "the wallet backend did not answer");
    if SameHex(d.hash.value, forHash) && AnswersFor(d, s.at) then s.(txDetails := Known(d.text, under)) else s
  }

  function UnknownVerdict(chainId: int): Verdict { Verdict(Some(chainId), Some("unknown"), Some("unhealthy")) }

  datatype VerdictApplied = VerdictApplied(s: ScopedState, silent: nat, poll: bool)

  // A verdict withdraws what was read under a different one; too much silence withdraws the verdict.
  function ApplyVerdict(s: ScopedState, r: Reply, silent: nat, maxSilent: nat): VerdictApplied {
    var answered := r.mode.Some? && AnswersFor(r, s.at);
    if !answered && silent + 1 < maxSilent then VerdictApplied(s, silent + 1, true)
    else
      var v := if answered then Verdict(r.chainId, r.mode, r.state) else UnknownVerdict(s.at.chainId);
      var published := s.(verifiedProxy := v);
      var moved := StandingOf(s.verifiedProxy) != StandingOf(v);
      VerdictApplied(if moved then WithdrawQuote(published).(balancesRoute := NoRoute) else published,
                     if answered then 0 else silent + 1, v.mode != Some("off"))
  }

  // A refusal is worded for the selection the send was made under, and shown only while that is held.
  function ApplySend(s: ScopedState, r: Reply, selectionHeld: bool, under: Selection): ScopedState {
    if r.ok || !selectionHeld then s else s.(sendError := Known(r.error, under))
  }

  // ---------- What may be on screen ----------

  predicate ReadUnder(f: Field, at: Selection) { f.Known? ==> Same(f.under, at) }

  // Everything scoped came from a call issued under this selection, fees under this chain, and a
  // quote or a route was published beside the verdict that still stands.
  predicate Scoped(s: ScopedState) {
    && ReadUnder(s.balances, s.at) && ReadUnder(s.history, s.at) && ReadUnder(s.blockedChains, s.at)
    && ReadUnder(s.blockedNonces, s.at) && ReadUnder(s.resendReview, s.at) && ReadUnder(s.sendError, s.at)
    && ReadUnder(s.txDetails, s.at) && (s.freshness.Fresh? ==> Same(s.freshness.under, s.at))
    && (s.balancesRoute.Route? ==>
          Same(s.balancesRoute.under, s.at) && s.balancesRoute.beside == StandingOf(s.verifiedProxy))
    && (s.quote.Priced? ==> Same(s.quote.under, s.at) && s.quote.beside == StandingOf(s.verifiedProxy))
    && (s.feeTiers.Known? ==> s.feeTiers.under.chainId == s.at.chainId)
    && (s.verifiedProxy.chainId.Some? ==> s.verifiedProxy.chainId.value == s.at.chainId)
  }

  // Figures shown with a request priced that request.
  predicate Paired(s: ScopedState) {
    s.quote.Priced? && s.quoteRequest != NoRequest ==> s.quote.request == s.quoteRequest
  }
}
