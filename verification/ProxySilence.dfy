/** A verdict on the verified proxy does not outlive the backend's silence about it. */
module ProxySilence {
  import opened Basics
  import opened Scope
  import opened Texts
  import opened WalletProtocol

  // A backend that has stopped answering holds up no verdict: the one shown says that it is not known.
  predicate SilenceShows(st: State) {
    st.vpSilent >= MaxSilentPolls ==> st.screen.verifiedProxy == UnknownVerdict(st.screen.at.chainId)
  }

  // A verdict that says nothing of the chain shown: no mode, or about something else.
  predicate IsSilent(st: State, r: Reply) { r.mode.None? || !AnswersFor(r, st.screen.at) }

  // The silent verdicts since the last answer or move of the chain, after one more event.
  function Counted(st: State, silent: nat, e: Event): nat {
    match e
    case VerdictArrives(r) => if IsSilent(st, r) then silent + 1 else 0
    case SelectNetwork(chainId) => if chainId != st.screen.at.chainId then 0 else silent
    case _ => silent
  }

  function SilentVerdicts(now: int, events: seq<Event>): nat
    decreases |events|
  {
    if events == [] then 0
    else
      var before := events[..|events| - 1];
      Counted(Run(Start(now), before), SilentVerdicts(now, before), events[|events| - 1])
  }

  // The verdict, its chain and the silence are as they were.
  predicate VerdictStays(st: State, next: State) {
    && next.vpSilent == st.vpSilent && next.screen.verifiedProxy == st.screen.verifiedProxy
    && next.screen.at == st.screen.at
  }

  lemma LoadBalancesLeavesVerdict(st: State)
    ensures VerdictStays(st, LoadBalancesAndHistory(st)) && VerdictStays(st, HandOnData(st))
  {}

  lemma RunQuoteLeavesVerdict(st: State, request: Request, interactive: bool)
    ensures VerdictStays(st, RunQuote(st, request, interactive))
  {
    hide DescribesASend;
  }

  lemma HandOnQuoteLeavesVerdict(st: State)
    ensures VerdictStays(st, HandOnQuote(st))
  {
    hide RunQuote;
    RunQuoteLeavesVerdict(
      st.(quoteLane := st.quoteLane.(again := false), againInteractive := false), st.quoteRequest, st.againInteractive);
  }

  lemma RepliesLeaveVerdict(s: ScopedState, r: Reply, under: Selection, hash: string, priced: Request, interactive: bool)
    ensures ApplyBalances(s, r, under).verifiedProxy == s.verifiedProxy && ApplyBalances(s, r, under).at == s.at
    ensures ApplyHistory(s, r, under).verifiedProxy == s.verifiedProxy && ApplyHistory(s, r, under).at == s.at
    ensures ApplyQuote(s, r, priced, interactive, under).verifiedProxy == s.verifiedProxy
    ensures ApplyQuote(s, r, priced, interactive, under).at == s.at
    ensures ApplyTxDetails(s, r, hash, under).verifiedProxy == s.verifiedProxy && ApplyTxDetails(s, r, hash, under).at == s.at
  {
    hide AnswersFor, SameHex;
  }

  lemma DeliverLeavesVerdict(st: State, id: nat, r: Reply, mined: bool, priced: Option<string>)
    ensures VerdictStays(st, Deliver(st, id, r, mined, priced))
  {
    hide ApplyBalances, ApplyHistory, ApplyQuote, ApplyTxDetails, HandOnData, HandOnQuote, LoadBalancesAndHistory;
    hide AnswersFor;
    if id in st.calls {
      var c := st.calls[id];
      var answered := st.(calls := st.calls - {id});
      var stamped := Stamped(r, st.screen.at.chainId);
      match c
      case BalancesCall(_, _, under) => RepliesLeaveVerdict(st.screen, stamped, under, "", NoRequest, false);
      case HistoryCall(slot, gen, under) =>
        RepliesLeaveVerdict(st.screen, stamped, under, "", NoRequest, false);
        var applied := if gen != st.dataGen then st.screen else ApplyHistory(st.screen, stamped, under);
        LoadBalancesLeavesVerdict(
          answered.(screen := applied, dataLane := st.dataLane.(flight := st.dataLane.flight.Released(slot))));
      case QuoteCall(slot, gen, qgen, request, interactive, under) =>
        RepliesLeaveVerdict(st.screen, r, under, "", request, interactive);
        var late := gen != st.dataGen || qgen != st.quoteGen;
        var applied := if late then st.screen else ApplyQuote(st.screen, r, request, interactive, under);
        HandOnQuoteLeavesVerdict(
          answered.(screen := applied, quoteLane := st.quoteLane.(flight := st.quoteLane.flight.Released(slot))));
      case DetailsCall(_, _, hash, under) => RepliesLeaveVerdict(st.screen, r, under, hash, NoRequest, false);
      case ResendCall(slot, _, _, _) => LoadBalancesLeavesVerdict(EndResend(answered, slot));
      case _ =>
    }
  }

  lemma MoveResetsSilence(st: State, to: Selection)
    requires SilenceShows(st)
    ensures SilenceShows(PublishSelection(st, to))
    ensures PublishSelection(st, to).vpSilent == if st.screen.at.chainId != to.chainId then 0 else st.vpSilent
  {
    hide SameText;
  }

  lemma SilenceStep(st: State, e: Event)
    requires SilenceShows(st)
    ensures SilenceShows(Step(st, e)) && Step(st, e).vpSilent == Counted(st, st.vpSilent, e)
  {
    hide LoadBalancesAndHistory, RunQuote, HandOnData, HandOnQuote, Deliver, PublishSelection, AnswersFor;
    LoadBalancesLeavesVerdict(st);
    match e
    case DataLapse(timer) => LoadBalancesLeavesVerdict(st.(dataTimers := st.dataTimers - {timer}));
    case QuoteLapse(timer) => HandOnQuoteLeavesVerdict(st.(quoteTimers := st.quoteTimers - {timer}));
    case SelectAccount(account) => MoveResetsSilence(st, st.screen.at.(account := account));
    case SelectNetwork(chainId) => MoveResetsSilence(st, st.screen.at.(chainId := chainId));
    case Edit(request) => RunQuoteLeavesVerdict(st, request, true);
    case PollQuote(sendPending) => RunQuoteLeavesVerdict(st, st.quoteRequest, false);
    case ReplyArrives(id, r, mined, priced) => DeliverLeavesVerdict(st, id, r, mined, priced);
    case _ =>
  }

  // In every run the counter counts them.
  lemma {:induction false} SilenceIsCounted(now: int, events: seq<Event>)
    ensures var st := Run(Start(now), events);
      SilenceShows(st) && st.vpSilent == SilentVerdicts(now, events)
    decreases |events|
  {
    hide Step, Counted;
    if events != [] {
      SilenceIsCounted(now, events[..|events| - 1]);
      SilenceStep(Run(Start(now), events[..|events| - 1]), events[|events| - 1]);
    }
  }

  // Three silent verdicts since the last answer or move of the chain, whatever else happened between
  // them, leave on screen that the verdict on this chain is not known.
  lemma SilenceIsShown(now: int, events: seq<Event>)
    ensures SilentVerdicts(now, events) >= 3 ==>
              var s := Run(Start(now), events).screen; s.verifiedProxy == UnknownVerdict(s.at.chainId)
  {
    SilenceIsCounted(now, events);
    hide Run, SilentVerdicts;
  }
}
