/** Another application's request to send, checked before it is reviewed and again when it is accepted. */
module Intent {
  import opened Basics
  import opened Scope
  import opened Texts

  const MaxIntentCalls := 8
  const MaxIntentPurposeChars := 256
  const MaxLabelChars := 120

  // The chain of a request: not given, not an integer, or an integer.
  datatype ChainParam = NoChain | NotAnInteger | Chain(chainId: int)

  // A call; an absent field is empty.
  datatype Call = Call(to: string, value: string, data: string, gasLimit: string, caption: string, meta: map<string, string>)

  datatype Params = Params(chain: ChainParam, from: string, purpose: string, tier: string, calls: seq<Call>)

  datatype Review = Review(
    requestId: string, requester: string, chainId: int, from: string, purpose: string, tier: string, calls: seq<Call>)

  datatype Refusal =
    | NoRequestId | AlreadySending | NothingSelected | ChainNotAnInteger | ChainOutOfScope | NoSuchAccount
    | NoPurpose | PurposeTooLong | NoCalls | TooManyCalls | NoAddress(call: nat) | BadCalldata(call: nat) | NoSuchTier

  datatype Checked = Accepted(review: Review) | Refused(why: Refusal)

  // The wallet as it stands.
  datatype Wallet = Wallet(shown: Selection, accounts: seq<string>, allowedChains: seq<int>, sending: bool)

  // Reported as busy; every other refusal is a bad request.
  predicate IsBusy(why: Refusal) { why == AlreadySending || why == NothingSelected }

  // ---------- Addresses ----------

  predicate IsHexDigit(c: char) { '0' <= c <= '9' || 'a' <= c <= 'f' || 'A' <= c <= 'F' }

  predicate IsAddress(s: string) {
    |s| == 42 && s[0] == '0' && (s[1] == 'x' || s[1] == 'X') && forall i | 2 <= i < 42 :: IsHexDigit(s[i])
  }

  method LooksLikeAddress(s: string) returns (looks: bool)
    ensures looks == IsAddress(s)
  {
    if |s| != 42 || !SameText(s[..2], "0x") {
      PrefixOfAddress(s);
      return false;
    }
    PrefixOfAddress(s);
    for i := 2 to |s|
      invariant forall k | 2 <= k < i :: IsHexDigit(s[k])
    {
      var c := s[i];
      if !('0' <= c <= '9' || 'a' <= c <= 'f' || 'A' <= c <= 'F') {
        return false;
      }
    }
    return true;
  }

  lemma PrefixOfAddress(s: string)
    ensures |s| == 42 ==> (SameText(s[..2], "0x") <==> s[0] == '0' && (s[1] == 'x' || s[1] == 'X'))
  {
    if |s| == 42 {
      assert Folded("0x") == "0x";
      assert Folded(s[..2]) == [Fold(s[0]), Fold(s[1])];
    }
  }

  // ---------- One call ----------

  predicate GoodCalldata(data: string) { data == "" || ("0x" <= data && |data| % 2 == 0) }

  function DigitChar(n: nat): char
    requires n < 10
  {
    match n
    case 0 => '0' case 1 => '1' case 2 => '2' case 3 => '3' case 4 => '4'
    case 5 => '5' case 6 => '6' case 7 => '7' case 8 => '8' case _ => '9'
  }

  // The label of a call that has none.
  function CallNumber(i: nat): string
    requires i < MaxIntentCalls
  {
    "Call " + [DigitChar(i + 1)]
  }

  function Left(s: string, n: nat): string { if |s| <= n then s else s[..n] }

  predicate GoodCall(c: Call) { IsAddress(Trimmed(c.to)) && GoodCalldata(Trimmed(c.data)) }

  // Trimmed, labelled, and stamped with who asked.
  function CleanCall(c: Call, requester: string, i: nat): Call
    requires i < MaxIntentCalls
  {
    var caption := Trimmed(c.caption);
    Call(Trimmed(c.to), Trimmed(c.value), Trimmed(c.data), Trimmed(c.gasLimit),
         if caption == "" then CallNumber(i) else Left(caption, MaxLabelChars),
         c.meta["app" := requester]["intent" := "evm.transactions.send"])
  }

  // The call as it was asked for: trimmed, its description stamped with who asked over whatever it said
  // of that, its label cut or, where there is none, numbered from 1.
  ghost predicate AsAsked(c: Call, requester: string, i: nat, a: Call)
    requires i < MaxIntentCalls
  {
    && a.to == Trimmed(c.to) && a.value == Trimmed(c.value) && a.data == Trimmed(c.data) && a.gasLimit == Trimmed(c.gasLimit)
    && StampedBy(c.meta, requester, a.meta)
    && Captioned(Trimmed(c.caption), i, a.caption)
  }

  ghost predicate StampedBy(asked: map<string, string>, requester: string, meta: map<string, string>) {
    && (forall k :: k in meta <==> k in asked || k == "app" || k == "intent")
    && (forall k | k in asked && k != "app" && k != "intent" :: meta[k] == asked[k])
    && meta["app"] == requester && meta["intent"] == "evm.transactions.send"
  }

  ghost predicate Captioned(asked: string, i: nat, caption: string)
    requires i < MaxIntentCalls
  {
    if asked == "" then |caption| == 6 && caption[..5] == "Call " && caption[5] as int == '1' as int + i
    else caption <= asked && (if |asked| <= 120 then caption == asked else |caption| == 120)
  }

  lemma CleanIsAsAsked(c: Call, requester: string, i: nat, a: Call)
    requires i < MaxIntentCalls
    ensures AsAsked(c, requester, i, a) <==> a == CleanCall(c, requester, i)
  {
    hide Trimmed, CallNumber, Captioned, StampedBy;
    CaptionIsLeft(Trimmed(c.caption), i, a.caption);
    StampIsUpdate(c.meta, requester, a.meta);
  }

  lemma CaptionIsLeft(asked: string, i: nat, caption: string)
    requires i < MaxIntentCalls
    ensures Captioned(asked, i, caption) <==> caption == if asked == "" then CallNumber(i) else Left(asked, MaxLabelChars)
  {
    if asked == "" {
      NumberOf(i);
      assert |caption| == 6 ==> caption == caption[..5] + [caption[5]];
    }
  }

  lemma NumberOf(i: nat)
    requires i < MaxIntentCalls
    ensures DigitChar(i + 1) as int == '1' as int + i
  {}

  lemma StampIsUpdate(asked: map<string, string>, requester: string, meta: map<string, string>)
    ensures StampedBy(asked, requester, meta) <==> meta == asked["app" := requester]["intent" := "evm.transactions.send"]
  {
    if StampedBy(asked, requester, meta) {
      var update := asked["app" := requester]["intent" := "evm.transactions.send"];
      assert forall k :: k in meta <==> k in update;
      assert forall k | k in meta :: meta[k] == update[k];
    }
  }

  // ---------- The check ----------

  // Every call is good, and reviewed as it was asked for.
  ghost predicate CallsChecked(calls: seq<Call>, requester: string, cleaned: seq<Call>)
    requires |calls| <= MaxIntentCalls
  {
    && |cleaned| == |calls|
    && forall i | 0 <= i < |calls| :: GoodCall(calls[i]) && AsAsked(calls[i], requester, i, cleaned[i])
  }

  // The first bad call refuses.
  ghost predicate FirstBad(calls: seq<Call>, why: Refusal) {
    exists i: nat :: i < |calls| && (forall j | 0 <= j < i :: GoodCall(calls[j]))
      && if !IsAddress(Trimmed(calls[i].to)) then why == NoAddress(i)
         else !GoodCalldata(Trimmed(calls[i].data)) && why == BadCalldata(i)
  }

  predicate Held(from: string, accounts: seq<string>) { exists a :: a in accounts && SameText(a, from) }

  function ChainOf(p: Params, w: Wallet): int {
    if p.chain.Chain? then p.chain.chainId else w.shown.chainId
  }

  function AccountOf(from: string, w: Wallet): string {
    if Trimmed(from) == "" then w.shown.account else Trimmed(from)
  }

  function TierOf(p: Params): string { if Trimmed(p.tier) == "" then "normal" else Trimmed(p.tier) }

  predicate IsTier(tier: string) { tier == "slow" || tier == "normal" || tier == "fast" }

  // The wallet can send on the chain and from the account named.
  predicate CanSend(w: Wallet, chainId: int, from: string) {
    && !w.sending && w.shown.chainId != 0 && w.shown.account != ""
    && chainId > 0 && chainId in w.allowedChains
    && (Trimmed(from) == "" || Held(Trimmed(from), w.accounts))
  }

  // Why a request is refused before its calls are looked at, in the order the reasons are given.
  function EarlyRefusal(requestId: string, p: Params, w: Wallet): (why: Option<Refusal>)
    ensures why.None? ==> 0 < |p.calls| <= 8
  {
    if requestId == "" then Some(NoRequestId)
    else if w.sending then Some(AlreadySending)
    else if w.shown.chainId == 0 || w.shown.account == "" then Some(NothingSelected)
    else if p.chain.NotAnInteger? then Some(ChainNotAnInteger)
    else if ChainOf(p, w) <= 0 || ChainOf(p, w) !in w.allowedChains then Some(ChainOutOfScope)
    else if Trimmed(p.from) != "" && !Held(Trimmed(p.from), w.accounts) then Some(NoSuchAccount)
    else if Trimmed(p.purpose) == "" then Some(NoPurpose)
    else if |Trimmed(p.purpose)| > 256 then Some(PurposeTooLong)
    else if p.calls == [] then Some(NoCalls)
    else if |p.calls| > 8 then Some(TooManyCalls)
    else None
  }

  // What the check answers.
  ghost predicate Answers(requestId: string, requester: string, p: Params, w: Wallet, out: Checked) {
    var early := EarlyRefusal(requestId, p, w);
    if early.Some? then out == Refused(early.value)
    else if exists i :: 0 <= i < |p.calls| && !GoodCall(p.calls[i]) then out.Refused? && FirstBad(p.calls, out.why)
    else if !IsTier(TierOf(p)) then out == Refused(NoSuchTier)
    else out.Accepted? && IsReviewOf(out.review, requestId, requester, p, w)
  }

  // The review of a request: as asked, with the wallet's own account and chain where none is named.
  ghost predicate IsReviewOf(v: Review, requestId: string, requester: string, p: Params, w: Wallet)
    requires |p.calls| <= MaxIntentCalls
  {
    && v.requestId == requestId && v.requester == requester && v.chainId == ChainOf(p, w) && v.from == AccountOf(p.from, w)
    && v.purpose == Trimmed(p.purpose) && v.tier == TierOf(p) && CallsChecked(p.calls, requester, v.calls)
  }

  method IsHeld(from: string, accounts: seq<string>) returns (held: bool)
    ensures held == Held(from, accounts)
  {
    for i := 0 to |accounts|
      invariant forall k | 0 <= k < i :: !SameText(accounts[k], from)
    {
      if SameText(accounts[i], from) {
        assert accounts[i] in accounts;
        return true;
      }
    }
    return false;
  }

  // The calls, cleaned one after the other, or the reason to refuse the first bad one.
  method CheckCalls(calls: seq<Call>, requester: string) returns (cleaned: seq<Call>, refusal: Option<Refusal>)
    requires |calls| <= MaxIntentCalls
    ensures refusal.None? ==> CallsChecked(calls, requester, cleaned)
    ensures refusal.Some? ==> FirstBad(calls, refusal.value) && exists i :: 0 <= i < |calls| && !GoodCall(calls[i])
  {
    hide Trimmed, IsAddress, CleanCall, AsAsked;
    cleaned := [];
    for i := 0 to |calls|
      invariant |cleaned| == i
      invariant forall k | 0 <= k < i :: GoodCall(calls[k]) && AsAsked(calls[k], requester, k, cleaned[k])
    {
      var c := calls[i];
      var to := Trimmed(c.to);
      var addressed := LooksLikeAddress(to);
      if !addressed {
        assert !GoodCall(calls[i]);
        return cleaned, Some(NoAddress(i));
      }
      var data := Trimmed(c.data);
      if data != "" && (!("0x" <= data) || |data| % 2 != 0) {
        assert !GoodCall(calls[i]);
        return cleaned, Some(BadCalldata(i));
      }
      var caption := Trimmed(c.caption);
      var meta := c.meta["app" := requester];
      meta := meta["intent" := "evm.transactions.send"];
      var a := Call(to, Trimmed(c.value), data, Trimmed(c.gasLimit),
                    if caption == "" then CallNumber(i) else Left(caption, MaxLabelChars), meta);
      CallIsClean(c, requester, i, a);
      cleaned := cleaned + [a];
    }
    return cleaned, None;
  }

  lemma CallIsClean(c: Call, requester: string, i: nat, a: Call)
    requires i < MaxIntentCalls
    requires a == Call(Trimmed(c.to), Trimmed(c.value), Trimmed(c.data), Trimmed(c.gasLimit),
                       if Trimmed(c.caption) == "" then CallNumber(i) else Left(Trimmed(c.caption), MaxLabelChars),
                       c.meta["app" := requester]["intent" := "evm.transactions.send"])
    ensures AsAsked(c, requester, i, a)
  {
    hide Trimmed, AsAsked, CallNumber, Left;
    CleanIsAsAsked(c, requester, i, a);
  }

  method CheckIntentSend(requestId: string, requester: string, p: Params, w: Wallet) returns (out: Checked)
    ensures Answers(requestId, requester, p, w, out)
  {
    hide Trimmed, GoodCall, Held, CallsChecked, FirstBad;
    if requestId == "" {
      return Refused(NoRequestId);
    }
    if w.sending {
      return Refused(AlreadySending);
    }
    if w.shown.chainId == 0 || w.shown.account == "" {
      return Refused(NothingSelected);
    }
    var chainId := w.shown.chainId;
    if p.chain.NotAnInteger? {
      return Refused(ChainNotAnInteger);
    }
    if p.chain.Chain? {
      chainId := p.chain.chainId;
    }
    if chainId <= 0 || chainId !in w.allowedChains {
      return Refused(ChainOutOfScope);
    }
    var from := Trimmed(p.from);
    if from == "" {
      from := w.shown.account;
    } else {
      var held := IsHeld(from, w.accounts);
      if !held {
        return Refused(NoSuchAccount);
      }
    }
    var purpose := Trimmed(p.purpose);
    if purpose == "" {
      return Refused(NoPurpose);
    }
    if |purpose| > MaxIntentPurposeChars {
      return Refused(PurposeTooLong);
    }
    if p.calls == [] {
      return Refused(NoCalls);
    }
    if |p.calls| > MaxIntentCalls {
      return Refused(TooManyCalls);
    }
    var cleaned, refusal := CheckCalls(p.calls, requester);
    if refusal.Some? {
      return Refused(refusal.value);
    }
    CheckedCallsAreGood(p.calls, requester, cleaned);
    var tier := Trimmed(p.tier);
    if tier == "" {
      tier := "normal";
    }
    if tier != "slow" && tier != "normal" && tier != "fast" {
      return Refused(NoSuchTier);
    }
    return Accepted(Review(requestId, requester, chainId, from, purpose, tier, cleaned));
  }

  lemma CheckedCallsAreGood(calls: seq<Call>, requester: string, cleaned: seq<Call>)
    requires |calls| <= MaxIntentCalls && CallsChecked(calls, requester, cleaned)
    ensures forall i | 0 <= i < |calls| :: GoodCall(calls[i])
  {
    hide GoodCall, AsAsked;
  }

  lemma AnswersIsAFunction(requestId: string, requester: string, p: Params, w: Wallet, a: Checked, b: Checked)
    requires Answers(requestId, requester, p, w, a) && Answers(requestId, requester, p, w, b)
    ensures a == b
  {
    hide Trimmed, IsAddress, GoodCalldata, Held, CleanCall, EarlyRefusal, AsAsked;
    if a.Accepted? && b.Accepted? {
      forall i | 0 <= i < |p.calls|
        ensures a.review.calls[i] == b.review.calls[i]
      {
        CleanIsAsAsked(p.calls[i], requester, i, a.review.calls[i]);
        CleanIsAsAsked(p.calls[i], requester, i, b.review.calls[i]);
      }
      assert a.review.calls == b.review.calls;
    }
  }

  // ---------- Checked twice ----------

  // The accepted review, as it goes through the check again.
  function AgainParams(v: Review): Params {
    Params(Chain(v.chainId), v.from, v.purpose, v.tier, v.calls)
  }

  // The same call, but for white space left at the end of a label that was cut.
  predicate SameCall(a: Call, b: Call) {
    && a.to == b.to && a.value == b.value && a.data == b.data && a.gasLimit == b.gasLimit && a.meta == b.meta
    && b.caption <= a.caption && (forall i | |b.caption| <= i < |a.caption| :: IsSpace(a.caption[i]))
    && (|a.caption| < MaxLabelChars ==> b.caption == a.caption)
  }

  lemma TrimmedLeft(s: string, n: nat)
    requires IsTrimmed(s) && s != "" && n > 0
    ensures Left(s, n) != "" && !IsSpace(Left(s, n)[0])
    ensures TrimLeft(Left(s, n)) == Left(s, n)
  {}

  lemma {:induction false} TrimRightCuts(s: string)
    ensures forall i | |TrimRight(s)| <= i < |s| :: IsSpace(s[i])
    ensures s != "" && !IsSpace(s[0]) ==> TrimRight(s) != ""
  {
    if s != "" && IsSpace(s[|s| - 1]) {
      TrimRightCuts(s[..|s| - 1]);
    }
  }

  lemma CleanCallAgain(c: Call, requester: string, i: nat)
    requires i < MaxIntentCalls && GoodCall(c)
    ensures var a := CleanCall(c, requester, i);
      GoodCall(a) && SameCall(a, CleanCall(a, requester, i)) && CleanCall(a, requester, i).caption == Trimmed(a.caption)
  {
    hide IsAddress, GoodCalldata, Trimmed, CallNumber, Left;
    var a := CleanCall(c, requester, i);
    TrimTwice(c.to);
    TrimTwice(c.value);
    TrimTwice(c.data);
    TrimTwice(c.gasLimit);
    CaptionAgain(c.caption, i);
    StampTwice(c.meta, requester);
  }

  lemma StampTwice(meta: map<string, string>, requester: string)
    ensures var stamped := meta["app" := requester]["intent" := "evm.transactions.send"];
      stamped["app" := requester]["intent" := "evm.transactions.send"] == stamped
  {}

  lemma TrimTwice(s: string)
    ensures Trimmed(Trimmed(s)) == Trimmed(s)
  {
    TrimmedIsTrimmed(s);
    TrimmedIsFixed(Trimmed(s));
  }

  lemma CaptionAgain(given: string, i: nat)
    requires i < MaxIntentCalls
    ensures var caption := if Trimmed(given) == "" then CallNumber(i) else Left(Trimmed(given), MaxLabelChars);
      var again := Trimmed(caption);
      && again != "" && again <= caption && Left(again, MaxLabelChars) == again
      && (forall k | |again| <= k < |caption| :: IsSpace(caption[k]))
      && (|caption| < MaxLabelChars ==> again == caption)
  {
    hide Trimmed, CallNumber, Left;
    var t := Trimmed(given);
    TrimmedIsTrimmed(given);
    NumberAgain(i);
    if t != "" {
      LabelAgain(t);
    }
  }

  lemma NumberAgain(i: nat)
    requires i < MaxIntentCalls
    ensures Trimmed(CallNumber(i)) == CallNumber(i) != "" && |CallNumber(i)| == 6
    ensures Left(CallNumber(i), MaxLabelChars) == CallNumber(i)
  {
    hide Trimmed;
    assert IsTrimmed(CallNumber(i));
    TrimmedIsFixed(CallNumber(i));
  }

  lemma LabelAgain(t: string)
    requires IsTrimmed(t) && t != ""
    ensures var caption := Left(t, MaxLabelChars);
      var again := Trimmed(caption);
      && again != "" && again <= caption && Left(again, MaxLabelChars) == again
      && (forall k | |again| <= k < |caption| :: IsSpace(caption[k]))
      && (|caption| < MaxLabelChars ==> again == caption)
  {
    TrimmedLeft(t, MaxLabelChars);
    TrimRightCuts(Left(t, MaxLabelChars));
    TrimmedIsFixed(t);
    hide TrimLeft, TrimRight;
  }

  // What an accepted review holds, whatever it was made from.
  predicate Reviewed(v: Review) {
    && v.requestId != "" && v.purpose != "" && |v.purpose| <= MaxIntentPurposeChars && Trimmed(v.purpose) == v.purpose
    && IsTier(v.tier) && v.chainId > 0 && v.from != "" && v.calls != [] && CallsReviewed(v.calls, v.requester)
  }

  predicate CallsReviewed(calls: seq<Call>, requester: string) {
    && |calls| <= MaxIntentCalls
    && forall i | 0 <= i < |calls| :: CallReviewed(calls[i], requester, i)
  }

  predicate CallReviewed(c: Call, requester: string, i: nat)
    requires i < MaxIntentCalls
  {
    GoodCall(c) && SameCall(c, CleanCall(c, requester, i))
  }

  lemma AcceptedIsReviewed(requestId: string, requester: string, p: Params, w: Wallet, out: Checked)
    requires Answers(requestId, requester, p, w, out) && out.Accepted?
    ensures Reviewed(out.review)
  {
    hide Trimmed, IsAddress, GoodCalldata, Held, SameCall, CleanCall, GoodCall, IsTier;
    var v := out.review;
    TrimTwice(p.purpose);
    forall i | 0 <= i < |v.calls|
      ensures CallReviewed(v.calls[i], v.requester, i)
    {
      CleanIsAsAsked(p.calls[i], requester, i, v.calls[i]);
      CleanCallAgain(p.calls[i], requester, i);
    }
  }

  // Whatever the wallet has become, a review that is accepted again sends what was reviewed.
  lemma WhatWasReviewedIsSent(
    requestId: string, requester: string, p: Params, w: Wallet, w': Wallet, reviewed: Checked, sent: Checked)
    requires Answers(requestId, requester, p, w, reviewed) && reviewed.Accepted?
    requires Answers(reviewed.review.requestId, reviewed.review.requester, AgainParams(reviewed.review), w', sent)
    requires sent.Accepted?
    ensures var a, b := reviewed.review, sent.review;
      && b.requestId == a.requestId && b.requester == a.requester && b.chainId == a.chainId
      && b.purpose == a.purpose && b.tier == a.tier && |b.calls| == |a.calls|
      && (forall i | 0 <= i < |a.calls| :: SameCall(a.calls[i], b.calls[i]))
      && (b.from == a.from <==> IsTrimmed(a.from) || (Trimmed(a.from) == "" && w'.shown.account == a.from))
  {
    AcceptedIsReviewed(requestId, requester, p, w, reviewed);
    ReviewIsSent(reviewed.review, w', sent);
  }

  lemma ReviewIsSent(a: Review, w: Wallet, sent: Checked)
    requires Reviewed(a) && Answers(a.requestId, a.requester, AgainParams(a), w, sent) && sent.Accepted?
    ensures var b := sent.review;
      && b.requestId == a.requestId && b.requester == a.requester && b.chainId == a.chainId
      && b.purpose == a.purpose && b.tier == a.tier && |b.calls| == |a.calls|
      && (forall i | 0 <= i < |a.calls| :: SameCall(a.calls[i], b.calls[i]))
      && (b.from == a.from <==> IsTrimmed(a.from) || (Trimmed(a.from) == "" && w.shown.account == a.from))
  {
    hide Trimmed, IsAddress, GoodCalldata, Held, SameCall, CleanCall, GoodCall, EarlyRefusal, IsTier;
    hide AsAsked;
    TierIsTrimmed(a.tier);
    TrimmedIsTrimmed(a.from);
    forall i | 0 <= i < |a.calls|
      ensures SameCall(a.calls[i], sent.review.calls[i])
    {
      CleanIsAsAsked(a.calls[i], a.requester, i, sent.review.calls[i]);
    }
    if IsTrimmed(a.from) {
      TrimmedIsFixed(a.from);
    }
  }

  lemma TierIsTrimmed(tier: string)
    requires IsTier(tier)
    ensures Trimmed(tier) == tier && tier != ""
  {
    hide Trimmed;
    TrimmedIsFixed(tier);
  }

  // What is sent of a call, after both checks: what was asked for, the label without white space that a
  // cut left at its end.
  ghost predicate SentAsAsked(c: Call, requester: string, i: nat, b: Call)
    requires i < MaxIntentCalls
  {
    && b.to == Trimmed(c.to) && b.value == Trimmed(c.value) && b.data == Trimmed(c.data) && b.gasLimit == Trimmed(c.gasLimit)
    && StampedBy(c.meta, requester, b.meta)
    && exists caption :: Captioned(Trimmed(c.caption), i, caption) && b.caption == Trimmed(caption)
  }

  // What is sent is what the application asked for.
  lemma WhatWasAskedIsSent(
    requestId: string, requester: string, p: Params, w: Wallet, w': Wallet, reviewed: Checked, sent: Checked)
    requires Answers(requestId, requester, p, w, reviewed) && reviewed.Accepted?
    requires Answers(reviewed.review.requestId, reviewed.review.requester, AgainParams(reviewed.review), w', sent)
    requires sent.Accepted?
    ensures var b := sent.review;
      && b.purpose == Trimmed(p.purpose) && b.tier == (if Trimmed(p.tier) == "" then "normal" else Trimmed(p.tier))
      && (p.chain.Chain? ==> b.chainId == p.chain.chainId) && (p.chain.NoChain? ==> b.chainId == w.shown.chainId)
      && (Trimmed(p.from) != "" ==> b.from == Trimmed(p.from))
      && |b.calls| == |p.calls| <= MaxIntentCalls
      && forall i | 0 <= i < |p.calls| :: SentAsAsked(p.calls[i], requester, i, b.calls[i])
  {
    hide Answers, EarlyRefusal, TierOf, ChainOf, AccountOf, IsReviewOf, Trimmed, CleanCall, GoodCall, SameCall, AsAsked;
    hide SentAsAsked, IsTrimmed, CallsChecked;
    WhatWasReviewedIsSent(requestId, requester, p, w, w', reviewed, sent);
    NamedAccountsAgree(requestId, requester, p, w, reviewed);
    AcceptedIsAsked(requestId, requester, p, w, reviewed);
    var a, b := reviewed.review, sent.review;
    AcceptedIsAsked(a.requestId, a.requester, AgainParams(a), w', sent);
    FieldsAreAsked(requestId, requester, p, w, a);
    CallsOfReview(requestId, requester, p, w, a);
    CallsOfReview(a.requestId, a.requester, AgainParams(a), w', b);
    forall i | 0 <= i < |p.calls|
      ensures SentAsAsked(p.calls[i], requester, i, b.calls[i])
    {
      CallIsSent(p.calls[i], a.calls[i], b.calls[i], requester, i);
    }
  }

  lemma AcceptedIsAsked(requestId: string, requester: string, p: Params, w: Wallet, out: Checked)
    requires Answers(requestId, requester, p, w, out) && out.Accepted?
    ensures |p.calls| <= MaxIntentCalls && IsReviewOf(out.review, requestId, requester, p, w)
    ensures forall i | 0 <= i < |p.calls| :: GoodCall(p.calls[i])
  {
    hide Trimmed, GoodCall, IsReviewOf, Held;
  }

  lemma FieldsAreAsked(requestId: string, requester: string, p: Params, w: Wallet, v: Review)
    requires |p.calls| <= MaxIntentCalls && IsReviewOf(v, requestId, requester, p, w)
    ensures v.requester == requester && v.purpose == Trimmed(p.purpose)
    ensures v.tier == if Trimmed(p.tier) == "" then "normal" else Trimmed(p.tier)
    ensures p.chain.Chain? ==> v.chainId == p.chain.chainId
    ensures p.chain.NoChain? ==> v.chainId == w.shown.chainId
    ensures Trimmed(p.from) != "" ==> v.from == Trimmed(p.from)
  {
    hide Trimmed, CallsChecked;
  }

  lemma CallsOfReview(requestId: string, requester: string, p: Params, w: Wallet, v: Review)
    requires |p.calls| <= MaxIntentCalls && IsReviewOf(v, requestId, requester, p, w)
    ensures |v.calls| == |p.calls|
    ensures forall i | 0 <= i < |p.calls| :: GoodCall(p.calls[i]) && AsAsked(p.calls[i], requester, i, v.calls[i])
  {
    hide Trimmed, TierOf, AsAsked, GoodCall;
  }

  lemma CallIsSent(c: Call, a: Call, b: Call, requester: string, i: nat)
    requires i < MaxIntentCalls && GoodCall(c) && AsAsked(c, requester, i, a) && AsAsked(a, requester, i, b)
    ensures SentAsAsked(c, requester, i, b)
  {
    hide Trimmed, Captioned, StampedBy, CleanCall, GoodCall, IsAddress, GoodCalldata, Left, CallNumber;
    CleanIsAsAsked(c, requester, i, a);
    CleanCallAgain(c, requester, i);
    CleanIsAsAsked(a, requester, i, b);
  }

  // The account is the same whenever the request named one, or the selected one has no white space around it.
  lemma NamedAccountsAgree(requestId: string, requester: string, p: Params, w: Wallet, reviewed: Checked)
    requires Answers(requestId, requester, p, w, reviewed) && reviewed.Accepted?
    ensures Trimmed(p.from) != "" || IsTrimmed(w.shown.account) ==> IsTrimmed(reviewed.review.from)
  {
    hide Trimmed, IsAddress, GoodCalldata, Held, CleanCall, GoodCall, EarlyRefusal;
    TrimmedIsTrimmed(p.from);
  }

  // Acceptance turns only on the wallet: a review passes the check again exactly when the wallet can
  // send, now, on its chain and from its account.
  lemma AcceptedAgain(requestId: string, requester: string, p: Params, w: Wallet, w': Wallet, reviewed: Checked, out: Checked)
    requires Answers(requestId, requester, p, w, reviewed) && reviewed.Accepted?
    requires Answers(reviewed.review.requestId, reviewed.review.requester, AgainParams(reviewed.review), w', out)
    ensures out.Accepted? <==> CanSend(w', reviewed.review.chainId, reviewed.review.from)
    ensures out.Refused? ==> IsBusy(out.why) || out.why == ChainOutOfScope || out.why == NoSuchAccount
  {
    AcceptedIsReviewed(requestId, requester, p, w, reviewed);
    ReviewedIsAccepted(reviewed.review, w', out);
  }

  lemma ReviewedIsAccepted(v: Review, w: Wallet, out: Checked)
    requires Reviewed(v) && Answers(v.requestId, v.requester, AgainParams(v), w, out)
    ensures out.Accepted? <==> CanSend(w, v.chainId, v.from)
    ensures out.Refused? ==> IsBusy(out.why) || out.why == ChainOutOfScope || out.why == NoSuchAccount
  {
    hide Trimmed, IsAddress, GoodCalldata, Held, CleanCall, GoodCall, SameCall, IsTier;
    TierIsTrimmed(v.tier);
  }

  // With no account named and white space around the selected one, the second check always sends from
  // another text than was reviewed.
  lemma PaddedAccountChanges(
    requestId: string, requester: string, p: Params, w: Wallet, w': Wallet, reviewed: Checked, sent: Checked)
    requires Trimmed(p.from) == "" && !IsTrimmed(w.shown.account) && Trimmed(w.shown.account) != ""
    requires Answers(requestId, requester, p, w, reviewed) && reviewed.Accepted?
    requires Answers(reviewed.review.requestId, reviewed.review.requester, AgainParams(reviewed.review), w', sent)
    requires sent.Accepted?
    ensures sent.review.from != reviewed.review.from
    ensures sent.review.from == Trimmed(w.shown.account)
  {
    hide Trimmed, IsAddress, GoodCalldata, Held, CleanCall, GoodCall, EarlyRefusal, SameCall;
    WhatWasReviewedIsSent(requestId, requester, p, w, w', reviewed, sent);
  }

  // A request of one good call that the wallet can send is accepted.
  lemma OneCallIsAccepted(requestId: string, requester: string, p: Params, w: Wallet)
    requires requestId != "" && !p.chain.NotAnInteger? && CanSend(w, ChainOf(p, w), p.from)
    requires Trimmed(p.purpose) != "" && |Trimmed(p.purpose)| <= MaxIntentPurposeChars && IsTier(TierOf(p))
    requires |p.calls| == 1 && GoodCall(p.calls[0])
    ensures var v := Review(requestId, requester, ChainOf(p, w), AccountOf(p.from, w), Trimmed(p.purpose), TierOf(p),
                            [CleanCall(p.calls[0], requester, 0)]);
      Answers(requestId, requester, p, w, Accepted(v))
  {
    hide Trimmed, IsAddress, GoodCalldata, Held, CleanCall, GoodCall, IsTier, AsAsked;
    CleanIsAsAsked(p.calls[0], requester, 0, CleanCall(p.calls[0], requester, 0));
  }

  function ZeroAddress(): string { "0x" + seq(40, _ => '0') }

  function PaddedWallet(): Wallet { Wallet(Selection(" a", 1), ["a"], [1], false) }

  function PaddedRequest(): Params { Params(NoChain, "", "b", "", [Call(ZeroAddress(), "", "", "", "c", map[])]) }

  // Such an input: account " a" is selected and "a" is held, and both checks of one request accept.
  lemma PaddedAccount() returns (reviewed: Checked, sent: Checked)
    ensures Answers("1", "d", PaddedRequest(), PaddedWallet(), reviewed) && reviewed.Accepted?
    ensures Answers("1", "d", AgainParams(reviewed.review), PaddedWallet(), sent) && sent.Accepted?
    ensures reviewed.review.requestId == "1" && reviewed.review.requester == "d"
    ensures reviewed.review.from == " a" && sent.review.from == "a"
  {
    hide Trimmed, CleanCall, Answers, GoodCall, ZeroAddress;
    TrimmedIsFixed("");
    TrimmedIsFixed("b");
    PaddedText();
    PaddedCall();
    var p, w := PaddedRequest(), PaddedWallet();
    OneCallIsAccepted("1", "d", p, w);
    var c := CleanCall(p.calls[0], "d", 0);
    reviewed := Accepted(Review("1", "d", 1, " a", "b", TierOf(p), [c]));
    CleanCallAgain(p.calls[0], "d", 0);
    TierIsTrimmed("normal");
    Holds("a", ["a"]);
    OneCallIsAccepted("1", "d", AgainParams(reviewed.review), w);
    sent := Accepted(Review("1", "d", 1, "a", "b", "normal", [CleanCall(c, "d", 0)]));
  }

  lemma Holds(a: string, accounts: seq<string>)
    requires a in accounts
    ensures Held(a, accounts)
  {}

  lemma PaddedCall()
    ensures GoodCall(PaddedRequest().calls[0])
  {
    hide Trimmed;
    TrimmedIsFixed(ZeroAddress());
    TrimmedIsFixed("");
  }

  lemma PaddedText()
    ensures Trimmed(" a") == "a"
  {
    hide Trimmed;
    var s := " a";
    assert s[1..] == "a";
    LeadingSpace(s);
    TrimmedIsFixed("a");
  }

  lemma LeadingSpace(s: string)
    requires s != "" && IsSpace(s[0])
    ensures Trimmed(s) == Trimmed(s[1..])
  {
    hide TrimRight;
  }
}
