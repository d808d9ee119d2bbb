/**
  The arbitrage execution coordinator. Every port is an oracle: what it answers is a field of the
  object, and every call is journaled as an effect. `Execute` is proved to keep to the protocol.
 */
module Coordinator {
  import opened Wrappers
  import opened Decisions
  import opened Names
  import opened ExecutionProtocol

  /** Numbers that may not be finite are optional. */
  datatype Opportunity = Opportunity(
    market: string, buyExchange: string, sellExchange: string, quoteAsset: Option<string>,
    decision: Decision, quotesAreFresh: bool, enoughLiquidity: bool,
    executableQty: Option<real>, availableExecutableQty: real,
    buyPrice: Option<real>, sellPrice: Option<real>, netProfit: Option<real>, netProfitPercent: Option<real>)

  datatype Ports = Ports(
    hasBuyAdapter: bool, hasSellAdapter: bool, liveConfirmation: bool, buyConnected: bool, sellConnected: bool,
    authority: Option<Authority>,        // None: consuming it throws
    lastLook: LastLook, lastLookObserved: bool,
    takerFee: Option<real>,
    reservation: Option<string>,         // None: not approved
    bindSucceeds: bool,
    outcome: Outcome, dispatchObserved: bool,
    stageSucceeds: bool, finalizeSucceeds: bool)

  datatype ExecutionResult = ExecutionResult(
    status: Status, success: bool, requestedQuantity: Option<real>,
    matched: real, unmatchedBuy: real, unmatchedSell: real,
    recoveryRequired: bool, possibleExposure: bool, recoveryIntentStaged: bool)

  function BlockedResult(requested: Option<real>): ExecutionResult {
    ExecutionResult(Blocked, false, requested, 0.0, 0.0, 0.0, false, false, false)
  }

  // ---- assets ----

  datatype Assets = Assets(asset: string, quoteAsset: string)

  function FirstSuffix(market: string, candidates: seq<string>): Option<string> {
    if candidates == [] then None
    else if EndsWith(market, candidates[0]) then Some(candidates[0])
    else FirstSuffix(market, candidates[1..])
  }

  const QUOTES: seq<string> := ["USDT", "USDC", "INR", "BTC", "ETH"]

  function QuoteAssetOf(market: string, declared: Option<string>): string {
    var named := if declared.Some? then Upper(Trim(declared.value)) else "";
    if named != "" then named else FirstSuffix(market, QUOTES).GetOr("QUOTE")
  }

  /** The market is the asset and its quote asset, or the asset alone when it does not end in it. */
  function ResolveAssets(market: string, declared: Option<string>): (r: Result<Assets>)
    ensures var canonical := Strip(NormMarket(market), NotAlphanumeric);
            r.Ok? ==>
              && r.value.asset != "" && r.value.quoteAsset != ""
              && canonical
                 == r.value.asset + (if EndsWith(canonical, r.value.quoteAsset) then r.value.quoteAsset else "")
  {
    var canonical := Strip(NormMarket(market), NotAlphanumeric);
    var quoteAsset := QuoteAssetOf(canonical, declared);
    var asset := if EndsWith(canonical, quoteAsset) then canonical[..|canonical| - |quoteAsset|] else canonical;
    if asset == "" || quoteAsset == "" then Err else Ok(Assets(asset, quoteAsset))
  }

  /** A declared quote asset is taken in its normal form, whatever the market's name ends in. */
  lemma DeclaredAssets(market: string, declared: string)
    requires Upper(Trim(declared)) != ""
    ensures var canonical, quote := Strip(NormMarket(market), NotAlphanumeric), Upper(Trim(declared));
            && (!EndsWith(canonical, quote) && canonical != "" ==>
                  ResolveAssets(market, Some(declared)) == Ok(Assets(canonical, quote)))
            && (canonical == quote ==> ResolveAssets(market, Some(declared)) == Err)
  {
  }

  lemma {:induction false} FirstSuffixIs(market: string, candidates: seq<string>, quote: string)
    requires quote in candidates && EndsWith(market, quote)
    requires forall c :: c in candidates && c != quote ==> !EndsWith(market, c)
    ensures FirstSuffix(market, candidates) == Some(quote)
  {
    if candidates[0] != quote {
      FirstSuffixIs(market, candidates[1..], quote);
    }
  }

  lemma {:induction false} KnownSuffix(asset: string, quote: string)
    requires KnownQuote(quote)
    ensures FirstSuffix(asset + quote, QUOTES) == Some(quote)
    ensures EndsWith(asset + quote, quote) && (asset + quote)[..|asset|] == asset
  {
    var canonical := asset + quote;
    assert canonical[|canonical| - |quote|..] == quote;
    forall other | other in QUOTES && other != quote ensures !EndsWith(canonical, other) {
      OtherSuffix(asset, quote, other);
    }
    FirstSuffixIs(canonical, QUOTES, quote);
  }

  /** Without one, a market named after an asset and one of the known quote assets splits into the two. */
  lemma {:induction false} InferredAssets(market: string, declared: Option<string>, asset: string, quote: string)
    requires (declared.None? || Upper(Trim(declared.value)) == "") && KnownQuote(quote) && asset != ""
    requires Strip(NormMarket(market), NotAlphanumeric) == asset + quote
    ensures ResolveAssets(market, declared) == Ok(Assets(asset, quote))
  {
    KnownSuffix(asset, quote);
  }

  // ---- the opportunity's own checks ----

  predicate PositiveNumber(n: Option<real>) { n.Some? && n.value > 0.0 }

  predicate Clean(o: Opportunity) {
    && o.decision.Execute? && o.quotesAreFresh && o.enoughLiquidity
    && PositiveNumber(o.executableQty) && PositiveNumber(o.buyPrice) && PositiveNumber(o.sellPrice)
    && o.sellPrice.value > o.buyPrice.value
    && PositiveNumber(o.netProfit) && PositiveNumber(o.netProfitPercent)
    && NormExchange(o.buyExchange) != "" && NormExchange(o.sellExchange) != ""
    && NormExchange(o.buyExchange) != NormExchange(o.sellExchange)
  }

  datatype Complaint =
    | NotExecute | NotFresh | NotLiquid | BadQuantity | BadBuyPrice | BadSellPrice | NoSpread | NoProfit
    | NoExchange | SameExchange

  lemma InThree<T>(a: seq<T>, b: seq<T>, c: seq<T>)
    ensures forall r :: r in a + b + c <==> r in a || r in b || r in c
    ensures a + b + c == [] <==> a == [] && b == [] && c == []
  {
  }

  method ValidateOpportunity(o: Opportunity) returns (reasons: seq<Complaint>)
    ensures reasons == [] <==> Clean(o)
    ensures NotExecute in reasons <==> o.decision != Execute
    ensures NotFresh in reasons <==> !o.quotesAreFresh
    ensures NotLiquid in reasons <==> !o.enoughLiquidity
    ensures BadQuantity in reasons <==> o.executableQty.None? || o.executableQty.value <= 0.0
    ensures BadBuyPrice in reasons <==> o.buyPrice.None? || o.buyPrice.value <= 0.0
    ensures BadSellPrice in reasons <==> o.sellPrice.None? || o.sellPrice.value <= 0.0
    ensures NoSpread in reasons <==> o.buyPrice.Some? && o.sellPrice.Some? && o.sellPrice.value <= o.buyPrice.value
    ensures NoProfit in reasons <==> o.netProfit.None? || o.netProfit.value <= 0.0
                                     || o.netProfitPercent.None? || o.netProfitPercent.value <= 0.0
    ensures NoExchange in reasons <==> NormExchange(o.buyExchange) == "" || NormExchange(o.sellExchange) == ""
    ensures SameExchange in reasons <==> NormExchange(o.buyExchange) == NormExchange(o.sellExchange)
  {
    var standing := ValidateStanding(o);
    var prices := ValidatePrices(o);
    var venues := ValidateVenues(o);
    InThree(standing, prices, venues);
    reasons := standing + prices + venues;
  }

  method ValidateStanding(o: Opportunity) returns (reasons: seq<Complaint>)
    ensures forall c :: c in reasons <==>
              || (c == NotExecute && o.decision != Execute) || (c == NotFresh && !o.quotesAreFresh)
              || (c == NotLiquid && !o.enoughLiquidity)
              || (c == BadQuantity && (o.executableQty.None? || o.executableQty.value <= 0.0))
    ensures reasons == []
            <==> o.decision.Execute? && o.quotesAreFresh && o.enoughLiquidity && PositiveNumber(o.executableQty)
  {
    reasons := [];
    if !o.decision.Execute? { reasons := reasons + [NotExecute]; }
    if !o.quotesAreFresh { reasons := reasons + [NotFresh]; }
    if !o.enoughLiquidity { reasons := reasons + [NotLiquid]; }
    if !PositiveNumber(o.executableQty) { reasons := reasons + [BadQuantity]; }
  }

  method ValidatePrices(o: Opportunity) returns (reasons: seq<Complaint>)
    ensures forall c :: c in reasons <==>
              || (c == BadBuyPrice && (o.buyPrice.None? || o.buyPrice.value <= 0.0))
              || (c == BadSellPrice && (o.sellPrice.None? || o.sellPrice.value <= 0.0))
              || (c == NoSpread && o.buyPrice.Some? && o.sellPrice.Some? && o.sellPrice.value <= o.buyPrice.value)
              || (c == NoProfit && (o.netProfit.None? || o.netProfit.value <= 0.0
                                    || o.netProfitPercent.None? || o.netProfitPercent.value <= 0.0))
    ensures reasons == [] <==> && PositiveNumber(o.buyPrice) && PositiveNumber(o.sellPrice)
                               && o.sellPrice.value > o.buyPrice.value
                               && PositiveNumber(o.netProfit) && PositiveNumber(o.netProfitPercent)
  {
    reasons := [];
    if !PositiveNumber(o.buyPrice) { reasons := reasons + [BadBuyPrice]; }
    if !PositiveNumber(o.sellPrice) { reasons := reasons + [BadSellPrice]; }
    if o.buyPrice.Some? && o.sellPrice.Some? && o.sellPrice.value <= o.buyPrice.value {
      reasons := reasons + [NoSpread];
    }
    if !PositiveNumber(o.netProfit) || !PositiveNumber(o.netProfitPercent) { reasons := reasons + [NoProfit]; }
  }

  method ValidateVenues(o: Opportunity) returns (reasons: seq<Complaint>)
    ensures var buy, sell := NormExchange(o.buyExchange), NormExchange(o.sellExchange);
            forall c :: c in reasons <==>
              (c == NoExchange && (buy == "" || sell == "")) || (c == SameExchange && buy == sell)
    ensures var buy, sell := NormExchange(o.buyExchange), NormExchange(o.sellExchange);
            reasons == [] <==> buy != "" && sell != "" && buy != sell
  {
    reasons := [];
    var buyExchange, sellExchange := NormExchange(o.buyExchange), NormExchange(o.sellExchange);
    if buyExchange == "" || sellExchange == "" { reasons := reasons + [NoExchange]; }
    if buyExchange == sellExchange { reasons := reasons + [SameExchange]; }
  }

  function DealOf(o: Opportunity): Deal {
    Deal(o.market, NormExchange(o.buyExchange), NormExchange(o.sellExchange), o.availableExecutableQty)
  }

  // ---- journaling ----

  /** What one execution is about and what the ports will answer. */
  datatype Context = Context(deal: Deal, ports: Ports, clean: bool, named: bool)

  function ContextOf(o: Opportunity, ports: Ports, actionAuthorityId: string): Context {
    Context(DealOf(o), ports, Clean(o), Trim(actionAuthorityId) != "")
  }

  function CheckAnswer(x: Context, c: Check): bool {
    match c
    case OpportunityClean => x.clean
    case BuyAdapter => x.ports.hasBuyAdapter
    case SellAdapter => x.ports.hasSellAdapter
    case LiveConfirmation => x.ports.liveConfirmation
    case AuthorityNamed => x.named
    case BuyConnected => x.ports.buyConnected
    case SellConnected => x.ports.sellConnected
  }

  /** The journaled answer is the port's. */
  predicate Answered(x: Context, e: Effect) {
    match e
    case Checked(check, ok) => ok == CheckAnswer(x, check)
    case Consumed(authority) => authority == x.ports.authority
    case Looked(_, report) => report == x.ports.lastLook
    case FeeRead(percent) => percent == x.ports.takerFee
    case Reserved(_, _, _, _, _, granted) => granted == x.ports.reservation
    case Bound(ok) => ok == x.ports.bindSucceeds
    case Dispatched(_, _, outcome) => outcome == x.ports.outcome
    case Staged(_, _, _, _, ok) => ok == x.ports.stageSucceeds
    case Finalized(_, ok) => ok == x.ports.finalizeSucceeds
    case _ => true
  }

  ghost predicate AllAnswered(x: Context, journal: seq<Effect>) {
    forall i :: 0 <= i < |journal| ==> Answered(x, journal[i])
  }

  /** A journal the protocol accepts, with nothing in it but the ports' own answers. */
  ghost predicate Keeps(x: Context, journal: seq<Effect>, phases: seq<Phase>) {
    Accepted(x.deal, journal, phases) && AllAnswered(x, journal)
  }

  method Emit(x: Context, journal: seq<Effect>, ghost phases: seq<Phase>, e: Effect)
    returns (journal': seq<Effect>, ghost phases': seq<Phase>)
    requires Keeps(x, journal, phases) && !Next(x.deal, Last(phases), e).Bad? && Answered(x, e)
    ensures Keeps(x, journal', phases') && journal' == journal + [e]
    ensures Last(phases') == Next(x.deal, Last(phases), e)
  {
    Extend(x.deal, journal, phases, e);
    journal', phases' := journal + [e], phases + [Next(x.deal, Last(phases), e)];
  }

  // ---- when an execution sends its orders ----

  predicate Clears(x: Context) {
    && x.clean && x.ports.hasBuyAdapter && x.ports.hasSellAdapter && x.ports.liveConfirmation && x.named
    && x.ports.buyConnected && x.ports.sellConnected
  }

  predicate Priced(ports: Ports, assets: Result<Assets>) {
    && Usable(ports.lastLook) && assets.Ok? && ports.takerFee.Some? && ports.takerFee.value >= 0.0
    && assets.value.asset != "QUOTE" && assets.value.quoteAsset != "QUOTE"
  }

  /** Every check, answer and condition on the way to the exchanges is favourable. */
  predicate Sends(x: Context, assets: Result<Assets>) {
    && Clears(x) && x.ports.authority.Some? && WithinDepth(x.deal, x.ports.authority.value)
    && Priced(x.ports, assets) && x.ports.reservation.Some? && x.ports.bindSucceeds
  }

  /** What must hold of the opportunity, the services and the named assets for orders to leave, one by one. */
  lemma SendsExactly(o: Opportunity, ports: Ports, authorityId: string, assets: Result<Assets>)
    ensures Sends(ContextOf(o, ports, authorityId), assets) <==>
            && o.decision == Execute && o.quotesAreFresh && o.enoughLiquidity
            && o.executableQty.Some? && o.executableQty.value > 0.0
            && o.buyPrice.Some? && o.sellPrice.Some? && o.sellPrice.value > o.buyPrice.value > 0.0
            && o.netProfit.Some? && o.netProfit.value > 0.0 && o.netProfitPercent.Some?
            && o.netProfitPercent.value > 0.0
            && NormExchange(o.buyExchange) != "" && NormExchange(o.sellExchange) != ""
            && NormExchange(o.buyExchange) != NormExchange(o.sellExchange)
            && ports.hasBuyAdapter && ports.hasSellAdapter && ports.liveConfirmation && Trim(authorityId) != ""
            && ports.buyConnected && ports.sellConnected
            && ports.authority.Some? && ports.authority.value.exactQuantity.Some?
            && 0.0 < ports.authority.value.exactQuantity.value <= o.availableExecutableQty + 0.000000000001
            && ports.lastLook.approved && ports.lastLook.timeInForceSelected
            && ports.lastLook.buyLimit.Some? && ports.lastLook.sellLimit.Some?
            && assets.Ok? && assets.value.asset != "QUOTE" && assets.value.quoteAsset != "QUOTE"
            && ports.takerFee.Some? && ports.takerFee.value >= 0.0
            && ports.reservation.Some? && ports.bindSucceeds
  {
  }

  /** Each journaled check carries the answer of its own service. */
  lemma ChecksAnswer(x: Context, check: Check, ok: bool)
    requires Answered(x, Checked(check, ok))
    ensures check == OpportunityClean ==> ok == x.clean
    ensures check == BuyAdapter ==> ok == x.ports.hasBuyAdapter
    ensures check == SellAdapter ==> ok == x.ports.hasSellAdapter
    ensures check == LiveConfirmation ==> ok == x.ports.liveConfirmation
    ensures check == AuthorityNamed ==> ok == x.named
    ensures check == BuyConnected ==> ok == x.ports.buyConnected
    ensures check == SellConnected ==> ok == x.ports.sellConnected
  {
  }

  /** So does every later entry that has one. */
  lemma EntriesAnswer(x: Context, e: Effect)
    requires Answered(x, e)
    ensures e.Bound? ==> e.ok == x.ports.bindSucceeds
    ensures e.Staged? ==> e.ok == x.ports.stageSucceeds
    ensures e.Finalized? ==> e.ok == x.ports.finalizeSucceeds
  {
  }

  /** What the phases carry along is what the ports answered. */
  lemma {:induction false} PhaseAnswered(x: Context, journal: seq<Effect>, phases: seq<Phase>, n: nat)
    requires Keeps(x, journal, phases) && n <= |journal|
    ensures var ph := phases[n]; ph.Approving? || ph.Costing? || ph.Holding? || ph.Ready? || ph.Sent? ==>
              ph.report == x.ports.lastLook
    ensures phases[n].Sent? ==> phases[n].outcome == x.ports.outcome
  {
    if n > 0 {
      PhaseAnswered(x, journal, phases, n - 1);
      assert Follows(x.deal, journal, phases, n - 1) && Answered(x, journal[n - 1]);
    }
  }

  /** The orders of an execution: the opportunity's market and venues, the authorized quantity, the approved limits. */
  lemma OrdersAre(o: Opportunity, ports: Ports, authorityId: string, journal: seq<Effect>, phases: seq<Phase>, n: nat)
    requires Keeps(ContextOf(o, ports, authorityId), journal, phases) && n < |journal| && journal[n].Dispatched?
    ensures ports.authority.Some? && ports.authority.value.exactQuantity.Some?
    ensures ports.lastLook.buyLimit.Some? && ports.lastLook.sellLimit.Some? && ports.takerFee.Some?
    ensures var q, look := ports.authority.value.exactQuantity.value, ports.lastLook;
            && journal[n].buy == Order(NormExchange(o.buyExchange), o.market, Buy, q, look.buyLimit.value)
            && journal[n].sell == Order(NormExchange(o.sellExchange), o.market, Sell, q, look.sellLimit.value)
            && journal[n].outcome == ports.outcome
            && Reserved(ports.authority.value.capitalPerLegInr, NormExchange(o.buyExchange),
                        HoldTerms(q, look.buyLimit.value, ports.takerFee.value), NormExchange(o.sellExchange), q,
                        ports.reservation) in journal[..n]
  {
    var x := ContextOf(o, ports, authorityId);
    var c, l, f, r, b := DispatchIsLicensed(x.deal, journal, phases, n);
    assert Answered(x, journal[c]) && Answered(x, journal[l]) && Answered(x, journal[f]) && Answered(x, journal[r]);
    assert Answered(x, journal[n]);
    assert journal[r] in journal[..n];
  }

  /** The recovery order staged after a bought and b sold: the excess, back on the venue that has it. */
  lemma RecoveryOrderIs(x: Context, journal: seq<Effect>, phases: seq<Phase>, n: nat, a: real, b: real)
    requires Keeps(x, journal, phases) && n < |journal| && journal[n].Staged? && x.ports.outcome.Returned?
    requires ReportsFill(x.ports.outcome.legs.buy, a) && ReportsFill(x.ports.outcome.legs.sell, b)
    ensures var e, look := journal[n], x.ports.lastLook;
            if a > b then e.venue == look.buyExchange && e.side == Sell && e.quantity == a - b
                          && Some(e.price) == look.sellLimit
            else b > a && e.venue == look.sellExchange && e.side == Buy && e.quantity == b - a
                 && Some(e.price) == look.buyLimit
  {
    assert Follows(x.deal, journal, phases, n);
    PhaseAnswered(x, journal, phases, n);
    StagedOrderIs(x.deal, journal, phases, n, a, b);
  }

  /** Unequal fills, and a price for the order that would even them out. */
  predicate Stageable(o: Outcome, report: LastLook) {
    var price := if BuyFill(o) > SellFill(o) then report.sellLimit else report.buyLimit;
    Residual(o) && price.Some? && price.value > 0.0
  }

  class ArbitrageExecutionCoordinator {
    const ports: Ports

    constructor (ports: Ports)
      ensures this.ports == ports
    {
      this.ports := ports;
    }

    /** Journals one check. */
    method RunCheck(x: Context, journal: seq<Effect>, ghost phases: seq<Phase>, which: Check, ok: bool)
      returns (journal': seq<Effect>, ghost phases': seq<Phase>)
      requires Keeps(x, journal, phases) && Last(phases).Checking? && ok == CheckAnswer(x, which)
      requires which in EARLY_CHECKS || EARLY_CHECKS <= Last(phases).passed
      ensures Keeps(x, journal', phases')
      ensures var ph := Last(phases);
              Last(phases') == Checking(if ok then ph.passed + {which} else ph.passed, ph.failed || !ok)
    {
      journal', phases' := Emit(x, journal, phases, Checked(which, ok));
    }

    /** The checks before any authority is touched; adapter status is read only if the first ones passed. */
    method Preflight(x: Context, clean: bool) returns (clear: bool, journal: seq<Effect>, ghost phases: seq<Phase>)
      requires x.ports == ports && x.clean == clean
      ensures Keeps(x, journal, phases)
      ensures clear ==> Last(phases) == Checking(ALL_CHECKS, false)
      ensures !clear ==> Last(phases).Checking? && Last(phases).failed
      ensures clear <==> Clears(x)
    {
      journal, phases := [], [Checking({}, false)];
      journal, phases := RunCheck(x, journal, phases, OpportunityClean, clean);
      journal, phases := RunCheck(x, journal, phases, BuyAdapter, ports.hasBuyAdapter);
      journal, phases := RunCheck(x, journal, phases, SellAdapter, ports.hasSellAdapter);
      journal, phases := RunCheck(x, journal, phases, LiveConfirmation, ports.liveConfirmation);
      journal, phases := RunCheck(x, journal, phases, AuthorityNamed, x.named);
      if !clean || !ports.hasBuyAdapter || !ports.hasSellAdapter || !ports.liveConfirmation || !x.named {
        return false, journal, phases;
      }
      journal, phases := RunCheck(x, journal, phases, BuyConnected, ports.buyConnected);
      journal, phases := RunCheck(x, journal, phases, SellConnected, ports.sellConnected);
      clear := ports.buyConnected && ports.sellConnected;
    }

    /** Observers may fail; their failure is itself observed and changes nothing. */
    method Observe(x: Context, journal: seq<Effect>, ghost phases: seq<Phase>, ok: bool)
      returns (journal': seq<Effect>, ghost phases': seq<Phase>)
      requires Keeps(x, journal, phases)
      requires Last(phases).Approving? || (Last(phases).Sent? && !Last(phases).staged)
      ensures Keeps(x, journal', phases') && Last(phases') == Last(phases)
    {
      journal', phases' := Emit(x, journal, phases, Observed(ok));
      if !ok {
        journal', phases' := Emit(x, journal', phases', Observed(true));
      }
    }

    /** A blocked result after the authority was spent still finalizes it, once. */
    method BlockAndFinalize(x: Context, journal: seq<Effect>, ghost phases: seq<Phase>, requested: Option<real>)
      returns (result: ExecutionResult, journal': seq<Effect>, ghost phases': seq<Phase>)
      requires Keeps(x, journal, phases) && x.ports == ports
      requires var ph := Last(phases);
               ph.Approving? || ph.Costing? || ph.Stopping? || (ph.Authorized? && !WithinDepth(x.deal, ph.authority))
      ensures Keeps(x, journal', phases') && Last(phases').BlockedDone? && result == BlockedResult(requested)
    {
      result := BlockedResult(requested);
      journal', phases' := Emit(x, journal, phases, Finalized(Blocked, ports.finalizeSucceeds));
    }

    /**
      Orders are sent exactly when every check and every port is favourable, and then once. Every path
      keeps to the protocol, journals only what the ports answered, and ends it: the authority is
      finalized once if it was consumed, and a sent pair's holds stay open exactly when the reported
      status says so.
     */
    method Execute(o: Opportunity, actionAuthorityId: string)
      returns (result: ExecutionResult, journal: seq<Effect>, ghost phases: seq<Phase>)
      ensures Keeps(ContextOf(o, ports, actionAuthorityId), journal, phases) && Finished(Last(phases))
      ensures result.status.Blocked?
              <==> !Sends(ContextOf(o, ports, actionAuthorityId), ResolveAssets(o.market, o.quoteAsset))
      ensures result.status.Blocked? ==>
                result == ExecutionResult(Blocked, false, result.requestedQuantity, 0.0, 0.0, 0.0, false, false, false)
      ensures Count(journal).consumed == 1 ==> ports.authority.Some?
      ensures result.requestedQuantity
              == if Count(journal).consumed == 1 then ports.authority.value.exactQuantity else o.executableQty
      ensures Count(journal).dispatched == if result.status.Blocked? then 0 else 1
      ensures Count(journal).finalized == Count(journal).consumed <= 1
      ensures !result.status.Blocked? ==> Reports(result, ports.outcome)
      ensures !result.status.Blocked? ==>
                (Count(journal).committed + Count(journal).released == 0
                 <==> result.status in {PossibleExposure, RecoveryRequired})
      ensures !result.status.Blocked? && ports.outcome.Returned? ==>
                forall a, b :: ReportsFill(ports.outcome.legs.buy, a) && ReportsFill(ports.outcome.legs.sell, b) ==>
                  && SettledAs(result, journal, ports.outcome.legs, a, b)
                  && (result.recoveryIntentStaged <==> StagePriced(ports.lastLook, a, b) && ports.stageSucceeds)
      ensures result.status.Blocked? ==> Count(journal).committed == 0 && Count(journal).released == Count(journal).held
      ensures result.recoveryIntentStaged
              <==> !result.status.Blocked? && Stageable(ports.outcome, ports.lastLook) && ports.stageSucceeds
      ensures result.recoveryIntentStaged ==> Count(journal).staged == 1
      ensures !result.status.Blocked? && ports.outcome.Threw? ==>
                && result.status == (if ports.outcome.nullValue then Failed else PossibleExposure)
                && Count(journal).committed == 0 && Count(journal).released == One(ports.outcome.nullValue)
    {
      var x := ContextOf(o, ports, actionAuthorityId);
      var complaints := ValidateOpportunity(o);
      var assets := ResolveAssets(o.market, o.quoteAsset);
      result, journal, phases := Attempt(x, complaints == [], o.executableQty, assets);
      OutcomeDecidesCapital(x.deal, journal, phases);
      if Last(phases).SentDone? && ports.outcome.Threw? {
        RejectedDispatchSettles(x.deal, journal, phases);
      }
      if Last(phases).SentDone? && ports.outcome.Returned? {
        forall a, b | ReportsFill(ports.outcome.legs.buy, a) && ReportsFill(ports.outcome.legs.sell, b)
          ensures SettledAs(result, journal, ports.outcome.legs, a, b)
          ensures Stageable(ports.outcome, ports.lastLook) <==> StagePriced(ports.lastLook, a, b)
        {
          ReportedFillsSettle(x, result, journal, phases, a, b);
        }
      }
    }

    /** One attempt, up to its result. */
    method Attempt(x: Context, clean: bool, requested: Option<real>, assets: Result<Assets>)
      returns (result: ExecutionResult, journal: seq<Effect>, ghost phases: seq<Phase>)
      requires x.ports == ports && x.clean == clean
      ensures Keeps(x, journal, phases) && Finished(Last(phases))
      ensures result.status.Blocked? <==> !Last(phases).SentDone?
      ensures result.status.Blocked? ==> result == BlockedResult(result.requestedQuantity)
      ensures var used := Last(phases).BlockedDone? || Last(phases).SentDone?;
              (used ==> ports.authority.Some?)
              && result.requestedQuantity == if used then ports.authority.value.exactQuantity else requested
      ensures result.status.Blocked? <==> !Sends(x, assets)
      ensures Last(phases).SentDone? ==> Last(phases).outcome == ports.outcome && Reports(result, ports.outcome)
      ensures result.recoveryIntentStaged ==> Last(phases).SentDone? && Last(phases).staged
      ensures result.recoveryIntentStaged
              <==> Last(phases).SentDone? && Stageable(ports.outcome, ports.lastLook) && ports.stageSucceeds
    {
      var clear;
      clear, journal, phases := Preflight(x, clean);
      if !clear {
        return BlockedResult(requested), journal, phases;
      }
      journal, phases := Emit(x, journal, phases, Consumed(ports.authority));
      if ports.authority.None? {
        return BlockedResult(requested), journal, phases;
      }
      result, journal, phases := UseAuthority(x, ports.authority.value, assets, journal, phases);
    }

    /** From the consumed authority on: depth, last look, assets and fee. */
    method UseAuthority(x: Context, authority: Authority, assets: Result<Assets>, before: seq<Effect>,
                        ghost phasesBefore: seq<Phase>)
      returns (result: ExecutionResult, journal: seq<Effect>, ghost phases: seq<Phase>)
      requires x.ports == ports && Keeps(x, before, phasesBefore) && Last(phasesBefore) == Authorized(authority)
      ensures Keeps(x, journal, phases) && (Last(phases).BlockedDone? || Last(phases).SentDone?)
      ensures result.status.Blocked? <==> !Last(phases).SentDone?
      ensures result.status.Blocked? ==> result == BlockedResult(result.requestedQuantity)
      ensures result.requestedQuantity == authority.exactQuantity
      ensures Last(phases).SentDone? <==>
                WithinDepth(x.deal, authority) && Priced(ports, assets) && ports.reservation.Some? && ports.bindSucceeds
      ensures Last(phases).SentDone? ==> Last(phases).outcome == ports.outcome && Reports(result, ports.outcome)
      ensures result.recoveryIntentStaged ==> Last(phases).SentDone? && Last(phases).staged
      ensures result.recoveryIntentStaged
              <==> Last(phases).SentDone? && Stageable(ports.outcome, ports.lastLook) && ports.stageSucceeds
    {
      journal, phases := before, phasesBefore;
      if authority.exactQuantity.None? || authority.exactQuantity.value <= 0.0
         || authority.exactQuantity.value > x.deal.availableQuantity + 0.000000000001 {
        result, journal, phases := BlockAndFinalize(x, journal, phases, authority.exactQuantity);
        return;
      }
      var quantity := authority.exactQuantity.value;
      var lastLook := ports.lastLook;
      journal, phases := Emit(x, journal, phases, Looked(quantity, lastLook));
      journal, phases := Observe(x, journal, phases, ports.lastLookObserved);
      if !lastLook.approved || !lastLook.timeInForceSelected || lastLook.buyLimit.None? || lastLook.sellLimit.None?
         || assets.Err? {
        result, journal, phases := BlockAndFinalize(x, journal, phases, authority.exactQuantity);
        return;
      }
      journal, phases := Emit(x, journal, phases, FeeRead(ports.takerFee));
      if ports.takerFee.None? || ports.takerFee.value < 0.0 || assets.value.asset == "QUOTE"
         || assets.value.quoteAsset == "QUOTE" {
        result, journal, phases := BlockAndFinalize(x, journal, phases, authority.exactQuantity);
        return;
      }
      result, journal, phases :=
        ReserveAndSend(x, authority.capitalPerLegInr, quantity, lastLook, ports.takerFee.value, journal, phases);
    }

    method ReserveAndSend(x: Context, capital: real, quantity: real, lastLook: LastLook, fee: real,
                          before: seq<Effect>, ghost phasesBefore: seq<Phase>)
      returns (result: ExecutionResult, journal: seq<Effect>, ghost phases: seq<Phase>)
      requires x.ports == ports && Keeps(x, before, phasesBefore) && Usable(lastLook) && fee >= 0.0
               && lastLook == ports.lastLook
      requires Last(phasesBefore) == Costing(quantity, lastLook, capital, Some(fee))
      ensures Keeps(x, journal, phases) && (Last(phases).BlockedDone? || Last(phases).SentDone?)
      ensures result.status.Blocked? <==> !Last(phases).SentDone?
      ensures result.status.Blocked? ==> result == BlockedResult(result.requestedQuantity)
      ensures result.requestedQuantity == Some(quantity)
      ensures Last(phases).SentDone? <==> ports.reservation.Some? && ports.bindSucceeds
      ensures Last(phases).SentDone? ==> Last(phases).outcome == ports.outcome && Reports(result, ports.outcome)
      ensures result.recoveryIntentStaged ==> Last(phases).SentDone? && Last(phases).staged
      ensures result.recoveryIntentStaged
              <==> Last(phases).SentDone? && Stageable(ports.outcome, ports.lastLook) && ports.stageSucceeds
    {
      var d := x.deal;
      var buyLimit, sellLimit := lastLook.buyLimit.value, lastLook.sellLimit.value;
      journal, phases := Emit(x, before, phasesBefore,
        Reserved(capital, d.buyExchange, HoldTerms(quantity, buyLimit, fee), d.sellExchange, quantity,
                 ports.reservation));
      if ports.reservation.None? {
        result, journal, phases := BlockAndFinalize(x, journal, phases, Some(quantity));
        return;
      }
      var reservation := ports.reservation.value;
      journal, phases := Emit(x, journal, phases, Bound(ports.bindSucceeds));
      if !ports.bindSucceeds {
        journal, phases := Emit(x, journal, phases, Released(reservation));
        result, journal, phases := BlockAndFinalize(x, journal, phases, Some(quantity));
        return;
      }
      var buyRequest := Order(d.buyExchange, d.market, Buy, quantity, buyLimit);
      var sellRequest := Order(d.sellExchange, d.market, Sell, quantity, sellLimit);
      var outcome := ports.outcome;
      journal, phases := Emit(x, journal, phases, Dispatched(buyRequest, sellRequest, outcome));
      if outcome.Returned? && outcome.legs.buyDispatchedAt.Some? && outcome.legs.sellDispatchedAt.Some? {
        journal, phases := Observe(x, journal, phases, ports.dispatchObserved);
      }
      result, journal, phases := Settle(x, quantity, lastLook, outcome, reservation, journal, phases);
    }

    /** From the outcome to the result, the recovery intent, the holds, the P&L and the authority. */
    method Settle(x: Context, quantity: real, lastLook: LastLook, outcome: Outcome, reservation: string,
                  before: seq<Effect>, ghost phasesBefore: seq<Phase>)
      returns (result: ExecutionResult, journal: seq<Effect>, ghost phases: seq<Phase>)
      requires x.ports == ports && Keeps(x, before, phasesBefore)
               && Last(phasesBefore) == Sent(lastLook, outcome, reservation, false)
      ensures Keeps(x, journal, phases) && Last(phases).SentDone? && Last(phases).outcome == outcome
      ensures result.requestedQuantity == Some(quantity)
      ensures Reports(result, outcome) && (result.recoveryIntentStaged ==> Last(phases).staged)
      ensures result.recoveryIntentStaged <==> Stageable(outcome, lastLook) && ports.stageSucceeds
    {
      journal, phases := before, phasesBefore;
      var buy := if outcome.Returned? then outcome.legs.buy else None;
      var sell := if outcome.Returned? then outcome.legs.sell else None;
      var buyFilled, sellFilled := Fill(buy), Fill(sell);
      var matched := MinReal(buyFilled, sellFilled);
      var unmatchedBuy := MaxReal(0.0, buyFilled - sellFilled);
      var unmatchedSell := MaxReal(0.0, sellFilled - buyFilled);
      var knownResidual := unmatchedBuy > 0.0 || unmatchedSell > 0.0;
      var possibleExposure := (outcome.Threw? && !outcome.nullValue)
        || (outcome.Returned? && outcome.legs.possibleExposure);
      var recoveryRequired := knownResidual || possibleExposure;
      var bothFilled := buy.Some? && buy.value.filledStatus && sell.Some? && sell.value.filledStatus
                     && outcome.legs.state.SessionCompleted? && !recoveryRequired;
      var anyFill := buyFilled > 0.0 || sellFilled > 0.0;
      var staged := false;
      if knownResidual {
        staged, journal, phases :=
          StageRecoveryIntent(x, lastLook, outcome, reservation, unmatchedBuy, unmatchedSell, journal, phases);
      }
      var status := if bothFilled then Completed
                    else if possibleExposure then PossibleExposure
                    else if knownResidual then RecoveryRequired
                    else if anyFill then PartiallyCompleted
                    else Failed;
      result := ExecutionResult(status, bothFilled, Some(quantity), matched, unmatchedBuy, unmatchedSell,
                                recoveryRequired, possibleExposure, staged);
      journal, phases := CloseOut(x, recoveryRequired, anyFill, status, outcome, reservation, journal, phases);
    }

    /** Commit, release or keep the holds. */
    method SettleHolds(x: Context, recoveryRequired: bool, anyFill: bool, ghost outcome: Outcome, reservation: string,
                       before: seq<Effect>, ghost phasesBefore: seq<Phase>)
      returns (journal: seq<Effect>, ghost phases: seq<Phase>)
      requires Keeps(x, before, phasesBefore) && Last(phasesBefore).Sent?
      requires Last(phasesBefore).outcome == outcome && Last(phasesBefore).reservation == reservation
      requires recoveryRequired == Held(outcome) && anyFill == AnyFill(outcome)
      ensures Keeps(x, journal, phases)
      ensures Last(phases) == if Held(outcome) then Last(phasesBefore) else Settled(outcome, Last(phasesBefore).staged)
    {
      journal, phases := before, phasesBefore;
      if !recoveryRequired {
        if anyFill {
          journal, phases := Emit(x, journal, phases, Committed(reservation));
        } else {
          journal, phases := Emit(x, journal, phases, Released(reservation));
        }
      }
    }

    /** Settle the holds; then record the P&L and finalize the authority. */
    method CloseOut(x: Context, recoveryRequired: bool, anyFill: bool, status: Status, ghost outcome: Outcome,
                    reservation: string,
                    before: seq<Effect>, ghost phasesBefore: seq<Phase>)
      returns (journal: seq<Effect>, ghost phases: seq<Phase>)
      requires x.ports == ports && Keeps(x, before, phasesBefore) && Last(phasesBefore).Sent?
      requires Last(phasesBefore).outcome == outcome && Last(phasesBefore).reservation == reservation
      requires recoveryRequired == Held(outcome) && anyFill == AnyFill(outcome) && status == StatusOf(outcome)
      ensures Keeps(x, journal, phases) && Last(phases) == SentDone(outcome, Last(phasesBefore).staged)
    {
      journal, phases := SettleHolds(x, recoveryRequired, anyFill, outcome, reservation, before, phasesBefore);
      journal, phases := Emit(x, journal, phases, PnLRecorded(status));
      journal, phases := Emit(x, journal, phases, Finalized(status, ports.finalizeSucceeds));
    }

    /** Staging may fail closed, before or in the port; either way the execution goes on. */
    method StageRecoveryIntent(x: Context, lastLook: LastLook, outcome: Outcome, reservation: string,
                               unmatchedBuy: real, unmatchedSell: real,
                               before: seq<Effect>, ghost phasesBefore: seq<Phase>)
      returns (staged: bool, journal: seq<Effect>, ghost phases: seq<Phase>)
      requires x.ports == ports && Keeps(x, before, phasesBefore)
               && Last(phasesBefore) == Sent(lastLook, outcome, reservation, false)
      requires unmatchedBuy == MaxReal(0.0, BuyFill(outcome) - SellFill(outcome))
      requires unmatchedSell == MaxReal(0.0, SellFill(outcome) - BuyFill(outcome))
      ensures Keeps(x, journal, phases)
      ensures Last(phases).Sent? && Last(phases) == Sent(lastLook, outcome, reservation, Last(phases).staged)
      ensures staged ==> Last(phases).staged
      ensures staged <==> Stageable(outcome, lastLook) && ports.stageSucceeds
    {
      journal, phases := before, phasesBefore;
      var longResidual := unmatchedBuy > 0.0;
      var quantity := if longResidual then unmatchedBuy else unmatchedSell;
      var venue := if longResidual then lastLook.buyExchange else lastLook.sellExchange;
      var side := if longResidual then Sell else Buy;
      var referencePrice := if longResidual then lastLook.sellLimit else lastLook.buyLimit;
      if quantity <= 0.0 || referencePrice.None? || referencePrice.value <= 0.0 {
        return false, journal, phases;
      }
      journal, phases :=
        Emit(x, journal, phases, Staged(venue, side, quantity, referencePrice.value, ports.stageSucceeds));
      staged := ports.stageSucceeds;
    }
  }

  /** What the result says about the outcome it was made from. */
  ghost predicate Reports(result: ExecutionResult, o: Outcome) {
    && result.status == StatusOf(o) && result.success == result.status.Completed?
    && result.matched + result.unmatchedBuy == BuyFill(o)
    && result.matched + result.unmatchedSell == SellFill(o)
    && result.matched >= 0.0 && result.unmatchedBuy >= 0.0 && result.unmatchedSell >= 0.0
    && (result.unmatchedBuy == 0.0 || result.unmatchedSell == 0.0)
    && result.recoveryRequired == Held(o) && result.possibleExposure == Uncertain(o)
  }

  /** How an execution ends whose legs report a bought and b sold, whatever the legs' own statuses. */
  ghost predicate SettledAs(result: ExecutionResult, journal: seq<Effect>, legs: TwoLeg, a: real, b: real) {
    && result.matched + result.unmatchedBuy == a && result.matched + result.unmatchedSell == b
    && result.matched == MinReal(a, b) && result.recoveryRequired == (a != b || legs.possibleExposure)
    && ((exists i :: 0 <= i < |journal| && journal[i].Committed?) <==> a == b && a > 0.0 && !legs.possibleExposure)
    && ((exists i :: 0 <= i < |journal| && journal[i].Released?) <==> a == b && a == 0.0 && !legs.possibleExposure)
    && result.status == (if legs.possibleExposure then PossibleExposure
                         else if a != b then RecoveryRequired
                         else if legs.state.SessionCompleted? && legs.buy.Some? && legs.buy.value.filledStatus
                              && legs.sell.Some? && legs.sell.value.filledStatus then Completed
                         else if a > 0.0 then PartiallyCompleted
                         else Failed)
  }

  /** With a bought and b sold: they differ, and the limit on the other side is a price. */
  predicate StagePriced(look: LastLook, a: real, b: real) {
    || (a > b && look.sellLimit.Some? && look.sellLimit.value > 0.0)
    || (b > a && look.buyLimit.Some? && look.buyLimit.value > 0.0)
  }

  lemma ReportedFillsSettle(x: Context, result: ExecutionResult, journal: seq<Effect>, phases: seq<Phase>,
                            a: real, b: real)
    requires Accepted(x.deal, journal, phases) && Last(phases).SentDone? && Last(phases).outcome == x.ports.outcome
    requires x.ports.outcome.Returned? && Reports(result, x.ports.outcome)
    requires ReportsFill(x.ports.outcome.legs.buy, a) && ReportsFill(x.ports.outcome.legs.sell, b)
    ensures SettledAs(result, journal, x.ports.outcome.legs, a, b)
    ensures Stageable(x.ports.outcome, x.ports.lastLook) <==> StagePriced(x.ports.lastLook, a, b)
  {
    ReportedFillsDecide(x.deal, journal, phases, a, b);
  }

  /** A reported success is a complete, balanced execution, after which no hold stays open. */
  lemma SuccessMeansBalanced(result: ExecutionResult, o: Outcome)
    requires Reports(result, o) && result.success
    ensures result.unmatchedBuy == 0.0 && result.unmatchedSell == 0.0 && BuyFill(o) == SellFill(o) == result.matched
    ensures !Held(o) && o.Returned? && o.legs.buy.Some? && o.legs.sell.Some?
  {
  }
}
