/**
  The order-time last look: gates on the opportunity, the venue contracts, both books and the
  stressed economics of walking them, and the wallet hold later derived from its limit price.
 */
module OrderTimeSafety {
  import opened Wrappers
  import opened DepthWalk

  datatype Contract =
    Contract(identityMatches: bool, maximumBookAgeMs: Option<int>, supportsTimeInForce: bool,
             fillConfirmationReady: bool)

  datatype Book = Book(levels: seq<Level>, timestamp: int)

  /** One leg: the audited contract, the side of the book the order would consume, the taker fee. */
  datatype Leg = Leg(contract: Option<Contract>, book: Option<Book>, feePercent: Option<real>)

  datatype Policy = Policy(
    maximumOpportunityAgeMs: int, buySlippagePercent: real, sellSlippagePercent: real,
    safetyBufferPercent: real, minimumNetProfitPercent: real)

  datatype Config = Config(maximumBookTimestampSkewMs: int, maximumEvaluationDurationMs: real)

  datatype Input = Input(
    quantity: Option<real>,            // None: not a finite number
    opportunityTimestamp: Option<int>, // None: not an integer
    startedAt: int, buy: Leg, sell: Leg, evaluationDurationMs: real)

  datatype Reason =
    | QuantityInvalid | OpportunityStale
    | ContractMissing(side: Side) | ContractIdentity(side: Side) | TtlMissing(side: Side) | TtlInvalid(side: Side)
    | TimeInForceMissing(side: Side) | FillStreamMissing(side: Side)
    | BookMissing(side: Side) | BookTooOld(side: Side) | BookSkew
    | PartialDepth(side: Side) | FeesInvalid | BelowMinimum | WalkFailed | TooSlow

  datatype Economics = Economics(tradingFees: real, safetyBuffer: real, netProfit: real, netProfitPercent: Option<real>)

  datatype Report = Report(
    approved: bool, timeInForceSelected: bool, buyLimitPrice: Option<real>, sellLimitPrice: Option<real>,
    economics: Option<Economics>, reasons: seq<Reason>)

  // ---- the decision, declaratively ----

  function StressedBuy(cost: real, p: Policy): real { cost * (1.0 + p.buySlippagePercent / 100.0) }

  function StressedSell(proceeds: real, p: Policy): real { proceeds * (1.0 - p.sellSlippagePercent / 100.0) }

  function Stress(buyCost: real, sellProceeds: real, buyFee: real, sellFee: real, p: Policy): Economics {
    var buy, sell := StressedBuy(buyCost, p), StressedSell(sellProceeds, p);
    var fees := buy * (buyFee / 100.0) + sell * (sellFee / 100.0);
    var buffer := buy * (p.safetyBufferPercent / 100.0);
    var net := sell - buy - fees - buffer;
    Economics(fees, buffer, net, if buy > 0.0 then Some(net / buy * 100.0) else None)
  }

  predicate ContractOk(contract: Option<Contract>) {
    && contract.Some? && contract.value.identityMatches
    && contract.value.maximumBookAgeMs.Some? && contract.value.maximumBookAgeMs.value > 0
    && contract.value.supportsTimeInForce && contract.value.fillConfirmationReady
  }

  predicate AgeOk(startedAt: int, leg: Leg) {
    leg.book.Some? && leg.contract.Some? && leg.contract.value.maximumBookAgeMs.Some? &&
    0 <= startedAt - leg.book.value.timestamp <= leg.contract.value.maximumBookAgeMs.value
  }

  predicate DepthOk(levels: seq<Level>, quantity: real) {
    Walkable(levels, quantity) && Quantity(Walk(levels, quantity)) >= quantity - Tolerance(quantity)
  }

  predicate FeeOk(fee: Option<real>) { fee.Some? && fee.value >= 0.0 }

  function EconomicsOf(i: Input, p: Policy): Economics
    requires i.quantity.Some? && i.buy.book.Some? && i.sell.book.Some? && i.buy.feePercent.Some?
             && i.sell.feePercent.Some?
  {
    Stress(Cost(Walk(i.buy.book.value.levels, i.quantity.value)),
           Cost(Walk(i.sell.book.value.levels, i.quantity.value)),
           i.buy.feePercent.value, i.sell.feePercent.value, p)
  }

  predicate ProfitOk(e: Economics, p: Policy) {
    e.netProfitPercent.Some? && e.netProfitPercent.value >= 0.0 && e.netProfitPercent.value >= p.minimumNetProfitPercent
  }

  predicate Approvable(i: Input, p: Policy, c: Config) {
    && i.quantity.Some? && i.quantity.value > 0.0
    && i.opportunityTimestamp.Some? && 0 <= i.startedAt - i.opportunityTimestamp.value <= p.maximumOpportunityAgeMs
    && ContractOk(i.buy.contract) && ContractOk(i.sell.contract)
    && AgeOk(i.startedAt, i.buy) && AgeOk(i.startedAt, i.sell)
    && Abs(i.buy.book.value.timestamp - i.sell.book.value.timestamp) <= c.maximumBookTimestampSkewMs
    && DepthOk(i.buy.book.value.levels, i.quantity.value) && DepthOk(i.sell.book.value.levels, i.quantity.value)
    && WorstConsumed(i.buy.book.value.levels, i.quantity.value).Some?
    && WorstConsumed(i.sell.book.value.levels, i.quantity.value).Some?
    && FeeOk(i.buy.feePercent) && FeeOk(i.sell.feePercent)
    && ProfitOk(EconomicsOf(i, p), p)
    && MaxReal(0.0, i.evaluationDurationMs) <= c.maximumEvaluationDurationMs
  }

  // ---- the evaluation, step by step ----

  method ValidateVenueContract(side: Side, contract: Option<Contract>) returns (reasons: seq<Reason>)
    ensures reasons == [] <==> ContractOk(contract)
    ensures forall r :: r in reasons <==>
              if contract.None? then r == ContractMissing(side)
              else
                || (r == ContractIdentity(side) && !contract.value.identityMatches)
                || (r == TtlMissing(side) && contract.value.maximumBookAgeMs.None?)
                || (r == TtlInvalid(side) && contract.value.maximumBookAgeMs.Some?
                    && contract.value.maximumBookAgeMs.value <= 0)
                || (r == TimeInForceMissing(side) && !contract.value.supportsTimeInForce)
                || (r == FillStreamMissing(side) && !contract.value.fillConfirmationReady)
  {
    if contract.None? {
      return [ContractMissing(side)];
    }
    reasons := [];
    if !contract.value.identityMatches {
      reasons := reasons + [ContractIdentity(side)];
    }
    if contract.value.maximumBookAgeMs.None? {
      reasons := reasons + [TtlMissing(side)];
    } else if contract.value.maximumBookAgeMs.value <= 0 {
      reasons := reasons + [TtlInvalid(side)];
    }
    if !contract.value.supportsTimeInForce {
      reasons := reasons + [TimeInForceMissing(side)];
    }
    if !contract.value.fillConfirmationReady {
      reasons := reasons + [FillStreamMissing(side)];
    }
  }

  /** Silent when the contract has no age limit: its absence is already a reason of its own. */
  method ValidateBookAge(side: Side, startedAt: int, leg: Leg) returns (reasons: seq<Reason>)
    ensures ContractOk(leg.contract) ==> (reasons == [] <==> AgeOk(startedAt, leg))
    ensures AgeOk(startedAt, leg) ==> reasons == []
    ensures forall r :: r in reasons <==>
              && r == BookTooOld(side) && leg.contract.Some? && leg.contract.value.maximumBookAgeMs.Some?
              && (leg.book.None? || leg.book.value.timestamp > startedAt
                  || startedAt - leg.book.value.timestamp > leg.contract.value.maximumBookAgeMs.value)
  {
    if leg.contract.None? || leg.contract.value.maximumBookAgeMs.None? {
      return [];
    }
    var maximumAgeMs := leg.contract.value.maximumBookAgeMs.value;
    var ageMs := if leg.book.Some? then Some(startedAt - leg.book.value.timestamp) else None;
    if ageMs.None? || ageMs.value < 0 || ageMs.value > maximumAgeMs {
      return [BookTooOld(side)];
    }
    return [];
  }

  /** Both walks, the limits, the depth check and the stressed economics. */
  method WalkBooks(i: Input, p: Policy)
    returns (buyLimit: Option<real>, sellLimit: Option<real>, economics: Option<Economics>, reasons: seq<Reason>)
    requires i.quantity.Some? && i.quantity.value > 0.0 && i.buy.book.Some? && i.sell.book.Some?
    ensures var q, asks, bids := i.quantity.value, i.buy.book.value.levels, i.sell.book.value.levels;
            && (reasons == [] <==>
                  && DepthOk(asks, q) && DepthOk(bids, q) && FeeOk(i.buy.feePercent) && FeeOk(i.sell.feePercent)
                  && ProfitOk(EconomicsOf(i, p), p))
            && (buyLimit == if Walkable(asks, q) && Walkable(bids, q) then WorstConsumed(asks, q) else None)
            && (sellLimit == if Walkable(asks, q) && Walkable(bids, q) then WorstConsumed(bids, q) else None)
            && (reasons == [] ==> economics == Some(EconomicsOf(i, p)))
    ensures forall r :: r in reasons ==> AboutWalks(r)
    ensures var q, asks, bids := i.quantity.value, i.buy.book.value.levels, i.sell.book.value.levels;
            forall r :: r in reasons <==>
              if !Walkable(asks, q) || !Walkable(bids, q) then r == WalkFailed
              else
                || (r == PartialDepth(Asks) && !Covers(Quantity(Walk(asks, q)), q))
                || (r == PartialDepth(Bids) && !Covers(Quantity(Walk(bids, q)), q))
                || (r == FeesInvalid && (!FeeOk(i.buy.feePercent) || !FeeOk(i.sell.feePercent)))
                || (r == BelowMinimum && FeeOk(i.buy.feePercent) && FeeOk(i.sell.feePercent)
                    && !ProfitOk(EconomicsOf(i, p), p))
  {
    var quantity, asks, bids := i.quantity.value, i.buy.book.value.levels, i.sell.book.value.levels;
    ToleranceIs(quantity);
    buyLimit, sellLimit, economics, reasons := None, None, None, [];
    var buyWalk := CalculateVwap(asks, quantity);
    if buyWalk.Err? {
      return None, None, None, [WalkFailed];
    }
    var sellWalk := CalculateVwap(bids, quantity);
    if sellWalk.Err? {
      return None, None, None, [WalkFailed];
    }
    var buyWorst := ResolveWorstConsumedPrice(asks, quantity);
    var sellWorst := ResolveWorstConsumedPrice(bids, quantity);
    buyLimit, sellLimit := buyWorst.value, sellWorst.value;
    var tolerance := Tolerance(quantity);
    if buyWalk.value.filledQuantity < quantity - tolerance {
      reasons := reasons + [PartialDepth(Asks)];
    }
    if sellWalk.value.filledQuantity < quantity - tolerance {
      reasons := reasons + [PartialDepth(Bids)];
    }
    if !FeeOk(i.buy.feePercent) || !FeeOk(i.sell.feePercent) {
      reasons := reasons + [FeesInvalid];
    } else {
      var e := Stress(buyWalk.value.totalCost, sellWalk.value.totalCost, i.buy.feePercent.value,
                      i.sell.feePercent.value, p);
      economics := Some(e);
      if !ProfitOk(e, p) {
        reasons := reasons + [BelowMinimum];
      }
    }
  }

  /** The quantity and the opportunity's age. */
  method ValidateRequest(i: Input, p: Policy) returns (reasons: seq<Reason>)
    ensures forall r :: r in reasons <==>
              || (r == QuantityInvalid && (i.quantity.None? || i.quantity.value <= 0.0))
              || (r == OpportunityStale && !Timely(i, p))
    ensures reasons == [] <==> i.quantity.Some? && i.quantity.value > 0.0 && Timely(i, p)
  {
    reasons := [];
    if i.quantity.None? || i.quantity.value <= 0.0 {
      reasons := reasons + [QuantityInvalid];
    }
    var opportunityAgeMs := if i.opportunityTimestamp.Some? then Some(i.startedAt - i.opportunityTimestamp.value)
      else None;
    if opportunityAgeMs.None? || opportunityAgeMs.value < 0 || opportunityAgeMs.value > p.maximumOpportunityAgeMs {
      reasons := reasons + [OpportunityStale];
    }
  }

  predicate Timely(i: Input, p: Policy) {
    && i.opportunityTimestamp.Some? && i.opportunityTimestamp.value <= i.startedAt
    && i.startedAt <= i.opportunityTimestamp.value + p.maximumOpportunityAgeMs
  }

  predicate Skewed(i: Input, c: Config) {
    && i.buy.book.Some? && i.sell.book.Some?
    && (i.buy.book.value.timestamp - i.sell.book.value.timestamp > c.maximumBookTimestampSkewMs
        || i.sell.book.value.timestamp - i.buy.book.value.timestamp > c.maximumBookTimestampSkewMs)
  }

  /** Both contracts, then both books: there, young enough, and not apart in time. */
  method ValidateVenues(i: Input, c: Config) returns (reasons: seq<Reason>)
    ensures BookMissing(Asks) in reasons <==> i.buy.book.None?
    ensures BookMissing(Bids) in reasons <==> i.sell.book.None?
    ensures BookSkew in reasons <==> Skewed(i, c)
    ensures forall r :: r in reasons ==> AboutVenues(r)
    ensures reasons == [] <==>
              && ContractOk(i.buy.contract) && ContractOk(i.sell.contract)
              && AgeOk(i.startedAt, i.buy) && AgeOk(i.startedAt, i.sell) && !Skewed(i, c)
  {
    var buyContract := ValidateVenueContract(Asks, i.buy.contract);
    var sellContract := ValidateVenueContract(Bids, i.sell.contract);
    reasons := buyContract + sellContract;
    var books := ValidateBooks(i, c);
    reasons := reasons + books;
  }

  method ValidateBooks(i: Input, c: Config) returns (reasons: seq<Reason>)
    ensures BookMissing(Asks) in reasons <==> i.buy.book.None?
    ensures BookMissing(Bids) in reasons <==> i.sell.book.None?
    ensures BookSkew in reasons <==> Skewed(i, c)
    ensures forall r :: r in reasons ==> r.BookMissing? || r.BookTooOld? || r.BookSkew?
    ensures ContractOk(i.buy.contract) && ContractOk(i.sell.contract) ==>
              (reasons == [] <==> AgeOk(i.startedAt, i.buy) && AgeOk(i.startedAt, i.sell) && !Skewed(i, c))
  {
    reasons := [];
    if i.buy.book.None? {
      reasons := reasons + [BookMissing(Asks)];
    }
    if i.sell.book.None? {
      reasons := reasons + [BookMissing(Bids)];
    }
    var buyAge := ValidateBookAge(Asks, i.startedAt, i.buy);
    var sellAge := ValidateBookAge(Bids, i.startedAt, i.sell);
    reasons := reasons + buyAge + sellAge;
    if i.buy.book.Some? && i.sell.book.Some? &&
       Abs(i.buy.book.value.timestamp - i.sell.book.value.timestamp) > c.maximumBookTimestampSkewMs {
      reasons := reasons + [BookSkew];
    }
  }

  predicate AboutVenues(r: Reason) {
    || r.ContractMissing? || r.ContractIdentity? || r.TtlMissing? || r.TtlInvalid? || r.TimeInForceMissing?
    || r.FillStreamMissing? || r.BookMissing? || r.BookTooOld? || r.BookSkew?
  }

  predicate AboutWalks(r: Reason) { r.PartialDepth? || r.FeesInvalid? || r.BelowMinimum? || r.WalkFailed? }

  predicate Slow(i: Input, c: Config) {
    i.evaluationDurationMs > c.maximumEvaluationDurationMs || 0.0 > c.maximumEvaluationDurationMs
  }

  lemma InThree<T>(a: seq<T>, b: seq<T>, c: seq<T>)
    ensures forall r :: r in a + b + c <==> r in a || r in b || r in c
    ensures a + b + c == [] <==> a == [] && b == [] && c == []
  {
  }

  /** The request and the venues, before any walk. */
  method ValidateInputs(i: Input, p: Policy, c: Config) returns (reasons: seq<Reason>)
    ensures QuantityInvalid in reasons <==> i.quantity.None? || i.quantity.value <= 0.0
    ensures OpportunityStale in reasons <==> !Timely(i, p)
    ensures BookMissing(Asks) in reasons <==> i.buy.book.None?
    ensures BookMissing(Bids) in reasons <==> i.sell.book.None?
    ensures BookSkew in reasons <==> Skewed(i, c)
    ensures forall r :: r in reasons ==> r.QuantityInvalid? || r.OpportunityStale? || AboutVenues(r)
    ensures reasons == [] <==>
              && i.quantity.Some? && i.quantity.value > 0.0 && Timely(i, p)
              && ContractOk(i.buy.contract) && ContractOk(i.sell.contract)
              && AgeOk(i.startedAt, i.buy) && AgeOk(i.startedAt, i.sell) && !Skewed(i, c)
  {
    var request := ValidateRequest(i, p);
    var venues := ValidateVenues(i, c);
    reasons := request + venues;
  }

  /** All gates one after the other: the limits and the economics, where there are any, and every reason. */
  method CollectReasons(i: Input, p: Policy, c: Config)
    returns (buyLimit: Option<real>, sellLimit: Option<real>, economics: Option<Economics>, reasons: seq<Reason>)
    ensures QuantityInvalid in reasons <==> i.quantity.None? || i.quantity.value <= 0.0
    ensures OpportunityStale in reasons <==> !Timely(i, p)
    ensures BookMissing(Asks) in reasons <==> i.buy.book.None?
    ensures BookMissing(Bids) in reasons <==> i.sell.book.None?
    ensures BookSkew in reasons <==> Skewed(i, c)
    ensures TooSlow in reasons <==> Slow(i, c)
    ensures reasons == [] ==>
              && i.quantity.Some? && i.quantity.value > 0.0 && Timely(i, p) && !Slow(i, c) && !Skewed(i, c)
              && ContractOk(i.buy.contract) && ContractOk(i.sell.contract)
              && AgeOk(i.startedAt, i.buy) && AgeOk(i.startedAt, i.sell)
              && buyLimit == WorstConsumed(i.buy.book.value.levels, i.quantity.value)
              && sellLimit == WorstConsumed(i.sell.book.value.levels, i.quantity.value)
              && economics.Some? && FeeOk(i.buy.feePercent) && FeeOk(i.sell.feePercent)
              && economics == Some(EconomicsOf(i, p)) && ProfitOk(EconomicsOf(i, p), p)
              && DepthOk(i.buy.book.value.levels, i.quantity.value)
              && DepthOk(i.sell.book.value.levels, i.quantity.value)
    ensures Approvable(i, p, c) ==> reasons == []
  {
    var inputs := ValidateInputs(i, p, c);
    buyLimit, sellLimit, economics := None, None, None;
    var walks: seq<Reason> := [];
    if i.buy.book.Some? && i.sell.book.Some? && i.quantity.Some? && i.quantity.value > 0.0 {
      buyLimit, sellLimit, economics, walks := WalkBooks(i, p);
    }
    var slow := if MaxReal(0.0, i.evaluationDurationMs) > c.maximumEvaluationDurationMs then [TooSlow] else [];
    InThree(inputs, walks, slow);
    reasons := inputs + walks + slow;
  }

  /** Approval is exactly the conjunction of the gates, and the limits are the worst prices consumed. */
  method Evaluate(i: Input, p: Policy, c: Config) returns (report: Report)
    ensures report.approved <==> Approvable(i, p, c)
    ensures QuantityInvalid in report.reasons <==> i.quantity.None? || i.quantity.value <= 0.0
    ensures OpportunityStale in report.reasons <==> !Timely(i, p)
    ensures BookMissing(Asks) in report.reasons <==> i.buy.book.None?
    ensures BookMissing(Bids) in report.reasons <==> i.sell.book.None?
    ensures BookSkew in report.reasons <==> Skewed(i, c)
    ensures TooSlow in report.reasons <==> Slow(i, c)
    ensures report.approved ==>
              && report.timeInForceSelected && report.reasons == []
              && report.buyLimitPrice == WorstConsumed(i.buy.book.value.levels, i.quantity.value)
              && report.sellLimitPrice == WorstConsumed(i.sell.book.value.levels, i.quantity.value)
              && report.economics == Some(EconomicsOf(i, p))
  {
    var buyLimit, sellLimit, economics, reasons := CollectReasons(i, p, c);
    var timeInForceSelected := i.buy.contract.Some? && i.buy.contract.value.supportsTimeInForce
                            && i.sell.contract.Some? && i.sell.contract.value.supportsTimeInForce;
    var approved := reasons == [] && timeInForceSelected && buyLimit.Some? && sellLimit.Some?
                 && economics.Some? && economics.value.netProfitPercent.Some?;
    report := Report(approved, timeInForceSelected, buyLimit, sellLimit, economics, reasons);
  }

  // ---- the profit floor ----

  predicate SanePolicy(p: Policy) {
    p.buySlippagePercent >= 0.0 && 0.0 <= p.sellSlippagePercent <= 100.0 && p.safetyBufferPercent >= 0.0
  }

  /** Profit of one realised buy and sell after both taker fees. */
  function RealisedNet(cost: real, proceeds: real, buyFee: real, sellFee: real): real {
    proceeds - proceeds * (sellFee / 100.0) - cost - cost * (buyFee / 100.0)
  }

  lemma MulMono(x: real, y: real, k: real)
    requires x <= y && k >= 0.0
    ensures x * k <= y * k
  {
  }

  lemma {:induction false} CostNonNegative(fills: seq<Level>)
    requires forall i :: 0 <= i < |fills| ==> LevelOk(fills[i])
    ensures Cost(fills) >= 0.0
    decreases |fills|
  {
    if fills != [] {
      CostNonNegative(fills[..|fills| - 1]);
      MulMono(0.0, fills[|fills| - 1].quantity, fills[|fills| - 1].price);
    }
  }

  lemma {:induction false} WalkedFillsOk(levels: seq<Level>, quantity: real)
    requires Walkable(levels, quantity)
    ensures forall i :: 0 <= i < |Walk(levels, quantity)| ==> LevelOk(Walk(levels, quantity)[i])
    decreases |levels|
  {
    if levels != [] && quantity > 0.0 {
      WalkedFillsOk(levels[1..], quantity - MinReal(quantity, levels[0].quantity));
    }
  }

  /** No approval survives a sell fee of 100 percent or more. */
  lemma SellFeeBelowWhole(buyCost: real, sellProceeds: real, buyFee: real, sellFee: real, p: Policy)
    requires SanePolicy(p) && buyCost >= 0.0 && sellProceeds >= 0.0 && buyFee >= 0.0 && sellFee >= 0.0
    requires ProfitOk(Stress(buyCost, sellProceeds, buyFee, sellFee, p), p)
    ensures StressedBuy(buyCost, p) > 0.0 && sellFee / 100.0 < 1.0
  {
    var buy, sell := StressedBuy(buyCost, p), StressedSell(sellProceeds, p);
    var e := Stress(buyCost, sellProceeds, buyFee, sellFee, p);
    PercentBack(e.netProfit, buy, e.netProfitPercent.value);
    assert e.netProfit >= 0.0 by { MulMono(0.0, e.netProfitPercent.value / 100.0, buy); }
    assert sell >= 0.0 by { MulMono(0.0, 1.0 - p.sellSlippagePercent / 100.0, sellProceeds); }
    assert buy * (buyFee / 100.0) >= 0.0 by { MulMono(0.0, buyFee / 100.0, buy); }
    assert e.safetyBuffer >= 0.0 by { MulMono(0.0, p.safetyBufferPercent / 100.0, buy); }
    if sellFee / 100.0 >= 1.0 {
      MulMono(1.0, sellFee / 100.0, sell);
      assert false;
    }
  }

  lemma PercentBack(net: real, base: real, percent: real)
    requires base > 0.0 && percent == net / base * 100.0
    ensures net == percent / 100.0 * base
  {
  }

  /**
    Approval is a profit floor: whatever is realised, if the buy costs no more and the sell brings
    no less than stressed, the net after fees is at least the safety buffer plus the Tiny-LIVE
    minimum percent of the stressed cost.
   */
  lemma ApprovedMeansProfitFloor(i: Input, p: Policy, c: Config, cost: real, proceeds: real)
    requires SanePolicy(p) && Approvable(i, p, c)
    requires cost <= StressedBuy(Cost(Walk(i.buy.book.value.levels, i.quantity.value)), p)
    requires proceeds >= StressedSell(Cost(Walk(i.sell.book.value.levels, i.quantity.value)), p)
    ensures RealisedNet(cost, proceeds, i.buy.feePercent.value, i.sell.feePercent.value)
         >= EconomicsOf(i, p).safetyBuffer
          + p.minimumNetProfitPercent / 100.0 * StressedBuy(Cost(Walk(i.buy.book.value.levels, i.quantity.value)), p)
  {
    WalkedFillsOk(i.buy.book.value.levels, i.quantity.value);
    WalkedFillsOk(i.sell.book.value.levels, i.quantity.value);
    CostNonNegative(Walk(i.buy.book.value.levels, i.quantity.value));
    CostNonNegative(Walk(i.sell.book.value.levels, i.quantity.value));
    StressFloor(Cost(Walk(i.buy.book.value.levels, i.quantity.value)),
                Cost(Walk(i.sell.book.value.levels, i.quantity.value)),
                i.buy.feePercent.value, i.sell.feePercent.value, p, cost, proceeds);
  }

  lemma StressFloor(buyCost: real, sellProceeds: real, buyFee: real, sellFee: real, p: Policy, cost: real,
                    proceeds: real)
    requires SanePolicy(p) && buyCost >= 0.0 && sellProceeds >= 0.0 && buyFee >= 0.0 && sellFee >= 0.0
    requires ProfitOk(Stress(buyCost, sellProceeds, buyFee, sellFee, p), p)
    requires cost <= StressedBuy(buyCost, p) && proceeds >= StressedSell(sellProceeds, p)
    ensures var e := Stress(buyCost, sellProceeds, buyFee, sellFee, p);
            RealisedNet(cost, proceeds, buyFee, sellFee)
            >= e.safetyBuffer + p.minimumNetProfitPercent / 100.0 * StressedBuy(buyCost, p)
  {
    var buy, sell := StressedBuy(buyCost, p), StressedSell(sellProceeds, p);
    var e := Stress(buyCost, sellProceeds, buyFee, sellFee, p);
    SellFeeBelowWhole(buyCost, sellProceeds, buyFee, sellFee, p);
    MulMono(sell, proceeds, 1.0 - sellFee / 100.0);
    MulMono(cost, buy, 1.0 + buyFee / 100.0);
    PercentBack(e.netProfit, buy, e.netProfitPercent.value);
    MulMono(p.minimumNetProfitPercent / 100.0, e.netProfitPercent.value / 100.0, buy);
    NetFactors(cost, proceeds, buyFee, sellFee);
    StressNet(buyCost, sellProceeds, buyFee, sellFee, p);
    FloorFollows(proceeds * (1.0 - sellFee / 100.0), cost * (1.0 + buyFee / 100.0), sell * (1.0 - sellFee / 100.0),
                 buy * (1.0 + buyFee / 100.0), e.safetyBuffer, e.netProfit, p.minimumNetProfitPercent / 100.0 * buy);
  }

  lemma StressNet(buyCost: real, sellProceeds: real, buyFee: real, sellFee: real, p: Policy)
    ensures var e := Stress(buyCost, sellProceeds, buyFee, sellFee, p);
            e.netProfit
            == StressedSell(sellProceeds, p) * (1.0 - sellFee / 100.0)
             - StressedBuy(buyCost, p) * (1.0 + buyFee / 100.0) - e.safetyBuffer
  {
  }

  lemma FloorFollows(received: real, paid: real, leastReceived: real, mostPaid: real, buffer: real, net: real,
                     floor: real)
    requires received >= leastReceived && paid <= mostPaid && net == leastReceived - mostPaid - buffer && floor <= net
    ensures received - paid >= buffer + floor
  {
  }

  /**
    The same in the figures of the policy alone: if the buy costs at most the walked cost with the buy
    slippage on it, and the sell brings at least the walked proceeds less the sell slippage, what remains
    after both taker fees is at least the safety buffer and the minimum percentage of that cost.
   */
  lemma ApprovedNets(i: Input, p: Policy, c: Config, cost: real, proceeds: real)
    requires SanePolicy(p) && Approvable(i, p, c)
    requires cost <= Cost(Walk(i.buy.book.value.levels, i.quantity.value)) * (1.0 + p.buySlippagePercent / 100.0)
    requires proceeds >= Cost(Walk(i.sell.book.value.levels, i.quantity.value)) * (1.0 - p.sellSlippagePercent / 100.0)
    ensures proceeds * (1.0 - i.sell.feePercent.value / 100.0) - cost * (1.0 + i.buy.feePercent.value / 100.0)
            >= Cost(Walk(i.buy.book.value.levels, i.quantity.value)) * (1.0 + p.buySlippagePercent / 100.0)
               * (p.safetyBufferPercent / 100.0)
             + p.minimumNetProfitPercent / 100.0
               * (Cost(Walk(i.buy.book.value.levels, i.quantity.value)) * (1.0 + p.buySlippagePercent / 100.0))
  {
    ApprovedMeansProfitFloor(i, p, c, cost, proceeds);
    NetFactors(cost, proceeds, i.buy.feePercent.value, i.sell.feePercent.value);
  }

  /** How much of an approved quantity the levels it consumes hold: all but its 1e-9 part, or all but 1e-12. */
  lemma ApprovedHasDepth(i: Input, p: Policy, c: Config)
    requires Approvable(i, p, c)
    ensures DepthBehind(i.buy.book.value.levels, i.quantity.value)
    ensures DepthBehind(i.sell.book.value.levels, i.quantity.value)
  {
    WalkedLevels(i.buy.book.value.levels, i.quantity.value);
    WalkedLevels(i.sell.book.value.levels, i.quantity.value);
    ToleranceIs(i.quantity.value);
  }

  /** The first levels, all of them good, hold the quantity. */
  ghost predicate DepthBehind(levels: seq<Level>, quantity: real) {
    exists n :: 0 <= n <= |levels| && AllOk(levels[..n]) && Covers(Depth(levels[..n]), quantity)
  }

  /** The net percentage of a report, from the walked cost and proceeds, the fees and the policy's figures. */
  lemma EconomicsInFigures(cost: real, proceeds: real, buyFee: real, sellFee: real, p: Policy)
    ensures var e, buy, sell := Stress(cost, proceeds, buyFee, sellFee, p),
                                cost * (1.0 + p.buySlippagePercent / 100.0),
                                  proceeds * (1.0 - p.sellSlippagePercent / 100.0);
            && e.netProfit + buy * (p.safetyBufferPercent / 100.0)
               == sell * (1.0 - sellFee / 100.0) - buy * (1.0 + buyFee / 100.0)
            && e.tradingFees == buy * (buyFee / 100.0) + sell * (sellFee / 100.0)
            && e.safetyBuffer == buy * (p.safetyBufferPercent / 100.0)
            && (e.netProfitPercent.Some? <==> buy > 0.0)
            && (buy > 0.0 ==> e.netProfitPercent.value * buy == e.netProfit * 100.0)
  {
    StressNet(cost, proceeds, buyFee, sellFee, p);
    var e, buy := Stress(cost, proceeds, buyFee, sellFee, p), StressedBuy(cost, p);
    if buy > 0.0 {
      PercentBack(e.netProfit, buy, e.netProfitPercent.value);
    }
  }

  /** What every gate asks, in the figures of the input: an input is approved exactly when all of it holds. */
  lemma ApprovedExactly(i: Input, p: Policy, c: Config)
    ensures Approvable(i, p, c) <==>
            && i.quantity.Some? && i.quantity.value > 0.0
            && i.opportunityTimestamp.Some? && i.opportunityTimestamp.value <= i.startedAt
            && i.startedAt <= i.opportunityTimestamp.value + p.maximumOpportunityAgeMs
            && LegReady(i.buy, i.startedAt) && LegReady(i.sell, i.startedAt)
            && i.buy.book.value.timestamp - i.sell.book.value.timestamp <= c.maximumBookTimestampSkewMs
            && i.sell.book.value.timestamp - i.buy.book.value.timestamp <= c.maximumBookTimestampSkewMs
            && WalkCovers(i.buy.book.value.levels, i.quantity.value)
            && WalkCovers(i.sell.book.value.levels, i.quantity.value)
            && (var net := EconomicsOf(i, p).netProfitPercent;
                net.Some? && net.value >= 0.0 && net.value >= p.minimumNetProfitPercent)
            && (i.evaluationDurationMs <= c.maximumEvaluationDurationMs && 0.0 <= c.maximumEvaluationDurationMs)
  {
    if i.quantity.Some? && i.quantity.value > 0.0 && i.buy.book.Some? && i.sell.book.Some? {
      ToleranceIs(i.quantity.value);
      CoveredHasLimit(i.buy.book.value.levels, i.quantity.value);
      CoveredHasLimit(i.sell.book.value.levels, i.quantity.value);
    }
  }

  /** The venue's contract is complete, its book no older than the contract allows, its fee known. */
  predicate LegReady(leg: Leg, startedAt: int) {
    && leg.contract.Some? && leg.contract.value.identityMatches && leg.contract.value.supportsTimeInForce
    && leg.contract.value.fillConfirmationReady && leg.contract.value.maximumBookAgeMs.Some?
    && leg.contract.value.maximumBookAgeMs.value > 0
    && leg.book.Some? && leg.book.value.timestamp <= startedAt
    && startedAt <= leg.book.value.timestamp + leg.contract.value.maximumBookAgeMs.value
    && leg.feePercent.Some? && leg.feePercent.value >= 0.0
  }

  /** Every level looked at is good, and together they fill the quantity up to the tolerance. */
  predicate WalkCovers(levels: seq<Level>, quantity: real) {
    Walkable(levels, quantity) && Covers(Quantity(Walk(levels, quantity)), quantity) && Walk(levels, quantity) != []
  }

  lemma CoveredHasLimit(levels: seq<Level>, quantity: real)
    requires quantity > 0.0
    ensures DepthOk(levels, quantity) && WorstConsumed(levels, quantity).Some? <==> WalkCovers(levels, quantity)
  {
    ToleranceIs(quantity);
  }

  // ---- the wallet hold ----

  /** The quote-asset hold the coordinator reserves for the buy leg. */
  function QuoteHold(quantity: real, limit: real, feePercent: real): real {
    quantity * limit * (1.0 + feePercent / 100.0)
  }

  /** The hold pays for the fills and the taker fee on them. */
  predicate Pays(hold: real, fills: seq<Level>, feePercent: real) {
    Cost(fills) * (1.0 + feePercent / 100.0) <= hold
  }

  predicate RespectsLimit(side: Side, fills: seq<Level>, limit: real) {
    forall i :: 0 <= i < |fills| ==> fills[i].quantity >= 0.0 && AtOrBetter(side, fills[i].price, limit)
  }

  lemma {:induction false} LimitBoundsCost(fills: seq<Level>, limit: real)
    requires RespectsLimit(Asks, fills, limit)
    ensures Cost(fills) <= Quantity(fills) * limit
    decreases |fills|
  {
    if fills != [] {
      var last := fills[|fills| - 1];
      LimitBoundsCost(fills[..|fills| - 1], limit);
      MulMono(last.price, limit, last.quantity);
      assert Quantity(fills) * limit == Quantity(fills[..|fills| - 1]) * limit + last.quantity * limit;
    }
  }

  /** The hold covers every list of buy fills within the quantity and the limit, with the taker fee. */
  lemma {:induction false} HoldCoversLimitFills(fills: seq<Level>, quantity: real, limit: real, feePercent: real)
    requires RespectsLimit(Asks, fills, limit) && Quantity(fills) <= quantity
    requires limit >= 0.0 && feePercent >= 0.0
    ensures Pays(QuoteHold(quantity, limit, feePercent), fills, feePercent)
  {
    LimitBoundsCost(fills, limit);
    MulMono(Quantity(fills), quantity, limit);
    MulMono(Cost(fills), quantity * limit, 1.0 + feePercent / 100.0);
  }

  /** And no smaller hold does: one fill of the whole quantity at the limit needs all of it. */
  lemma HoldIsLeast(quantity: real, limit: real, feePercent: real, hold: real)
    requires quantity >= 0.0
    requires forall fills :: RespectsLimit(Asks, fills, limit) && Quantity(fills) <= quantity ==>
               Pays(hold, fills, feePercent)
    ensures QuoteHold(quantity, limit, feePercent) <= hold
  {
    var all := [Level(limit, quantity)];
    assert all[..0] == [];
    assert Quantity(all) == Quantity([]) + quantity && Cost(all) == Cost([]) + quantity * limit;
    assert RespectsLimit(Asks, all, limit);
  }

  lemma {:induction false} WalkRespectsWorst(side: Side, levels: seq<Level>, quantity: real)
    requires AllOk(levels) && BestFirst(side, levels) && quantity > 0.0
    requires WorstConsumed(levels, quantity).Some?
    ensures RespectsLimit(side, Walk(levels, quantity), WorstConsumed(levels, quantity).value)
    ensures Quantity(Walk(levels, quantity)) <= quantity
    ensures WorstConsumed(levels, quantity).value > 0.0
  {
    WalkFillsWhatItCan(levels, quantity);
    WalkFillsWithinLast(side, levels, quantity);
  }

  /**
    The walk behind the limits of a report is itself such an execution, so the quote hold taken at
    the reported buy limit covers it, and the base hold of the whole quantity covers the sell.
   */
  lemma {:induction false} WalkWithinHolds(asks: seq<Level>, bids: seq<Level>, quantity: real, feePercent: real)
    requires AllOk(asks) && BestFirst(Asks, asks) && AllOk(bids) && BestFirst(Bids, bids)
    requires quantity > 0.0 && feePercent >= 0.0
    requires WorstConsumed(asks, quantity).Some? && WorstConsumed(bids, quantity).Some?
    ensures Pays(QuoteHold(quantity, WorstConsumed(asks, quantity).value, feePercent), Walk(asks, quantity), feePercent)
    ensures RespectsLimit(Bids, Walk(bids, quantity), WorstConsumed(bids, quantity).value)
    ensures Quantity(Walk(bids, quantity)) <= quantity
  {
    WalkRespectsWorst(Asks, asks, quantity);
    WalkRespectsWorst(Bids, bids, quantity);
    HoldCoversLimitFills(Walk(asks, quantity), quantity, WorstConsumed(asks, quantity).value, feePercent);
  }

  /** The limits of an approved report are prices. */
  lemma ApprovedLimitsPositive(i: Input, p: Policy, c: Config)
    requires Approvable(i, p, c)
    ensures BuyLimit(i) > 0.0 && SellLimit(i) > 0.0
  {
    WalkedFillsOk(i.buy.book.value.levels, i.quantity.value);
    WalkedFillsOk(i.sell.book.value.levels, i.quantity.value);
  }

  // ---- fills at the reported limits ----

  /** Fills of the whole quantity, none worse than the limit. */
  ghost predicate FullFill(side: Side, fills: seq<Level>, quantity: real, limit: real) {
    RespectsLimit(side, fills, limit) && Quantity(fills) == quantity
  }

  lemma WholeAtLimit(side: Side, quantity: real, limit: real)
    requires quantity >= 0.0
    ensures FullFill(side, [Level(limit, quantity)], quantity, limit)
            && Cost([Level(limit, quantity)]) == quantity * limit
  {
    var all := [Level(limit, quantity)];
    assert all[..0] == [];
    assert Quantity(all) == Quantity([]) + quantity && Cost(all) == Cost([]) + quantity * limit;
  }

  lemma {:induction false} LimitBoundsProceeds(fills: seq<Level>, limit: real)
    requires RespectsLimit(Bids, fills, limit)
    ensures Cost(fills) >= Quantity(fills) * limit
    decreases |fills|
  {
    if fills != [] {
      var last := fills[|fills| - 1];
      LimitBoundsProceeds(fills[..|fills| - 1], limit);
      MulMono(limit, last.price, last.quantity);
      assert Value(last) >= last.quantity * limit;
      assert Quantity(fills) * limit == Quantity(fills[..|fills| - 1]) * limit + last.quantity * limit;
    }
  }

  function BuyLimit(i: Input): real
    requires i.quantity.Some? && i.buy.book.Some? && WorstConsumed(i.buy.book.value.levels, i.quantity.value).Some?
  {
    WorstConsumed(i.buy.book.value.levels, i.quantity.value).value
  }

  function SellLimit(i: Input): real
    requires i.quantity.Some? && i.sell.book.Some? && WorstConsumed(i.sell.book.value.levels, i.quantity.value).Some?
  {
    WorstConsumed(i.sell.book.value.levels, i.quantity.value).value
  }

  function StressedCost(i: Input, p: Policy): real
    requires i.quantity.Some? && i.buy.book.Some?
  {
    StressedBuy(Cost(Walk(i.buy.book.value.levels, i.quantity.value)), p)
  }

  /** The profit that approval stands for. */
  function Floor(i: Input, p: Policy): real
    requires i.quantity.Some? && i.buy.book.Some? && i.sell.book.Some? && i.buy.feePercent.Some?
             && i.sell.feePercent.Some?
  {
    EconomicsOf(i, p).safetyBuffer + p.minimumNetProfitPercent / 100.0 * StressedCost(i, p)
  }

  /**
    The reported limit alone does not keep an approved buy within its stressed cost: every full fill at
    or within the limit stays within it exactly when the whole quantity at the limit does.
   */
  lemma LimitWithinStressExactly(i: Input, p: Policy, c: Config)
    requires Approvable(i, p, c)
    ensures (forall fills :: FullFill(Asks, fills, i.quantity.value, BuyLimit(i)) ==> Cost(fills) <= StressedCost(i, p))
            <==> i.quantity.value * BuyLimit(i) <= StressedCost(i, p)
  {
    var q, limit := i.quantity.value, BuyLimit(i);
    WholeAtLimit(Asks, q, limit);
    forall fills | FullFill(Asks, fills, q, limit) ensures Cost(fills) <= q * limit {
      LimitBoundsCost(fills, limit);
    }
  }

  /** What trading a quantity at both limits nets after both fees. */
  function NetAtLimits(q: real, buyLimit: real, sellLimit: real, buyFee: real, sellFee: real): real {
    q * sellLimit * (1.0 - sellFee / 100.0) - q * buyLimit * (1.0 + buyFee / 100.0)
  }

  /** Every pair of full fills at or within the limits nets at least the floor. */
  ghost predicate FillsKeep(q: real, buyLimit: real, sellLimit: real, buyFee: real, sellFee: real, floor: real) {
    forall buys, sells :: FullFill(Asks, buys, q, buyLimit) && FullFill(Bids, sells, q, sellLimit) ==>
      RealisedNet(Cost(buys), Cost(sells), buyFee, sellFee) >= floor
  }

  lemma FillsKeepExactly(q: real, buyLimit: real, sellLimit: real, buyFee: real, sellFee: real, floor: real)
    requires q >= 0.0 && buyFee >= 0.0 && sellFee / 100.0 < 1.0
    ensures FillsKeep(q, buyLimit, sellLimit, buyFee, sellFee, floor)
            <==> NetAtLimits(q, buyLimit, sellLimit, buyFee, sellFee) >= floor
  {
    WholeAtLimit(Asks, q, buyLimit);
    WholeAtLimit(Bids, q, sellLimit);
    NetFactors(q * buyLimit, q * sellLimit, buyFee, sellFee);
    assert NetAtLimits(q, buyLimit, sellLimit, buyFee, sellFee)
           == RealisedNet(q * buyLimit, q * sellLimit, buyFee, sellFee);
    forall buys, sells | FullFill(Asks, buys, q, buyLimit) && FullFill(Bids, sells, q, sellLimit)
      ensures RealisedNet(Cost(buys), Cost(sells), buyFee, sellFee)
              >= RealisedNet(q * buyLimit, q * sellLimit, buyFee, sellFee)
    {
      LimitBoundsCost(buys, buyLimit);
      LimitBoundsProceeds(sells, sellLimit);
      assert Quantity(buys) * buyLimit == q * buyLimit && Quantity(sells) * sellLimit == q * sellLimit;
      NetGrows(Cost(buys), q * buyLimit, Cost(sells), q * sellLimit, buyFee, sellFee);
    }
  }

  /**
    Nor do the two limits keep the profit floor: every pair of full fills at or within the reported
    limits of an approved input keeps it exactly when trading the whole quantity at both limits does.
   */
  lemma LimitsKeepFloorExactly(i: Input, p: Policy, c: Config)
    requires SanePolicy(p) && Approvable(i, p, c)
    ensures var buyFee, sellFee := i.buy.feePercent.value, i.sell.feePercent.value;
            FillsKeep(i.quantity.value, BuyLimit(i), SellLimit(i), buyFee, sellFee, Floor(i, p))
            <==> NetAtLimits(i.quantity.value, BuyLimit(i), SellLimit(i), buyFee, sellFee) >= Floor(i, p)
  {
    ApprovedSellFee(i, p, c);
    FillsKeepExactly(i.quantity.value, BuyLimit(i), SellLimit(i), i.buy.feePercent.value, i.sell.feePercent.value,
                     Floor(i, p));
  }

  lemma ApprovedSellFee(i: Input, p: Policy, c: Config)
    requires SanePolicy(p) && Approvable(i, p, c)
    ensures i.sell.feePercent.value / 100.0 < 1.0
  {
    WalkedFillsOk(i.buy.book.value.levels, i.quantity.value);
    WalkedFillsOk(i.sell.book.value.levels, i.quantity.value);
    CostNonNegative(Walk(i.buy.book.value.levels, i.quantity.value));
    CostNonNegative(Walk(i.sell.book.value.levels, i.quantity.value));
    SellFeeBelowWhole(Cost(Walk(i.buy.book.value.levels, i.quantity.value)),
                      Cost(Walk(i.sell.book.value.levels, i.quantity.value)),
                      i.buy.feePercent.value, i.sell.feePercent.value, p);
  }

  lemma NetFactors(cost: real, proceeds: real, buyFee: real, sellFee: real)
    ensures RealisedNet(cost, proceeds, buyFee, sellFee)
            == proceeds * (1.0 - sellFee / 100.0) - cost * (1.0 + buyFee / 100.0)
  {
  }

  lemma NetGrows(cost: real, cost': real, proceeds: real, proceeds': real, buyFee: real, sellFee: real)
    requires cost <= cost' && proceeds >= proceeds' && buyFee >= 0.0 && sellFee / 100.0 < 1.0
    ensures RealisedNet(cost, proceeds, buyFee, sellFee) >= RealisedNet(cost', proceeds', buyFee, sellFee)
  {
    NetFactors(cost, proceeds, buyFee, sellFee);
    NetFactors(cost', proceeds', buyFee, sellFee);
    MulMono(cost, cost', 1.0 + buyFee / 100.0);
    MulMono(proceeds', proceeds, 1.0 - sellFee / 100.0);
  }

  // ---- what the services admit, and an approved input whose limits break both ----

  predicate Percent(x: real) { 0.0 <= x <= 100.0 }

  /** What the policy service admits, as far as the last look reads it. */
  predicate AdmissiblePolicy(p: Policy) {
    && p.maximumOpportunityAgeMs > 0 && Percent(p.buySlippagePercent) && Percent(p.sellSlippagePercent)
    && Percent(p.safetyBufferPercent) && Percent(p.minimumNetProfitPercent)
  }

  predicate AdmissibleConfig(c: Config) { c.maximumBookTimestampSkewMs > 0 && c.maximumEvaluationDurationMs > 0.0 }

  /** The values of both built-in policies, and the service's own configuration. */
  const DEFAULT_POLICY := Policy(10000, 0.02, 0.02, 0.05, 0.5)
  const DEFAULT_CONFIG := Config(250, 25.0)

  lemma AdmissibleIsSane(p: Policy)
    requires AdmissiblePolicy(p)
    ensures SanePolicy(p)
  {
  }

  predicate ExampleLeg(leg: Leg, startedAt: int) {
    && ContractOk(leg.contract) && leg.book.Some? && leg.book.value.timestamp == startedAt
    && leg.feePercent == Some(0.1)
  }

  /** Quantity 2, taker fees of 0.1 percent, nothing late. */
  predicate ExampleTerms(i: Input) {
    && i.quantity == Some(2.0) && i.opportunityTimestamp == Some(i.startedAt)
    && ExampleLeg(i.buy, i.startedAt) && ExampleLeg(i.sell, i.startedAt) && i.evaluationDurationMs <= 25.0
  }

  const EXAMPLE_ASKS := [Level(1.0, 1.0), Level(2.0, 1.0)]
  const EXAMPLE_BIDS := [Level(1.6, 2.0)]

  /** Asks of 1 at 1 and 1 at 2, a bid of 2 at 1.6. */
  predicate ExampleBooks(i: Input) {
    && i.quantity == Some(2.0) && i.buy.book.Some? && i.sell.book.Some?
    && i.buy.book.value.levels == EXAMPLE_ASKS && i.sell.book.value.levels == EXAMPLE_BIDS
  }

  lemma ExampleExists() returns (i: Input)
    ensures ExampleTerms(i) && ExampleBooks(i)
  {
    var contract := Some(Contract(true, Some(250), true, true));
    i := Input(Some(2.0), Some(1000), 1000, Leg(contract, Some(Book(EXAMPLE_ASKS, 1000)), Some(0.1)),
               Leg(contract, Some(Book(EXAMPLE_BIDS, 1000)), Some(0.1)), 1.0);
  }

  lemma WalkOne(a: Level)
    requires LevelOk(a)
    ensures Walk([a], a.quantity) == [a] && Walkable([a], a.quantity)
    ensures Cost([a]) == Value(a) && Quantity([a]) == a.quantity && LastPrice([a]) == Some(a.price)
  {
    assert [a][1..] == [] && [a][..0] == [] && Cost([]) == 0.0 && Quantity([]) == 0.0;
  }

  lemma WalkTwo(a: Level, b: Level)
    requires LevelOk(a) && LevelOk(b)
    ensures Walk([a, b], a.quantity + b.quantity) == [a, b] && Walkable([a, b], a.quantity + b.quantity)
    ensures Cost([a, b]) == Value(a) + Value(b) && Quantity([a, b]) == a.quantity + b.quantity
            && LastPrice([a, b]) == Some(b.price)
  {
    WalkOne(a);
    WalkOne(b);
    assert [a, b][1..] == [b] && [a, b][..1] == [a];
  }

  lemma WholeWalkOk(levels: seq<Level>, quantity: real)
    requires Walk(levels, quantity) == levels && Walkable(levels, quantity) && Quantity(levels) == quantity
    ensures DepthOk(levels, quantity) && WorstConsumed(levels, quantity) == LastPrice(levels)
  {
  }

  predicate DefaultPercents(p: Policy) {
    && p.buySlippagePercent == 0.02 && p.sellSlippagePercent == 0.02 && p.safetyBufferPercent == 0.05
    && p.minimumNetProfitPercent == 0.5
  }

  lemma ExampleStress(p: Policy)
    requires DefaultPercents(p)
    ensures StressedBuy(3.0, p) == 3.0006 && StressedSell(3.2, p) == 3.19936
    ensures Stress(3.0, 3.2, 0.1, 0.1, p)
            == Economics(0.00619996, 0.0015003, 0.19105974, Some(0.19105974 / 3.0006 * 100.0))
  {
  }

  lemma ExampleProfit(p: Policy, e: Economics)
    requires DefaultPercents(p) && e == Economics(0.00619996, 0.0015003, 0.19105974, Some(0.19105974 / 3.0006 * 100.0))
    ensures ProfitOk(e, p) && e.safetyBuffer + p.minimumNetProfitPercent / 100.0 * 3.0006 == 0.0165033
  {
  }

  /** The walks of an input, summed up. */
  predicate Summary(i: Input, cost: real, proceeds: real, buyLimit: real, sellLimit: real) {
    && i.quantity.Some? && i.buy.book.Some? && i.sell.book.Some?
    && var q, asks, bids := i.quantity.value, i.buy.book.value.levels, i.sell.book.value.levels;
    && DepthOk(asks, q) && DepthOk(bids, q)
    && Cost(Walk(asks, q)) == cost && Cost(Walk(bids, q)) == proceeds
    && WorstConsumed(asks, q) == Some(buyLimit) && WorstConsumed(bids, q) == Some(sellLimit)
  }

  lemma ExampleSummary(i: Input)
    requires ExampleBooks(i)
    ensures Summary(i, 3.0, 3.2, 2.0, 1.6)
  {
    var a, b, d := Level(1.0, 1.0), Level(2.0, 1.0), Level(1.6, 2.0);
    WalkTwo(a, b);
    WalkOne(d);
    WholeWalkOk([a, b], 2.0);
    WholeWalkOk([d], 2.0);
    assert Value(a) == 1.0 && Value(b) == 2.0 && Value(d) == 3.2;
  }

  lemma ApprovedByProfit(i: Input, p: Policy, c: Config, cost: real, proceeds: real, buyLimit: real, sellLimit: real)
    requires Summary(i, cost, proceeds, buyLimit, sellLimit) && i.quantity.value > 0.0
             && i.opportunityTimestamp == Some(i.startedAt)
    requires p.maximumOpportunityAgeMs >= 0 && c.maximumBookTimestampSkewMs >= 0
    requires MaxReal(0.0, i.evaluationDurationMs) <= c.maximumEvaluationDurationMs
    requires ContractOk(i.buy.contract) && ContractOk(i.sell.contract) && FeeOk(i.buy.feePercent)
             && FeeOk(i.sell.feePercent)
    requires i.buy.book.value.timestamp == i.startedAt == i.sell.book.value.timestamp
    requires ProfitOk(EconomicsOf(i, p), p)
    ensures Approvable(i, p, c)
  {
  }

  /** Approved for a walk that costs 3.0006 under stress. */
  lemma ExampleApproved(i: Input, p: Policy, c: Config)
    requires ExampleTerms(i) && Summary(i, 3.0, 3.2, 2.0, 1.6) && DefaultPercents(p)
    requires p.maximumOpportunityAgeMs >= 0 && c.maximumBookTimestampSkewMs >= 0
             && c.maximumEvaluationDurationMs >= 25.0
    ensures Approvable(i, p, c) && StressedCost(i, p) == 3.0006 && Floor(i, p) == 0.0165033
  {
    ExampleStress(p);
    ExampleProfit(p, EconomicsOf(i, p));
    ApprovedByProfit(i, p, c, 3.0, 3.2, 2.0, 1.6);
  }

  /**
    Under the built-in policy and configuration: bought at its limit the quantity costs 4, more than the
    stressed 3.0006, and traded at both limits it loses money, where approval promised a profit.
   */
  lemma LimitsBreakFloorExample(i: Input)
    requires ExampleTerms(i) && ExampleBooks(i)
    ensures AdmissiblePolicy(DEFAULT_POLICY) && AdmissibleConfig(DEFAULT_CONFIG)
    ensures Approvable(i, DEFAULT_POLICY, DEFAULT_CONFIG) && BuyLimit(i) == 2.0 && SellLimit(i) == 1.6
    ensures !(forall fills :: FullFill(Asks, fills, 2.0, BuyLimit(i)) ==>
                Cost(fills) <= StressedCost(i, DEFAULT_POLICY))
    ensures Floor(i, DEFAULT_POLICY) > 0.0 > NetAtLimits(2.0, BuyLimit(i), SellLimit(i), 0.1, 0.1)
    ensures !FillsKeep(2.0, BuyLimit(i), SellLimit(i), 0.1, 0.1, Floor(i, DEFAULT_POLICY))
  {
    var p, c := DEFAULT_POLICY, DEFAULT_CONFIG;
    ExampleSummary(i);
    ExampleApproved(i, p, c);
    LimitWithinStressExactly(i, p, c);
    LimitsKeepFloorExactly(i, p, c);
    assert NetAtLimits(2.0, 2.0, 1.6, 0.1, 0.1) == -0.8072;
  }
}
