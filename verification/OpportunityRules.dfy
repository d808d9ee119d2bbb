/**
  What one venue pair is judged to be, gate by gate. Services the engine asks at one moment
  (freshness, fees, capabilities, conversion, analysis) are the functions of a `Ports` value.
 */
module OpportunityRules {
  import opened Wrappers
  import opened Names
  import opened PairScan

  datatype Policy = Policy(minimumSpreadPercent: real, minimumNetProfitPercent: real, referenceCapital: real)

  /** The policy the engine evaluates under unless it is given another one. */
  const DEFAULT_POLICY := Policy(0.05, 0.05, 500.0)

  datatype Freshness = Freshness(buy: bool, sell: bool, synchronized: bool)

  datatype Analysis = Analysis(liquidity: bool, freshness: bool, fees: bool, spread: bool, quoteIntegrity: bool) {
    predicate Executable() { liquidity && freshness && fees && spread && quoteIntegrity }
  }

  datatype Conversion = Conversion(quantity: real, expiresAt: int)

  datatype Ports = Ports(
    now: int,
    freshness: Pair -> Freshness,
    takerFeePercent: (string, string) -> Option<real>,
    quoteAsset: (string, string) -> Option<string>,
    convert: (string, real) -> Option<Conversion>,
    analyze: (Pair, Evaluation, real) -> Analysis)

  datatype Code =
    | SpreadBelowMinimum
    | StaleBothQuotes | StaleBuyQuote | StaleSellQuote | PairNotSynchronized
    | PriceResolutionFailed | InvalidBuyPrice | InvalidSellPrice | BuyFeeMissing | SellFeeMissing
    | InvalidMarketData | NetProfitBelowMinimum
    | CapitalConversionUnavailable | InvalidRequiredQuantity | InvalidExecutableQuantity
    | QuoteIntegrityFailed | StaleExecutionQuotes | UnacceptableFees | UnacceptableSpread
    | InsufficientLiquidity | ExecutionNotAllowed

  /** A rejection record; one made after the analysis keeps what the analysis found. */
  datatype Rejection = Rejection(code: Code, pair: Pair, analysis: Option<Analysis>)

  datatype Evaluation =
    Evaluation(rawSpread: real, rawSpreadPercent: real, fees: real, netProfit: real, netProfitPercent: real)

  datatype Opportunity =
    Opportunity(pair: Pair, evaluation: Evaluation, quoteCapital: real, requiredQty: real, executableQty: real)

  datatype Capital = Capital(quoteCapital: real, generatedAt: int, expiresAt: int)

  type CapitalCache = map<(string, real), Capital>

  // ---- the evaluator's gates ----

  datatype Evaluated = Priced(evaluation: Evaluation) | Refused(code: Code)

  function PercentOf(part: real, whole: real): real
    requires whole != 0.0
  {
    part / whole * 100.0
  }

  function Economics(buyPrice: real, sellPrice: real, buyFee: real, sellFee: real): Evaluation
    requires buyPrice > 0.0
  {
    var spread := sellPrice - buyPrice;
    var fees := buyPrice * (buyFee / 100.0) + sellPrice * (sellFee / 100.0);
    Evaluation(spread, PercentOf(spread, buyPrice), fees, spread - fees, PercentOf(spread - fees, buyPrice))
  }

  datatype Prices = Prices(buy: real, sell: real)

  function ResolvePrices(p: Pair): Option<Prices> {
    var ask, bid := p.buy.askPrice, p.sell.bidPrice;
    if !p.buy.executable || !p.sell.executable || ask.None? || bid.None? || ask.value <= 0.0 || bid.value <= 0.0
    then None else Some(Prices(ask.value, bid.value))
  }

  function PricedAt(ports: Ports, p: Pair, prices: Prices): Evaluated {
    if prices.buy <= 0.0 then Refused(InvalidBuyPrice)
    else if prices.sell <= 0.0 then Refused(InvalidSellPrice)
    else
      var buyFee, sellFee := BuyFee(ports, p), SellFee(ports, p);
      if buyFee.None? then Refused(BuyFeeMissing)
      else if sellFee.None? then Refused(SellFeeMissing)
      else Priced(Economics(prices.buy, prices.sell, buyFee.value, sellFee.value))
  }

  function EvaluatePair(ports: Ports, p: Pair): Evaluated {
    var seen := ports.freshness(p);
    if !seen.buy && !seen.sell then Refused(StaleBothQuotes)
    else if !seen.buy then Refused(StaleBuyQuote)
    else if !seen.sell then Refused(StaleSellQuote)
    else if !seen.synchronized then Refused(PairNotSynchronized)
    else
      var prices := ResolvePrices(p);
      if prices.None? then Refused(PriceResolutionFailed) else PricedAt(ports, p, prices.value)
  }

  // ---- reference capital ----

  function Upcase(s: Option<string>): Option<string> {
    if s.None? then None else Some(NormMarket(s.value))
  }

  predicate QuotedIn(market: string, asset: string) { |market| > |asset| && EndsWith(market, asset) }

  function InferQuoteAsset(market: string): Option<string> { QuoteOfName(CanonicalMarket(market)) }

  function QuoteOfName(m: string): Option<string> {
    if QuotedIn(m, "USDT") then Some("USDT")
    else if QuotedIn(m, "USDC") then Some("USDC")
    else if QuotedIn(m, "INR") then Some("INR")
    else if QuotedIn(m, "BTC") then Some("BTC")
    else if QuotedIn(m, "ETH") then Some("ETH")
    else None
  }

  /** The asset both venues quote the market in, or none when they differ or it is unknown. */
  function SharedQuoteAsset(ports: Ports, p: Pair): Option<string> {
    var buy := Upcase(ports.quoteAsset(p.buy.exchange, p.market));
    var buyAsset := if buy.Some? then buy else InferQuoteAsset(p.market);
    var sell := Upcase(ports.quoteAsset(p.sell.exchange, p.market));
    var sellAsset := if sell.Some? then sell else buyAsset;
    if buyAsset.None? || buyAsset.value == "" || buyAsset != sellAsset then None else buyAsset
  }

  function WithoutExpired(cache: CapitalCache, now: int): CapitalCache {
    map k | k in cache && cache[k].expiresAt > now :: cache[k]
  }

  predicate UsableCapital(cache: CapitalCache, key: (string, real), now: int) {
    key in cache && now - cache[key].generatedAt <= 250 && cache[key].expiresAt > now
  }

  function Trimmed(cache: CapitalCache, now: int): CapitalCache {
    if |cache| > 32 then WithoutExpired(cache, now) else cache
  }

  function AssetCapital(ports: Ports, cache: CapitalCache, asset: string, requested: real)
    : (Option<real>, CapitalCache)
  {
    if asset == "INR" then (Some(requested), cache)
    else
      var key := (asset, requested);
      if UsableCapital(cache, key, ports.now) then (Some(cache[key].quoteCapital), cache)
      else
        var conversion := ports.convert(asset, requested);
        if conversion.None? || conversion.value.quantity <= 0.0 then (None, cache)
        else
          var made := Capital(conversion.value.quantity, ports.now, conversion.value.expiresAt);
          (Some(made.quoteCapital), Trimmed(cache[key := made], ports.now))
  }

  function ReferenceCapital(ports: Ports, cache: CapitalCache, p: Pair, requested: real): (Option<real>, CapitalCache) {
    var asset := SharedQuoteAsset(ports, p);
    if asset.None? || requested <= 0.0 then (None, cache) else AssetCapital(ports, cache, asset.value, requested)
  }

  ghost predicate PositiveCapital(cache: CapitalCache) {
    forall k :: k in cache ==> cache[k].quoteCapital > 0.0
  }

  // ---- the engine's gates ----

  datatype Verdict =
    | Silent
    | LowSpread
    | EvaluatorSays(code: Code)
    | EngineSays(code: Code)
    | AnalysisSays(analysis: Analysis)
    | Accepted(analysis: Analysis, opportunity: Opportunity)

  function PrimaryRejection(a: Analysis): Code {
    if !a.quoteIntegrity then QuoteIntegrityFailed
    else if !a.freshness then StaleExecutionQuotes
    else if !a.fees then UnacceptableFees
    else if !a.spread then UnacceptableSpread
    else if !a.liquidity then InsufficientLiquidity
    else ExecutionNotAllowed
  }

  predicate ValidTop(p: Pair) {
    && p.buy.askPrice.Some? && p.sell.bidPrice.Some? && p.buy.askQty.Some? && p.sell.bidQty.Some?
    && p.buy.askPrice.value > 0.0 && p.sell.bidPrice.value > 0.0 && p.buy.askQty.value > 0.0
    && p.sell.bidQty.value > 0.0
  }

  predicate HasPrices(p: Pair) {
    p.buy.askPrice.Some? && p.sell.bidPrice.Some? && p.buy.askPrice.value > 0.0 && p.sell.bidPrice.value > 0.0
  }

  function RawSpreadPercent(p: Pair): real
    requires HasPrices(p)
  {
    PercentOf(p.sell.bidPrice.value - p.buy.askPrice.value, p.buy.askPrice.value)
  }

  function Sized(ports: Ports, p: Pair, e: Evaluation, quoteCapital: real, buyPrice: real, buyQty: real,
                 sellQty: real): Verdict
    requires buyPrice > 0.0
  {
    var requiredQty := quoteCapital / buyPrice;
    if requiredQty <= 0.0 then EngineSays(InvalidRequiredQuantity)
    else
      var availableQty := MinReal(buyQty, sellQty);
      if availableQty <= 0.0 then EngineSays(InvalidExecutableQuantity)
      else
        var analysis := ports.analyze(p, e, quoteCapital);
        if !analysis.Executable() then AnalysisSays(analysis)
        else Accepted(analysis, Opportunity(p, e, quoteCapital, requiredQty, MinReal(requiredQty, availableQty)))
  }

  function Qualify(ports: Ports, policy: Policy, cache: CapitalCache, p: Pair, e: Evaluation): (Verdict, CapitalCache) {
    if !ValidTop(p) then (EngineSays(InvalidMarketData), cache)
    else if e.rawSpreadPercent < policy.minimumSpreadPercent then (EngineSays(SpreadBelowMinimum), cache)
    else if e.netProfitPercent < policy.minimumNetProfitPercent then (EngineSays(NetProfitBelowMinimum), cache)
    else QualifyCapital(ports, policy, cache, p, e)
  }

  function QualifyCapital(ports: Ports, policy: Policy, cache: CapitalCache, p: Pair, e: Evaluation)
    : (Verdict, CapitalCache)
    requires ValidTop(p)
  {
    var (capital, after) := ReferenceCapital(ports, cache, p, policy.referenceCapital);
    if capital.None? then (EngineSays(CapitalConversionUnavailable), after)
    else (Sized(ports, p, e, capital.value, p.buy.askPrice.value, p.buy.askQty.value, p.sell.bidQty.value), after)
  }

  function JudgeAboveFloor(ports: Ports, policy: Policy, cache: CapitalCache, p: Pair): (Verdict, CapitalCache) {
    match EvaluatePair(ports, p)
    case Refused(code) => (EvaluatorSays(code), cache)
    case Priced(e) => Qualify(ports, policy, cache, p, e)
  }

  function Judge(ports: Ports, policy: Policy, cache: CapitalCache, p: Pair): (Verdict, CapitalCache) {
    if HasPrices(p) && RawSpreadPercent(p) < policy.minimumSpreadPercent
    then (if RawSpreadPercent(p) > 0.0 then LowSpread else Silent, cache)
    else JudgeAboveFloor(ports, policy, cache, p)
  }

  // ---- what the gates guarantee ----

  lemma PercentSign(part: real, whole: real)
    requires whole > 0.0
    ensures PercentOf(part, whole) > 0.0 <==> part > 0.0
    ensures PercentOf(part, whole) * whole == part * 100.0
  {
    var ratio := part / whole;
    assert ratio * whole == part;
    if ratio > 0.0 { assert ratio * whole > 0.0; }
    if ratio <= 0.0 { assert ratio * whole <= 0.0; }
    assert ratio * 100.0 * whole == ratio * whole * 100.0;
  }

  lemma QuotientPositive(a: real, b: real)
    requires a > 0.0 && b > 0.0
    ensures a / b > 0.0 && a / b * b == a
  {
    var q := a / b;
    assert q * b == a;
    assert q <= 0.0 ==> q * b <= 0.0;
  }

  lemma CapitalStaysPositive(ports: Ports, cache: CapitalCache, p: Pair, requested: real)
    requires PositiveCapital(cache)
    ensures var (capital, after) := ReferenceCapital(ports, cache, p, requested);
            PositiveCapital(after) && (capital.Some? ==> capital.value > 0.0)
  {
  }

  predicate EvaluatorCode(c: Code) {
    c == StaleBothQuotes || c == StaleBuyQuote || c == StaleSellQuote || c == PairNotSynchronized
    || c == PriceResolutionFailed || c == BuyFeeMissing || c == SellFeeMissing
  }

  /**
    The verdicts a pair can really get. The tests for invalid resolved prices, for an invalid required
    or executable quantity, the second spread test, and a rejected analysis without a failing part only
    repeat what an earlier gate has settled.
   */
  predicate Possible(v: Verdict) {
    match v
    case EvaluatorSays(c) => EvaluatorCode(c)
    case EngineSays(c) => c == InvalidMarketData || c == NetProfitBelowMinimum || c == CapitalConversionUnavailable
    case AnalysisSays(a) => !a.Executable() && PrimaryRejection(a) != ExecutionNotAllowed
    case Accepted(a, _) => a.Executable()
    case _ => true
  }

  lemma EvaluatorGates(ports: Ports, p: Pair)
    ensures EvaluatePair(ports, p).Refused? ==> EvaluatorCode(EvaluatePair(ports, p).code)
    ensures EvaluatePair(ports, p).Priced? ==>
            HasPrices(p) && EvaluatePair(ports, p).evaluation.rawSpreadPercent == RawSpreadPercent(p)
  {
  }

  lemma SizedGates(ports: Ports, p: Pair, e: Evaluation, quoteCapital: real, buyPrice: real, buyQty: real,
                   sellQty: real)
    requires quoteCapital > 0.0 && buyPrice > 0.0 && buyQty > 0.0 && sellQty > 0.0
    ensures Possible(Sized(ports, p, e, quoteCapital, buyPrice, buyQty, sellQty))
  {
    QuotientPositive(quoteCapital, buyPrice);
  }

  lemma QualifyGates(ports: Ports, policy: Policy, cache: CapitalCache, p: Pair, e: Evaluation)
    requires PositiveCapital(cache) && e.rawSpreadPercent >= policy.minimumSpreadPercent
    ensures Possible(Qualify(ports, policy, cache, p, e).0) && PositiveCapital(Qualify(ports, policy, cache, p, e).1)
  {
    CapitalStaysPositive(ports, cache, p, policy.referenceCapital);
    var capital := ReferenceCapital(ports, cache, p, policy.referenceCapital).0;
    if ValidTop(p) && capital.Some? {
      SizedGates(ports, p, e, capital.value, p.buy.askPrice.value, p.buy.askQty.value, p.sell.bidQty.value);
    }
  }

  lemma VerdictsArePossible(ports: Ports, policy: Policy, cache: CapitalCache, p: Pair)
    requires PositiveCapital(cache)
    ensures Possible(Judge(ports, policy, cache, p).0) && PositiveCapital(Judge(ports, policy, cache, p).1)
  {
    EvaluatorGates(ports, p);
    var result := EvaluatePair(ports, p);
    if result.Priced? && result.evaluation.rawSpreadPercent >= policy.minimumSpreadPercent {
      QualifyGates(ports, policy, cache, p, result.evaluation);
    }
  }

  // ---- the quote asset of a pair ----

  /** Both venues' own declarations count; an undeclared buy side is read off the market's name. */
  lemma SharedAssetExactly(ports: Ports, p: Pair, asset: string)
    ensures var buy, sell := ports.quoteAsset(p.buy.exchange, p.market), ports.quoteAsset(p.sell.exchange, p.market);
            SharedQuoteAsset(ports, p) == Some(asset) <==>
            && asset != "" && (sell.Some? ==> NormMarket(sell.value) == asset)
            && (if buy.Some? then NormMarket(buy.value) == asset else InferQuoteAsset(p.market) == Some(asset))
  {
  }

  lemma OnlyOneEnding(m: string, quote: string)
    requires KnownQuote(quote) && QuotedIn(m, quote)
    requires forall other :: KnownQuote(other) && other != quote ==> !EndsWith(m, other)
    ensures QuoteOfName(m) == Some(quote)
  {
  }

  /** A market named after an asset and a known quote asset is quoted in that one. */
  lemma InferredExactly(market: string, base: string, quote: string)
    requires KnownQuote(quote) && CanonicalMarket(market) == base + quote && base != ""
    ensures InferQuoteAsset(market) == Some(quote)
  {
    var m := base + quote;
    assert m[|m| - |quote|..] == quote;
    forall other | KnownQuote(other) && other != quote ensures !EndsWith(m, other) {
      OtherSuffix(base, quote, other);
    }
    OnlyOneEnding(m, quote);
  }

  lemma NothingInferred(market: string)
    requires forall quote :: KnownQuote(quote) && |CanonicalMarket(market)| > |quote| ==>
             !EndsWith(CanonicalMarket(market), quote)
    ensures InferQuoteAsset(market) == None
  {
    NoEnding(CanonicalMarket(market));
  }

  lemma NoEnding(m: string)
    requires forall quote :: KnownQuote(quote) && |m| > |quote| ==> !EndsWith(m, quote)
    ensures QuoteOfName(m) == None
  {
    assert KnownQuote("USDT") && KnownQuote("USDC") && KnownQuote("INR") && KnownQuote("BTC") && KnownQuote("ETH");
  }

  // ---- when each verdict is given ----

  /** What the evaluator finds, gate by gate: each refusal exactly when its gate fails and all before it hold. */
  lemma EvaluatorSaysExactly(ports: Ports, p: Pair)
    ensures var seen, e := ports.freshness(p), EvaluatePair(ports, p);
            var timely := seen.buy && seen.sell && seen.synchronized;
            var buyFee, sellFee := ports.takerFeePercent(NormExchange(p.buy.exchange), p.market),
                                   ports.takerFeePercent(NormExchange(p.sell.exchange), p.market);
            && (e == Refused(StaleBothQuotes) <==> !seen.buy && !seen.sell)
            && (e == Refused(StaleBuyQuote) <==> !seen.buy && seen.sell)
            && (e == Refused(StaleSellQuote) <==> seen.buy && !seen.sell)
            && (e == Refused(PairNotSynchronized) <==> seen.buy && seen.sell && !seen.synchronized)
            && (e == Refused(PriceResolutionFailed) <==> timely && !Quotable(p))
            && (e == Refused(BuyFeeMissing) <==> timely && Quotable(p) && buyFee.None?)
            && (e == Refused(SellFeeMissing) <==> timely && Quotable(p) && buyFee.Some? && sellFee.None?)
            && (e.Priced? <==> timely && Quotable(p) && buyFee.Some? && sellFee.Some?)
  {
  }

  /** One can buy at the one and sell at the other. */
  predicate Quotable(p: Pair) {
    && p.buy.executable && p.buy.askPrice.Some? && p.buy.askPrice.value > 0.0
    && p.sell.executable && p.sell.bidPrice.Some? && p.sell.bidPrice.value > 0.0
  }

  /** The figures the margin gates compare, times the ask price. */
  predicate GrossEnough(p: Pair, policy: Policy)
    requires Quotable(p)
  {
    (p.sell.bidPrice.value - p.buy.askPrice.value) * 100.0 >= policy.minimumSpreadPercent * p.buy.askPrice.value
  }

  predicate NetEnough(ports: Ports, p: Pair, policy: Policy)
    requires Quotable(p)
  {
    var ask, bid := p.buy.askPrice.value, p.sell.bidPrice.value;
    var buyFee, sellFee := ports.takerFeePercent(NormExchange(p.buy.exchange), p.market),
                           ports.takerFeePercent(NormExchange(p.sell.exchange), p.market);
    && buyFee.Some? && sellFee.Some?
    && (bid - bid * sellFee.value / 100.0 - ask - ask * buyFee.value / 100.0) * 100.0
       >= policy.minimumNetProfitPercent * ask
  }

  lemma PercentAtLeast(part: real, whole: real, least: real)
    requires whole > 0.0
    ensures PercentOf(part, whole) >= least <==> part * 100.0 >= least * whole
  {
    PercentSign(part, whole);
    if PercentOf(part, whole) >= least {
      ScaleAtMost(least, PercentOf(part, whole), whole);
    } else {
      ScaleLess(PercentOf(part, whole), least, whole);
    }
  }

  lemma ScaleLess(a: real, b: real, c: real)
    requires a < b && c > 0.0
    ensures a * c < b * c
  {
  }

  lemma GrossExactly(p: Pair, policy: Policy)
    requires Quotable(p)
    ensures RawSpreadPercent(p) >= policy.minimumSpreadPercent <==> GrossEnough(p, policy)
  {
    PercentAtLeast(p.sell.bidPrice.value - p.buy.askPrice.value, p.buy.askPrice.value, policy.minimumSpreadPercent);
  }

  lemma NetExactly(ports: Ports, p: Pair, policy: Policy)
    requires EvaluatePair(ports, p).Priced?
    ensures Quotable(p)
    ensures EvaluatePair(ports, p).evaluation.netProfitPercent >= policy.minimumNetProfitPercent
            <==> NetEnough(ports, p, policy)
  {
    PricedIsEconomics(ports, p);
    var e, ask, bid := EvaluatePair(ports, p).evaluation, p.buy.askPrice.value, p.sell.bidPrice.value;
    var buyFee, sellFee := BuyFee(ports, p).value, SellFee(ports, p).value;
    PercentAtLeast(e.netProfit, ask, policy.minimumNetProfitPercent);
    assert e.netProfit == bid - bid * sellFee / 100.0 - ask - ask * buyFee / 100.0;
  }

  /** Both sides name a quantity. */
  predicate Sizable(p: Pair) {
    p.buy.askQty.Some? && p.buy.askQty.value > 0.0 && p.sell.bidQty.Some? && p.sell.bidQty.value > 0.0
  }

  predicate AllFresh(ports: Ports, p: Pair) {
    ports.freshness(p).buy && ports.freshness(p).sell && ports.freshness(p).synchronized
  }

  predicate FeesKnown(ports: Ports, p: Pair) {
    && ports.takerFeePercent(NormExchange(p.buy.exchange), p.market).Some?
    && ports.takerFeePercent(NormExchange(p.sell.exchange), p.market).Some?
  }

  /** What the services and the quotes must say of a pair, its capital and its analysis apart. */
  predicate Promising(ports: Ports, policy: Policy, p: Pair) {
    && AllFresh(ports, p) && Quotable(p) && FeesKnown(ports, p) && Sizable(p)
    && GrossEnough(p, policy) && NetEnough(ports, p, policy)
  }

  lemma AcceptedIsPromising(ports: Ports, policy: Policy, cache: CapitalCache, p: Pair)
    requires Judge(ports, policy, cache, p).0.Accepted?
    ensures Promising(ports, policy, p)
  {
    EvaluatorSaysExactly(ports, p);
    AcceptedIsPriced(ports, policy, cache, p);
    GrossExactly(p, policy);
    NetExactly(ports, p, policy);
  }

  /**
    A pair is accepted exactly when both quotes are fresh and synchronized, it can be traded, both fees are
    known, the gross and the net margin meet the policy, both sides name a quantity, its quote capital is
    known and the analysis of it finds nothing wrong.
   */
  lemma AcceptedExactly(ports: Ports, policy: Policy, cache: CapitalCache, p: Pair)
    requires PositiveCapital(cache)
    ensures Judge(ports, policy, cache, p).0.Accepted? <==>
            && Promising(ports, policy, p)
            && var capital := ReferenceCapital(ports, cache, p, policy.referenceCapital).0;
            && capital.Some?
            && var found := ports.analyze(p, EvaluatePair(ports, p).evaluation, capital.value);
               found.liquidity && found.freshness && found.fees && found.spread && found.quoteIntegrity
  {
    EvaluatorSaysExactly(ports, p);
    CapitalStaysPositive(ports, cache, p, policy.referenceCapital);
    if Quotable(p) {
      GrossExactly(p, policy);
    }
    var capital := ReferenceCapital(ports, cache, p, policy.referenceCapital).0;
    if EvaluatePair(ports, p).Priced? {
      NetExactly(ports, p, policy);
      if Sizable(p) && capital.Some? {
        QuotientPositive(capital.value, p.buy.askPrice.value);
      }
    }
  }

  /** The other verdicts: what stops a pair first. */
  lemma StoppedExactly(ports: Ports, policy: Policy, cache: CapitalCache, p: Pair)
    requires PositiveCapital(cache) && Quotable(p)
    ensures var v := Judge(ports, policy, cache, p).0;
            var ask, bid := p.buy.askPrice.value, p.sell.bidPrice.value;
            && (v == Silent <==> !GrossEnough(p, policy) && bid <= ask)
            && (v == LowSpread <==> !GrossEnough(p, policy) && bid > ask)
            && (v.EvaluatorSays? <==> GrossEnough(p, policy) && !(AllFresh(ports, p) && FeesKnown(ports, p)))
            && (v.EvaluatorSays? ==> EvaluatePair(ports, p) == Refused(v.code))
            && (v == EngineSays(InvalidMarketData) <==>
                  GrossEnough(p, policy) && AllFresh(ports, p) && FeesKnown(ports, p) && !Sizable(p))
            && (v == EngineSays(NetProfitBelowMinimum) <==>
                  GrossEnough(p, policy) && AllFresh(ports, p) && FeesKnown(ports, p) && Sizable(p)
                  && !NetEnough(ports, p, policy))
            && (v == EngineSays(CapitalConversionUnavailable) <==>
                  GrossEnough(p, policy) && AllFresh(ports, p) && FeesKnown(ports, p) && Sizable(p)
                  && NetEnough(ports, p, policy) && ReferenceCapital(ports, cache, p, policy.referenceCapital).0.None?)
  {
    EvaluatorSaysExactly(ports, p);
    GrossExactly(p, policy);
    PercentSign(p.sell.bidPrice.value - p.buy.askPrice.value, p.buy.askPrice.value);
    var capital := ReferenceCapital(ports, cache, p, policy.referenceCapital).0;
    CapitalStaysPositive(ports, cache, p, policy.referenceCapital);
    if EvaluatePair(ports, p).Priced? {
      NetExactly(ports, p, policy);
      if Sizable(p) && capital.Some? {
        QuotientPositive(capital.value, p.buy.askPrice.value);
      }
    }
  }

  /** The first failing part of an analysis, in this order, names the rejection. */
  lemma FirstFailureNames(a: Analysis)
    ensures PrimaryRejection(a) == QuoteIntegrityFailed <==> !a.quoteIntegrity
    ensures PrimaryRejection(a) == StaleExecutionQuotes <==> a.quoteIntegrity && !a.freshness
    ensures PrimaryRejection(a) == UnacceptableFees <==> a.quoteIntegrity && a.freshness && !a.fees
    ensures PrimaryRejection(a) == UnacceptableSpread <==> a.quoteIntegrity && a.freshness && a.fees && !a.spread
    ensures PrimaryRejection(a) == InsufficientLiquidity <==>
            a.quoteIntegrity && a.freshness && a.fees && a.spread && !a.liquidity
  {
  }

  /** On pairs the generator makes, prices and quantities are never the reason. */
  lemma GeneratedPairsAreSound(ports: Ports, policy: Policy, cache: CapitalCache, p: Pair)
    requires Tradable(p)
    ensures var v := Judge(ports, policy, cache, p).0;
            v != EvaluatorSays(PriceResolutionFailed) && v != EngineSays(InvalidMarketData)
  {
  }

  /** What an accepted opportunity promises a trader, in terms of the two quotes and the fees asked for. */
  ghost predicate Pays(ports: Ports, policy: Policy, o: Opportunity) {
    && ValidTop(o.pair)
    && var ask, bid := o.pair.buy.askPrice.value, o.pair.sell.bidPrice.value;
    && var buyFee, sellFee := BuyFee(ports, o.pair), SellFee(ports, o.pair);
    && buyFee.Some? && sellFee.Some?
    && (bid - ask) * 100.0 >= policy.minimumSpreadPercent * ask
    && (bid * (1.0 - sellFee.value / 100.0) - ask * (1.0 + buyFee.value / 100.0)) * 100.0
       >= policy.minimumNetProfitPercent * ask
    && 0.0 < o.executableQty <= o.pair.buy.askQty.value && o.executableQty <= o.pair.sell.bidQty.value
    && o.executableQty * ask <= o.quoteCapital
  }

  lemma ScaleAtMost(a: real, b: real, c: real)
    requires a <= b && c > 0.0
    ensures a * c <= b * c
  {
  }

  lemma NetOfFees(ask: real, bid: real, buyFee: real, sellFee: real)
    requires ask > 0.0
    ensures var e := Economics(ask, bid, buyFee, sellFee);
            && e.rawSpread == bid - ask && e.fees == ask * buyFee / 100.0 + bid * sellFee / 100.0
            && e.netProfit == e.rawSpread - e.fees
            && e.rawSpreadPercent * ask == (bid - ask) * 100.0
            && e.netProfitPercent * ask == (bid * (1.0 - sellFee / 100.0) - ask * (1.0 + buyFee / 100.0)) * 100.0
  {
    var e := Economics(ask, bid, buyFee, sellFee);
    PercentSign(bid - ask, ask);
    PercentSign(e.netProfit, ask);
    var b, s := buyFee / 100.0, sellFee / 100.0;
    assert e.netProfit == bid * (1.0 - s) - ask * (1.0 + b);
  }

  function BuyFee(ports: Ports, p: Pair): Option<real> { ports.takerFeePercent(NormExchange(p.buy.exchange), p.market) }

  function SellFee(ports: Ports, p: Pair): Option<real> {
    ports.takerFeePercent(NormExchange(p.sell.exchange), p.market)
  }

  lemma PricedIsEconomics(ports: Ports, p: Pair)
    requires EvaluatePair(ports, p).Priced?
    ensures BuyFee(ports, p).Some? && SellFee(ports, p).Some? && HasPrices(p)
    ensures EvaluatePair(ports, p).evaluation ==
            Economics(p.buy.askPrice.value, p.sell.bidPrice.value, BuyFee(ports, p).value, SellFee(ports, p).value)
  {
  }

  lemma AcceptedIsPriced(ports: Ports, policy: Policy, cache: CapitalCache, p: Pair)
    requires Judge(ports, policy, cache, p).0.Accepted?
    ensures var o := Judge(ports, policy, cache, p).0.opportunity;
            && o.pair == p && ValidTop(p) && EvaluatePair(ports, p) == Priced(o.evaluation)
            && o.evaluation.rawSpreadPercent >= policy.minimumSpreadPercent
            && o.evaluation.netProfitPercent >= policy.minimumNetProfitPercent
            && ReferenceCapital(ports, cache, p, policy.referenceCapital).0 == Some(o.quoteCapital)
            && o.requiredQty == o.quoteCapital / p.buy.askPrice.value
            && o.executableQty == MinReal(o.requiredQty, MinReal(p.buy.askQty.value, p.sell.bidQty.value))
  {
  }

  lemma AcceptedPays(ports: Ports, policy: Policy, cache: CapitalCache, p: Pair)
    requires PositiveCapital(cache)
    requires Judge(ports, policy, cache, p).0.Accepted?
    ensures var o := Judge(ports, policy, cache, p).0.opportunity;
            o.pair == p && Pays(ports, policy, o)
  {
    AcceptedIsPriced(ports, policy, cache, p);
    PricedIsEconomics(ports, p);
    CapitalStaysPositive(ports, cache, p, policy.referenceCapital);
    PaysOff(ports, policy, Judge(ports, policy, cache, p).0.opportunity);
  }

  lemma PaysOff(ports: Ports, policy: Policy, o: Opportunity)
    requires ValidTop(o.pair) && BuyFee(ports, o.pair).Some? && SellFee(ports, o.pair).Some?
    requires o.evaluation == Economics(o.pair.buy.askPrice.value, o.pair.sell.bidPrice.value,
                                       BuyFee(ports, o.pair).value, SellFee(ports, o.pair).value)
    requires o.evaluation.rawSpreadPercent >= policy.minimumSpreadPercent
    requires o.evaluation.netProfitPercent >= policy.minimumNetProfitPercent
    requires o.quoteCapital > 0.0 && o.requiredQty == o.quoteCapital / o.pair.buy.askPrice.value
    requires o.executableQty == MinReal(o.requiredQty, MinReal(o.pair.buy.askQty.value, o.pair.sell.bidQty.value))
    ensures Pays(ports, policy, o)
  {
    var ask := o.pair.buy.askPrice.value;
    NetOfFees(ask, o.pair.sell.bidPrice.value, BuyFee(ports, o.pair).value, SellFee(ports, o.pair).value);
    ScaleAtMost(policy.minimumSpreadPercent, o.evaluation.rawSpreadPercent, ask);
    ScaleAtMost(policy.minimumNetProfitPercent, o.evaluation.netProfitPercent, ask);
    QuotientPositive(o.quoteCapital, ask);
    ScaleAtMost(o.executableQty, o.requiredQty, ask);
  }
}
