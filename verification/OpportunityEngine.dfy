/**
  The opportunity engine and evaluator as they run: gates in order, each bumping its counter and
  recording its rejection, and the scan that drives them over a list of quotes.
 */
module OpportunityEngine {
  import opened Wrappers
  import opened InsertionMap
  import opened CacheCore
  import opened PairScan
  import opened OpportunityRules
  import opened CapitalCaching
  import opened ScanLedger
  import opened ScanResults

  function Listed(o: Option<Opportunity>): seq<Opportunity> { if o.None? then [] else [o.value] }

  lemma EvaluatorRefusalCounts(c: EngineCounts, code: Code)
    ensures CountOutcome(c, EvaluatorSays(code)) == c.(evaluatorRejected := c.evaluatorRejected + 1)
  {
  }

  /** All verdicts past the evaluator are one to its counters. */
  lemma QualifiedCounts(ports: Ports, policy: Policy, cache: CapitalCache, pair: Pair, e: Evaluation,
                        c: EvaluatorCounts)
    ensures CountEvaluator(c, Qualify(ports, policy, cache, pair, e).0)
            == CountEvaluator(c, EngineSays(InvalidMarketData))
  {
  }

  class Engine {
    var counts: EngineCounts
    var evaluator: EvaluatorCounts
    var store: seq<Rejection>
    var capital: CapitalCache

    constructor ()
      ensures Now() == FRESH
    {
      counts, evaluator, store, capital := NO_ENGINE_COUNTS, NO_EVALUATOR_COUNTS, [], map[];
    }

    ghost function Now(): State
      reads this
    {
      State(counts, evaluator, store, capital)
    }

    method RecordPreFilteredNonPositiveSpreads(count: int)
      modifies `counts
      ensures Now() == if count > 0 then PreFiltered(old(Now()), count) else old(Now())
    {
      if count <= 0 {
        return;
      }
      counts := counts.(evaluated := counts.evaluated + count);
      counts := counts.(spreadRejected := counts.spreadRejected + count);
    }

    method Refuse(code: Code, pair: Pair) returns (result: Evaluated)
      modifies `store
      ensures result == Refused(code) && store == old(store) + [Rejection(code, pair, None)]
    {
      store := store + [Rejection(code, pair, None)];
      result := Refused(code);
    }

    /** What a refusal or an acceptance does to the evaluator's counters, `evaluated` apart. */
    ghost predicate EvaluatorBooks(result: Evaluated, pair: Pair, before: EvaluatorCounts, recorded: seq<Rejection>)
      reads `evaluator, `store
    {
      match result
      case Refused(code) =>
        evaluator.(evaluated := before.evaluated + 1) == CountEvaluator(before, EvaluatorSays(code))
        && store == recorded + [Rejection(code, pair, None)]
      case Priced(_) => evaluator == before.(accepted := before.accepted + 1) && store == recorded
    }

    method EvaluatePrices(ports: Ports, pair: Pair, prices: Prices) returns (result: Evaluated)
      modifies `evaluator, `store
      ensures result == PricedAt(ports, pair, prices)
      ensures evaluator.evaluated == old(evaluator.evaluated)
      ensures EvaluatorBooks(result, pair, old(evaluator), old(store))
    {
      if prices.buy <= 0.0 {
        evaluator := evaluator.(invalidBuy := evaluator.invalidBuy + 1);
        result := Refuse(InvalidBuyPrice, pair);
        return;
      }
      if prices.sell <= 0.0 {
        evaluator := evaluator.(invalidSell := evaluator.invalidSell + 1);
        result := Refuse(InvalidSellPrice, pair);
        return;
      }
      var buyFee, sellFee := BuyFee(ports, pair), SellFee(ports, pair);
      if buyFee.None? {
        evaluator := evaluator.(buyFee := evaluator.buyFee + 1);
        result := Refuse(BuyFeeMissing, pair);
        return;
      }
      if sellFee.None? {
        evaluator := evaluator.(sellFee := evaluator.sellFee + 1);
        result := Refuse(SellFeeMissing, pair);
        return;
      }
      evaluator := evaluator.(accepted := evaluator.accepted + 1);
      result := Priced(Economics(prices.buy, prices.sell, buyFee.value, sellFee.value));
    }

    method EvaluatorEvaluate(ports: Ports, pair: Pair) returns (result: Evaluated)
      modifies `evaluator, `store
      ensures result == EvaluatePair(ports, pair)
      ensures evaluator
              == CountEvaluator(old(evaluator), if result.Refused? then EvaluatorSays(result.code)
                                else EngineSays(InvalidMarketData))
      ensures store == old(store) + if result.Refused? then [Rejection(result.code, pair, None)] else []
    {
      evaluator := evaluator.(evaluated := evaluator.evaluated + 1);
      var seen := ports.freshness(pair);
      if !seen.buy && !seen.sell {
        evaluator := evaluator.(staleBoth := evaluator.staleBoth + 1);
        result := Refuse(StaleBothQuotes, pair);
        return;
      }
      if !seen.buy {
        evaluator := evaluator.(staleBuy := evaluator.staleBuy + 1);
        result := Refuse(StaleBuyQuote, pair);
        return;
      }
      if !seen.sell {
        evaluator := evaluator.(staleSell := evaluator.staleSell + 1);
        result := Refuse(StaleSellQuote, pair);
        return;
      }
      if !seen.synchronized {
        evaluator := evaluator.(synchronization := evaluator.synchronization + 1);
        result := Refuse(PairNotSynchronized, pair);
        return;
      }
      var prices := ResolvePrices(pair);
      if prices.None? {
        evaluator := evaluator.(priceResolution := evaluator.priceResolution + 1);
        result := Refuse(PriceResolutionFailed, pair);
        return;
      }
      result := EvaluatePrices(ports, pair, prices.value);
    }

    /**
      The capital for a pair in its quote asset: a conversion at most 250 ms old and not expired is used
      again, anything else is converted anew, and a crowded cache loses only expired entries.
     */
    method ResolveReferenceCapital(ports: Ports, pair: Pair, requested: real) returns (quoteCapital: Option<real>)
      modifies `capital
      ensures (quoteCapital, capital) == ReferenceCapital(ports, old(capital), pair, requested)
      ensures var r := Request(ports, pair, requested);
              && (forall k :: k in capital ==>
                    (k in old(capital) && capital[k] == old(capital)[k]) || MadeBy(r, k, capital[k]))
              && (forall k :: k in Renewed(old(capital), r) && k !in capital ==>
                    Renewed(old(capital), r)[k].expiresAt <= ports.now)
      ensures quoteCapital.Some? && Asset(Request(ports, pair, requested)) != Some("INR") ==>
                var r := Request(ports, pair, requested);
                && Asset(r).Some?
                && var key := (Asset(r).value, requested);
                   || (UsableCapital(old(capital), key, ports.now)
                       && old(capital)[key].quoteCapital == quoteCapital.value)
                   || (Converted(r).Some? && Converted(r).value.quantity == quoteCapital.value > 0.0)
    {
      RespondTouches(capital, Request(ports, pair, requested));
      quoteCapital := LookUpCapital(ports, pair, requested);
    }

    method LookUpCapital(ports: Ports, pair: Pair, requested: real) returns (quoteCapital: Option<real>)
      modifies `capital
      ensures (quoteCapital, capital) == ReferenceCapital(ports, old(capital), pair, requested)
    {
      var asset := SharedQuoteAsset(ports, pair);
      if asset.None? || requested <= 0.0 {
        return None;
      }
      if asset.value == "INR" {
        return Some(requested);
      }
      var key := (asset.value, requested);
      if key in capital && ports.now - capital[key].generatedAt <= 250 && capital[key].expiresAt > ports.now {
        return Some(capital[key].quoteCapital);
      }
      var conversion := ports.convert(asset.value, requested);
      if conversion.None? || conversion.value.quantity <= 0.0 {
        return None;
      }
      capital := capital[key := Capital(conversion.value.quantity, ports.now, conversion.value.expiresAt)];
      if |capital| > 32 {
        capital := map k | k in capital && capital[k].expiresAt > ports.now :: capital[k];
      }
      return Some(conversion.value.quantity);
    }

    /** Books an engine-level rejection: the counter is bumped by the caller. */
    method Reject(code: Code, pair: Pair, analysis: Option<Analysis>, ghost verdict: Verdict)
      returns (opportunity: Option<Opportunity>)
      requires Recorded(verdict, pair) == [Rejection(code, pair, analysis)] && Found(verdict) == []
      modifies `store
      ensures store == old(store) + Recorded(verdict, pair) && Listed(opportunity) == Found(verdict)
    {
      store := store + [Rejection(code, pair, analysis)];
      opportunity := None;
    }

    method SizeAndAnalyse(ports: Ports, pair: Pair, e: Evaluation, quoteCapital: real, buyPrice: real, buyQty: real,
                          sellQty: real)
      returns (opportunity: Option<Opportunity>, ghost verdict: Verdict)
      requires buyPrice > 0.0
      modifies `counts, `store
      ensures verdict == Sized(ports, pair, e, quoteCapital, buyPrice, buyQty, sellQty)
      ensures counts == CountOutcome(old(counts), verdict)
      ensures store == old(store) + Recorded(verdict, pair) && Listed(opportunity) == Found(verdict)
    {
      var requiredQty := quoteCapital / buyPrice;
      verdict := Sized(ports, pair, e, quoteCapital, buyPrice, buyQty, sellQty);
      if requiredQty <= 0.0 {
        counts := counts.(quantityRejected := counts.quantityRejected + 1);
        opportunity := Reject(InvalidRequiredQuantity, pair, None, verdict);
        return;
      }
      var availableQty := MinReal(buyQty, sellQty);
      if availableQty <= 0.0 {
        counts := counts.(quantityRejected := counts.quantityRejected + 1);
        opportunity := Reject(InvalidExecutableQuantity, pair, None, verdict);
        return;
      }
      var executableQty := MinReal(requiredQty, availableQty);
      var analysis := ports.analyze(pair, e, quoteCapital);
      if !analysis.liquidity {
        counts := counts.(liquidityRejected := counts.liquidityRejected + 1);
      }
      if !analysis.freshness {
        counts := counts.(freshnessRejected := counts.freshnessRejected + 1);
      }
      if !analysis.fees {
        counts := counts.(feeRejected := counts.feeRejected + 1);
      }
      if !analysis.spread {
        counts := counts.(spreadAnalysisRejected := counts.spreadAnalysisRejected + 1);
      }
      if !analysis.quoteIntegrity {
        counts := counts.(quoteIntegrityRejected := counts.quoteIntegrityRejected + 1);
      }
      if !analysis.Executable() {
        opportunity := Reject(PrimaryRejection(analysis), pair, Some(analysis), verdict);
        return;
      }
      counts := counts.(accepted := counts.accepted + 1);
      opportunity := Some(Opportunity(pair, e, quoteCapital, requiredQty, executableQty));
    }

    /** The gates after the evaluator, for whatever evaluation it gave. */
    method QualifyPair(ports: Ports, policy: Policy, pair: Pair, e: Evaluation)
      returns (opportunity: Option<Opportunity>, ghost verdict: Verdict)
      modifies `counts, `store, `capital
      ensures (verdict, capital) == Qualify(ports, policy, old(capital), pair, e)
      ensures counts == CountOutcome(old(counts), verdict)
      ensures store == old(store) + Recorded(verdict, pair) && Listed(opportunity) == Found(verdict)
    {
      if !ValidTop(pair) {
        verdict := EngineSays(InvalidMarketData);
        counts := counts.(invalidMarketData := counts.invalidMarketData + 1);
        opportunity := Reject(InvalidMarketData, pair, None, verdict);
        return;
      }
      if e.rawSpreadPercent < policy.minimumSpreadPercent {
        verdict := EngineSays(SpreadBelowMinimum);
        counts := counts.(spreadRejected := counts.spreadRejected + 1);
        opportunity := Reject(SpreadBelowMinimum, pair, None, verdict);
        return;
      }
      if e.netProfitPercent < policy.minimumNetProfitPercent {
        verdict := EngineSays(NetProfitBelowMinimum);
        counts := counts.(netProfitRejected := counts.netProfitRejected + 1);
        opportunity := Reject(NetProfitBelowMinimum, pair, None, verdict);
        return;
      }
      opportunity, verdict := QualifyAtCapital(ports, policy, pair, e);
    }

    method QualifyAtCapital(ports: Ports, policy: Policy, pair: Pair, e: Evaluation)
      returns (opportunity: Option<Opportunity>, ghost verdict: Verdict)
      requires ValidTop(pair)
      modifies `counts, `store, `capital
      ensures (verdict, capital) == QualifyCapital(ports, policy, old(capital), pair, e)
      ensures counts == CountOutcome(old(counts), verdict)
      ensures store == old(store) + Recorded(verdict, pair) && Listed(opportunity) == Found(verdict)
    {
      var quoteCapital := ResolveReferenceCapital(ports, pair, policy.referenceCapital);
      if quoteCapital.None? {
        verdict := EngineSays(CapitalConversionUnavailable);
        counts := counts.(quantityRejected := counts.quantityRejected + 1);
        opportunity := Reject(CapitalConversionUnavailable, pair, None, verdict);
        return;
      }
      opportunity, verdict :=
        SizeAndAnalyse(ports, pair, e, quoteCapital.value, pair.buy.askPrice.value, pair.buy.askQty.value,
                       pair.sell.bidQty.value);
    }

    /** Everything after the spread floor. */
    method EvaluateAboveFloor(ports: Ports, policy: Policy, pair: Pair)
      returns (opportunity: Option<Opportunity>, ghost verdict: Verdict)
      modifies this
      ensures (verdict, capital) == JudgeAboveFloor(ports, policy, old(capital), pair)
      ensures counts == CountOutcome(old(counts), verdict)
      ensures evaluator == CountEvaluator(old(evaluator), verdict)
      ensures store == old(store) + Recorded(verdict, pair) && Listed(opportunity) == Found(verdict)
    {
      var result := EvaluatorEvaluate(ports, pair);
      if result.Refused? {
        verdict := EvaluatorSays(result.code);
        EvaluatorRefusalCounts(counts, result.code);
        counts := counts.(evaluatorRejected := counts.evaluatorRejected + 1);
        return None, verdict;
      }
      opportunity, verdict := QualifyPair(ports, policy, pair, result.evaluation);
      QualifiedCounts(ports, policy, old(capital), pair, result.evaluation, old(evaluator));
    }

    /** Below the floor a positive spread is kept as a near miss; the others leave no record. */
    method RejectLowSpread(pair: Pair, spreadPercent: real) returns (ghost verdict: Verdict)
      modifies `counts, `store
      ensures verdict == if spreadPercent > 0.0 then LowSpread else Silent
      ensures counts == old(counts).(spreadRejected := old(counts.spreadRejected) + 1)
      ensures store == old(store) + Recorded(verdict, pair)
    {
      verdict := if spreadPercent > 0.0 then LowSpread else Silent;
      counts := counts.(spreadRejected := counts.spreadRejected + 1);
      if spreadPercent > 0.0 {
        store := store + [Rejection(SpreadBelowMinimum, pair, None)];
      }
    }

    method Evaluate(ports: Ports, policy: Policy, pair: Pair) returns (opportunity: Option<Opportunity>)
      modifies this
      ensures (Now(), Listed(opportunity)) == Step(ports, policy, old(Now()), pair)
    {
      ghost var verdict;
      opportunity, verdict := RunGates(ports, policy, pair);
      assert Now() == Booked(old(Now()), verdict, pair, capital);
    }

    method RunGates(ports: Ports, policy: Policy, pair: Pair)
      returns (opportunity: Option<Opportunity>, ghost verdict: Verdict)
      modifies this
      ensures (verdict, capital) == Judge(ports, policy, old(capital), pair)
      ensures counts == CountEngine(old(counts), verdict) && evaluator == CountEvaluator(old(evaluator), verdict)
      ensures store == old(store) + Recorded(verdict, pair) && Listed(opportunity) == Found(verdict)
    {
      counts := counts.(evaluated := counts.evaluated + 1);
      if HasPrices(pair) && RawSpreadPercent(pair) < policy.minimumSpreadPercent {
        verdict := RejectLowSpread(pair, RawSpreadPercent(pair));
        return None, verdict;
      }
      opportunity, verdict := EvaluateAboveFloor(ports, policy, pair);
    }

    /** The hot path over one snapshot list: count what cannot gain, evaluate the rest. */
    method ScanSnapshots(ports: Ports, policy: Policy, snapshots: seq<Snapshot>) returns (found: seq<Opportunity>)
      modifies this
      ensures (Now(), found) == ScanGaining(EngineOf(ports, policy), old(Now()), snapshots)
    {
      found := [];
      for i := 0 to |snapshots|
        invariant (Now(), found) == ScanGaining(EngineOf(ports, policy), old(Now()), snapshots[..i])
      {
        assert snapshots[..i + 1][..i] == snapshots[..i];
        var more := ScanSnapshot(ports, policy, snapshots[i]);
        found := found + more;
      }
      assert snapshots[..|snapshots|] == snapshots;
    }

    method ScanSnapshot(ports: Ports, policy: Policy, snapshot: Snapshot) returns (found: seq<Opportunity>)
      modifies this
      ensures (Now(), found) == EvaluateGaining(EngineOf(ports, policy), old(Now()), TradablePairs(snapshot))
    {
      var batch := GeneratePositiveSpreadCandidates(snapshot);
      RecordPreFilteredNonPositiveSpreads(batch.nonPositiveSpreadPairs);
      ghost var start := Now();
      assert start == PreFiltered(old(Now()), batch.nonPositiveSpreadPairs);
      found := [];
      for j := 0 to |batch.pairs|
        invariant (Now(), found) == EvaluateAll(EngineOf(ports, policy), start, batch.pairs[..j])
      {
        assert batch.pairs[..j + 1][..j] == batch.pairs[..j];
        var opportunity := Evaluate(ports, policy, batch.pairs[j]);
        if opportunity.Some? {
          found := found + [opportunity.value];
        } else {
          assert found + [] == found;
        }
      }
      assert batch.pairs[..|batch.pairs|] == batch.pairs;
    }

    /**
      The scanner's path over the cache's quotes, under the default policy. On normalised quotes it
      leaves every counter, record and accepted opportunity as grouping the admitted quotes the careful
      way and evaluating every pair would.
     */
    method Scan(ports: Ports, quotes: seq<Quote>, eligible: set<string>) returns (found: seq<Opportunity>)
      modifies this
      ensures var engine, groups := EngineOf(ports, DEFAULT_POLICY), Values(Group(Admitted(quotes, eligible)));
              var scanned := ScanGaining(engine, old(Now()), groups);
              Now() == scanned.0 && found == Ranked(scanned.1)
      ensures AllNormalised(quotes) ==>
                var engine, groups :=
                  EngineOf(ports, DEFAULT_POLICY), Values(Group(Cleaned(Admitted(quotes, eligible))));
                var scanned := ScanAll(engine, old(Now()), groups);
                Now() == scanned.0 && found == Ranked(scanned.1)
      ensures BestFirst(found)
      ensures forall o :: o in found ==>
                && Trades(Admitted(quotes, eligible), o.pair) && Promising(ports, DEFAULT_POLICY, o.pair)
                && Admits(eligible, o.pair.buy) && Admits(eligible, o.pair.sell)
    {
      var cached := Admitted(quotes, eligible);
      var snapshots := GroupNormalizedExecutableByMarket(cached);
      var unranked := ScanSnapshots(ports, DEFAULT_POLICY, snapshots);
      found := Ranked(unranked);
      RankedIsBestFirst(unranked);
      forall o | o in found
        ensures Trades(cached, o.pair) && Promising(ports, DEFAULT_POLICY, o.pair)
        ensures Admits(eligible, o.pair.buy) && Admits(eligible, o.pair.sell)
      {
        assert o in multiset(found);
        FoundTrade(ports, DEFAULT_POLICY, old(Now()), quotes, eligible, o);
      }
      DefaultScansAgree(ports, old(Now()), snapshots);
      if AllNormalised(quotes) {
        AdmittedAreNormalised(quotes, eligible);
        GroupingsAgreeExactly(cached);
      }
    }
  }
}
