/**
  How verdicts are booked into counters and rejection records over a scan, and why scanning only
  the pairs that gain, with the others merely counted, books the same as scanning every pair.
 */
module ScanLedger {
  import opened Wrappers
  import opened PairScan
  import opened OpportunityRules

  datatype EngineCounts = EngineCounts(
    evaluated: nat, evaluatorRejected: nat, invalidMarketData: nat, spreadRejected: nat, netProfitRejected: nat,
    quantityRejected: nat, liquidityRejected: nat, freshnessRejected: nat, feeRejected: nat,
    spreadAnalysisRejected: nat, quoteIntegrityRejected: nat, accepted: nat)

  datatype EvaluatorCounts = EvaluatorCounts(
    evaluated: nat, staleBuy: nat, staleSell: nat, staleBoth: nat, synchronization: nat, priceResolution: nat,
    buyFee: nat, sellFee: nat, invalidBuy: nat, invalidSell: nat, accepted: nat)

  datatype State = State(engine: EngineCounts, evaluator: EvaluatorCounts, store: seq<Rejection>, capital: CapitalCache)

  const NO_ENGINE_COUNTS := EngineCounts(0, 0, 0, 0, 0, 0, 0, 0, 0, 0, 0, 0)
  const NO_EVALUATOR_COUNTS := EvaluatorCounts(0, 0, 0, 0, 0, 0, 0, 0, 0, 0, 0)
  const FRESH := State(NO_ENGINE_COUNTS, NO_EVALUATOR_COUNTS, [], map[])

  // ---- booking ----

  predicate Analysed(v: Verdict) { v.AnalysisSays? || v.Accepted? }

  predicate ReachedEvaluator(v: Verdict) { !v.Silent? && !v.LowSpread? }

  predicate QuantityCode(c: Code) {
    c == CapitalConversionUnavailable || c == InvalidRequiredQuantity || c == InvalidExecutableQuantity
  }

  /** What a verdict adds, `evaluated` apart. */
  function CountOutcome(c: EngineCounts, v: Verdict): EngineCounts {
    EngineCounts(
      c.evaluated,
      c.evaluatorRejected + One(v.EvaluatorSays?),
      c.invalidMarketData + One(v == EngineSays(InvalidMarketData)),
      c.spreadRejected + One(!ReachedEvaluator(v) || v == EngineSays(SpreadBelowMinimum)),
      c.netProfitRejected + One(v == EngineSays(NetProfitBelowMinimum)),
      c.quantityRejected + One(v.EngineSays? && QuantityCode(v.code)),
      c.liquidityRejected + One(Analysed(v) && !v.analysis.liquidity),
      c.freshnessRejected + One(Analysed(v) && !v.analysis.freshness),
      c.feeRejected + One(Analysed(v) && !v.analysis.fees),
      c.spreadAnalysisRejected + One(Analysed(v) && !v.analysis.spread),
      c.quoteIntegrityRejected + One(Analysed(v) && !v.analysis.quoteIntegrity),
      c.accepted + One(v.Accepted?))
  }

  function CountEngine(c: EngineCounts, v: Verdict): EngineCounts {
    CountOutcome(c.(evaluated := c.evaluated + 1), v)
  }

  function CountEvaluator(c: EvaluatorCounts, v: Verdict): EvaluatorCounts {
    EvaluatorCounts(
      c.evaluated + One(ReachedEvaluator(v)),
      c.staleBuy + One(v == EvaluatorSays(StaleBuyQuote)),
      c.staleSell + One(v == EvaluatorSays(StaleSellQuote)),
      c.staleBoth + One(v == EvaluatorSays(StaleBothQuotes)),
      c.synchronization + One(v == EvaluatorSays(PairNotSynchronized)),
      c.priceResolution + One(v == EvaluatorSays(PriceResolutionFailed)),
      c.buyFee + One(v == EvaluatorSays(BuyFeeMissing)),
      c.sellFee + One(v == EvaluatorSays(SellFeeMissing)),
      c.invalidBuy + One(v == EvaluatorSays(InvalidBuyPrice)),
      c.invalidSell + One(v == EvaluatorSays(InvalidSellPrice)),
      c.accepted + One(ReachedEvaluator(v) && !v.EvaluatorSays?))
  }

  function RecordedCode(v: Verdict): Option<Code> {
    match v
    case Silent => None
    case LowSpread => Some(SpreadBelowMinimum)
    case EvaluatorSays(code) => Some(code)
    case EngineSays(code) => Some(code)
    case AnalysisSays(a) => Some(PrimaryRejection(a))
    case Accepted(_, _) => None
  }

  function Recorded(v: Verdict, p: Pair): seq<Rejection> {
    var code := RecordedCode(v);
    if code.None? then [] else [Rejection(code.value, p, if v.AnalysisSays? then Some(v.analysis) else None)]
  }

  function Found(v: Verdict): seq<Opportunity> { if v.Accepted? then [v.opportunity] else [] }

  function Booked(s: State, v: Verdict, p: Pair, capital: CapitalCache): State {
    State(CountEngine(s.engine, v), CountEvaluator(s.evaluator, v), s.store + Recorded(v, p), capital)
  }

  function Step(ports: Ports, policy: Policy, s: State, p: Pair): (State, seq<Opportunity>) {
    var (v, capital) := Judge(ports, policy, s.capital, p);
    (Booked(s, v, p, capital), Found(v))
  }

  /** `recordPreFilteredNonPositiveSpreads` */
  function PreFiltered(s: State, count: nat): State {
    s.(engine := s.engine.(evaluated := s.engine.evaluated + count, spreadRejected := s.engine.spreadRejected + count))
  }

  /** One engine call: what it makes of a state and of a pair. */
  type Engine<!S> = (S, Pair) -> (S, seq<Opportunity>)

  function EngineOf(ports: Ports, policy: Policy): Engine<State> { (s, p) => Step(ports, policy, s, p) }

  function EvaluateAll<S>(engine: Engine<S>, s: S, pairs: seq<Pair>): (S, seq<Opportunity>) {
    if pairs == [] then (s, [])
    else
      var (before, found) := EvaluateAll(engine, s, pairs[..|pairs| - 1]);
      var (after, more) := engine(before, pairs[|pairs| - 1]);
      (after, found + more)
  }

  // ---- the ledger ----

  /** What a verdict leaves behind: one record of the pair under its code, or none; one opportunity, or none. */
  lemma RecordedIs(v: Verdict, p: Pair)
    ensures v.Silent? || v.Accepted? ==> Recorded(v, p) == []
    ensures v.LowSpread? ==> Recorded(v, p) == [Rejection(SpreadBelowMinimum, p, None)]
    ensures v.EvaluatorSays? ==> Recorded(v, p) == [Rejection(v.code, p, None)]
    ensures v.EngineSays? ==> Recorded(v, p) == [Rejection(v.code, p, None)]
    ensures v.AnalysisSays? ==> Recorded(v, p) == [Rejection(PrimaryRejection(v.analysis), p, Some(v.analysis))]
    ensures Found(v) == if v.Accepted? then [v.opportunity] else []
  {
  }

  /** How many records of a code the store has been given. */
  function Coded(store: seq<Rejection>, code: Code): nat {
    if store == [] then 0 else Coded(store[..|store| - 1], code) + One(store[|store| - 1].code == code)
  }

  ghost predicate EvaluatorLedger(c: EvaluatorCounts, store: seq<Rejection>) {
    && c.staleBoth == Coded(store, StaleBothQuotes) && c.staleBuy == Coded(store, StaleBuyQuote)
    && c.staleSell == Coded(store, StaleSellQuote)
    && c.synchronization == Coded(store, PairNotSynchronized)
    && c.priceResolution == Coded(store, PriceResolutionFailed)
    && c.buyFee == Coded(store, BuyFeeMissing) && c.sellFee == Coded(store, SellFeeMissing)
    && c.invalidBuy == Coded(store, InvalidBuyPrice) == 0 && c.invalidSell == Coded(store, InvalidSellPrice) == 0
  }

  function EvaluatorRefusals(c: EvaluatorCounts): nat {
    c.staleBoth + c.staleBuy + c.staleSell + c.synchronization + c.priceResolution + c.buyFee + c.sellFee
  }

  ghost predicate EngineLedger(c: EngineCounts, store: seq<Rejection>) {
    && c.invalidMarketData == Coded(store, InvalidMarketData)
    && c.netProfitRejected == Coded(store, NetProfitBelowMinimum)
    && c.quantityRejected == Coded(store, CapitalConversionUnavailable)
    && c.spreadRejected >= Coded(store, SpreadBelowMinimum)
  }

  datatype Part = Liquidity | Timeliness | Fees | Spread | QuoteIntegrity

  predicate PartOk(a: Analysis, part: Part) {
    match part
    case Liquidity => a.liquidity
    case Timeliness => a.freshness
    case Fees => a.fees
    case Spread => a.spread
    case QuoteIntegrity => a.quoteIntegrity
  }

  /** How many records carry an analysis that failed the part; one record can fail several. */
  function FailedIn(store: seq<Rejection>, part: Part): nat {
    if store == [] then 0 else FailedIn(store[..|store| - 1], part) + One(Fails(store[|store| - 1].analysis, part))
  }

  predicate Fails(analysis: Option<Analysis>, part: Part) { analysis.Some? && !PartOk(analysis.value, part) }

  ghost predicate AnalysisLedger(c: EngineCounts, store: seq<Rejection>) {
    && c.liquidityRejected == FailedIn(store, Liquidity) && c.freshnessRejected == FailedIn(store, Timeliness)
    && c.feeRejected == FailedIn(store, Fees) && c.spreadAnalysisRejected == FailedIn(store, Spread)
    && c.quoteIntegrityRejected == FailedIn(store, QuoteIntegrity)
  }

  /** Every pair seen is accepted, recorded once, or silently dropped for a spread that does not gain. */
  ghost predicate Conserved(c: EngineCounts, e: EvaluatorCounts, recorded: nat, nearMisses: nat) {
    && e.evaluated == e.accepted + EvaluatorRefusals(e)
    && c.evaluatorRejected == EvaluatorRefusals(e)
    && c.evaluated == c.spreadRejected + e.evaluated
    && c.evaluated == c.accepted + recorded + (c.spreadRejected - nearMisses)
  }

  ghost predicate Ledger(s: State) {
    && EvaluatorLedger(s.evaluator, s.store) && EngineLedger(s.engine, s.store)
    && AnalysisLedger(s.engine, s.store)
    && Conserved(s.engine, s.evaluator, |s.store|, Coded(s.store, SpreadBelowMinimum)) && PositiveCapital(s.capital)
  }

  lemma {:induction false} CodeRecorded(store: seq<Rejection>, v: Verdict, p: Pair, code: Code)
    ensures Coded(store + Recorded(v, p), code) == Coded(store, code) + One(RecordedCode(v) == Some(code))
  {
    var after := store + Recorded(v, p);
    if RecordedCode(v).None? {
      assert after == store;
    } else {
      assert after[..|after| - 1] == store;
    }
  }

  predicate EvaluatorField(code: Code) { EvaluatorCode(code) || code == InvalidBuyPrice || code == InvalidSellPrice }

  predicate EngineField(code: Code) {
    code == InvalidMarketData || code == NetProfitBelowMinimum || code == CapitalConversionUnavailable
  }

  /** The records grow by the evaluator's refusal, if it is one. */
  ghost predicate RefusalAdded(before: seq<Rejection>, after: seq<Rejection>, v: Verdict) {
    forall code :: EvaluatorField(code) ==> Coded(after, code) == Coded(before, code) + One(v == EvaluatorSays(code))
  }

  ghost predicate EngineRejectionAdded(before: seq<Rejection>, after: seq<Rejection>, v: Verdict) {
    && (forall code :: EngineField(code) ==> Coded(after, code) == Coded(before, code) + One(v == EngineSays(code)))
    && Coded(after, SpreadBelowMinimum)
       == Coded(before, SpreadBelowMinimum) + One(RecordedCode(v) == Some(SpreadBelowMinimum))
  }

  ghost predicate RecordAdded(before: seq<Rejection>, after: seq<Rejection>, v: Verdict) {
    forall code :: Coded(after, code) == Coded(before, code) + One(RecordedCode(v) == Some(code))
  }

  lemma RecordedIsAdded(store: seq<Rejection>, v: Verdict, p: Pair)
    ensures RecordAdded(store, store + Recorded(v, p), v)
  {
    forall code ensures Coded(store + Recorded(v, p), code) == Coded(store, code) + One(RecordedCode(v) == Some(code)) {
      CodeRecorded(store, v, p, code);
    }
  }

  /** The evaluator's codes come from the evaluator alone, and the engine's from the engine alone. */
  lemma RejectionAdded(before: seq<Rejection>, after: seq<Rejection>, v: Verdict)
    requires Possible(v) && RecordAdded(before, after, v)
    ensures RefusalAdded(before, after, v) && EngineRejectionAdded(before, after, v)
  {
  }

  lemma EvaluatorLedgerKept(c: EvaluatorCounts, before: seq<Rejection>, after: seq<Rejection>, v: Verdict)
    requires EvaluatorLedger(c, before) && Possible(v) && RefusalAdded(before, after, v)
    ensures EvaluatorLedger(CountEvaluator(c, v), after)
  {
  }

  lemma EngineLedgerKept(c: EngineCounts, before: seq<Rejection>, after: seq<Rejection>, v: Verdict)
    requires EngineLedger(c, before) && Possible(v) && EngineRejectionAdded(before, after, v)
    ensures EngineLedger(CountEngine(c, v), after)
  {
  }

  lemma {:induction false} FailedRecorded(store: seq<Rejection>, v: Verdict, p: Pair, part: Part)
    ensures FailedIn(store + Recorded(v, p), part)
            == FailedIn(store, part) + One(v.AnalysisSays? && !PartOk(v.analysis, part))
  {
    var after := store + Recorded(v, p);
    if RecordedCode(v).None? {
      assert after == store;
    } else {
      assert after[..|after| - 1] == store;
    }
  }

  lemma AnalysisLedgerKept(c: EngineCounts, store: seq<Rejection>, v: Verdict, p: Pair)
    requires AnalysisLedger(c, store) && Possible(v)
    ensures AnalysisLedger(CountEngine(c, v), store + Recorded(v, p))
  {
    FailedRecorded(store, v, p, Liquidity);
    FailedRecorded(store, v, p, Timeliness);
    FailedRecorded(store, v, p, Fees);
    FailedRecorded(store, v, p, Spread);
    FailedRecorded(store, v, p, QuoteIntegrity);
  }

  lemma ConservationKept(c: EngineCounts, e: EvaluatorCounts, recorded: nat, nearMisses: nat, v: Verdict, p: Pair)
    requires Conserved(c, e, recorded, nearMisses) && Possible(v)
    ensures Conserved(CountEngine(c, v), CountEvaluator(e, v), recorded + |Recorded(v, p)|,
                      nearMisses + One(RecordedCode(v) == Some(SpreadBelowMinimum)))
  {
    var refusals := EvaluatorRefusals(CountEvaluator(e, v));
    assert refusals == EvaluatorRefusals(e) + One(v.EvaluatorSays?);
  }

  lemma StepKeepsLedger(ports: Ports, policy: Policy, s: State, p: Pair)
    requires Ledger(s)
    ensures Ledger(Step(ports, policy, s, p).0)
  {
    var (v, capital) := Judge(ports, policy, s.capital, p);
    VerdictsArePossible(ports, policy, s.capital, p);
    CodeRecorded(s.store, v, p, SpreadBelowMinimum);
    RecordedIsAdded(s.store, v, p);
    RejectionAdded(s.store, s.store + Recorded(v, p), v);
    EvaluatorLedgerKept(s.evaluator, s.store, s.store + Recorded(v, p), v);
    EngineLedgerKept(s.engine, s.store, s.store + Recorded(v, p), v);
    AnalysisLedgerKept(s.engine, s.store, v, p);
    ConservationKept(s.engine, s.evaluator, |s.store|, Coded(s.store, SpreadBelowMinimum), v, p);
  }

  datatype Action = EvaluateOne(ports: Ports, policy: Policy, pair: Pair) | RecordPreFiltered(count: nat)

  function Act(s: State, a: Action): State {
    match a
    case EvaluateOne(ports, policy, pair) => Step(ports, policy, s, pair).0
    case RecordPreFiltered(count) => PreFiltered(s, count)
  }

  function ActAll(s: State, actions: seq<Action>): State {
    if actions == [] then s else Act(ActAll(s, actions[..|actions| - 1]), actions[|actions| - 1])
  }

  lemma ActKeepsLedger(s: State, a: Action)
    requires Ledger(s)
    ensures Ledger(Act(s, a))
  {
    match a
    case EvaluateOne(ports, policy, pair) => StepKeepsLedger(ports, policy, s, pair);
    case RecordPreFiltered(_) =>
  }

  lemma NothingRecorded(c: EngineCounts, e: EvaluatorCounts, store: seq<Rejection>)
    requires c == NO_ENGINE_COUNTS && e == NO_EVALUATOR_COUNTS && store == []
    ensures EvaluatorLedger(e, store) && EngineLedger(c, store) && AnalysisLedger(c, store)
    ensures Coded(store, SpreadBelowMinimum) == 0
  {
  }

  lemma NothingSeen(c: EngineCounts, e: EvaluatorCounts, recorded: nat, nearMisses: nat)
    requires c == NO_ENGINE_COUNTS && e == NO_EVALUATOR_COUNTS && recorded == nearMisses == 0
    ensures Conserved(c, e, recorded, nearMisses)
  {
  }

  lemma NothingCached(cache: CapitalCache)
    requires cache == map[]
    ensures PositiveCapital(cache)
  {
  }

  lemma AddsUp(s: State)
    requires EvaluatorLedger(s.evaluator, s.store) && EngineLedger(s.engine, s.store)
    requires AnalysisLedger(s.engine, s.store) && PositiveCapital(s.capital)
    requires Conserved(s.engine, s.evaluator, |s.store|, Coded(s.store, SpreadBelowMinimum))
    ensures Ledger(s)
  {
  }

  lemma NothingBooked(s: State)
    requires s.engine == NO_ENGINE_COUNTS && s.evaluator == NO_EVALUATOR_COUNTS && s.store == [] && s.capital == map[]
    ensures Ledger(s)
  {
    NothingRecorded(s.engine, s.evaluator, s.store);
    NothingSeen(s.engine, s.evaluator, |s.store|, Coded(s.store, SpreadBelowMinimum));
    NothingCached(s.capital);
    AddsUp(s);
  }

  /** After any run of evaluations and pre-filter records, whatever the services answered, the ledger adds up. */
  lemma {:induction false} RunKeepsLedger(actions: seq<Action>)
    ensures Ledger(ActAll(FRESH, actions))
  {
    if actions == [] {
      NothingBooked(FRESH);
    } else {
      var n := |actions| - 1;
      RunKeepsLedger(actions[..n]);
      ActKeepsLedger(ActAll(FRESH, actions[..n]), actions[n]);
    }
  }

  /** How many pairs an action drops without a record. */
  function Silenced(s: State, a: Action): nat {
    match a
    case EvaluateOne(ports, policy, pair) => One(Judge(ports, policy, s.capital, pair).0.Silent?)
    case RecordPreFiltered(count) => count
  }

  function AllSilenced(actions: seq<Action>): nat {
    if actions == [] then 0
    else
      AllSilenced(actions[..|actions| - 1])
      + Silenced(ActAll(FRESH, actions[..|actions| - 1]), actions[|actions| - 1])
  }

  function Unrecorded(s: State): int { s.engine.spreadRejected - Coded(s.store, SpreadBelowMinimum) }

  lemma ActSilences(s: State, a: Action)
    requires Ledger(s)
    ensures Unrecorded(Act(s, a)) == Unrecorded(s) + Silenced(s, a)
  {
    if a.EvaluateOne? {
      var v := Judge(a.ports, a.policy, s.capital, a.pair).0;
      VerdictsArePossible(a.ports, a.policy, s.capital, a.pair);
      CodeRecorded(s.store, v, a.pair, SpreadBelowMinimum);
    }
  }

  /** The spread counter is the records of its code and the pairs dropped in silence. */
  lemma {:induction false} SpreadCounterIs(actions: seq<Action>)
    ensures Unrecorded(ActAll(FRESH, actions)) == AllSilenced(actions)
  {
    if actions != [] {
      var n := |actions| - 1;
      SpreadCounterIs(actions[..n]);
      RunKeepsLedger(actions[..n]);
      ActSilences(ActAll(FRESH, actions[..n]), actions[n]);
    }
  }

  // ---- scanning only the pairs that gain ----

  /** A pair without a gain that the spread floor would not stop. */
  predicate Straggler(policy: Policy, p: Pair) {
    HasPrices(p) && !Gains(p) && RawSpreadPercent(p) >= policy.minimumSpreadPercent
  }

  ghost predicate NoStragglers(policy: Policy, pairs: seq<Pair>) {
    forall p :: p in pairs ==> !Straggler(policy, p)
  }

  ghost predicate AllTradable(pairs: seq<Pair>) {
    forall p :: p in pairs ==> Tradable(p)
  }

  lemma PositiveFloorStopsAll(policy: Policy, pairs: seq<Pair>)
    requires policy.minimumSpreadPercent > 0.0
    ensures NoStragglers(policy, pairs)
  {
    forall p | p in pairs && HasPrices(p) && !Gains(p) ensures RawSpreadPercent(p) < policy.minimumSpreadPercent {
      PercentSign(p.sell.bidPrice.value - p.buy.askPrice.value, p.buy.askPrice.value);
    }
  }

  /** What the spread floor does with a pair. */
  predicate Reaches(policy: Policy, p: Pair) { !(HasPrices(p) && RawSpreadPercent(p) < policy.minimumSpreadPercent) }

  // What the argument needs of an engine and of the way losers are counted.

  type Counter<!S> = (S, nat) -> S

  ghost predicate Adds<S(!new)>(count: Counter<S>) {
    (forall s :: count(s, 0) == s)
      && forall s, k: nat, j: nat {:trigger count(count(s, k), j)} :: count(count(s, k), j) == count(s, k + j)
  }

  /** Counting losers first or last makes no difference. */
  ghost predicate Commutes<S(!new)>(engine: Engine<S>, count: Counter<S>) {
    forall s, k: nat, p {:trigger engine(count(s, k), p)} ::
      engine(count(s, k), p) == (count(engine(s, p).0, k), engine(s, p).1)
  }

  ghost predicate CountsLosers<S(!new)>(engine: Engine<S>, count: Counter<S>, pairs: seq<Pair>) {
    forall s, p {:trigger engine(s, p)} :: p in pairs && !Gains(p) ==> engine(s, p) == (count(s, 1), [])
  }

  lemma {:induction false} CountFirst<S(!new)>(engine: Engine<S>, count: Counter<S>, s: S, k: nat, pairs: seq<Pair>)
    requires Commutes(engine, count)
    ensures var (after, found) := EvaluateAll(engine, s, pairs);
            EvaluateAll(engine, count(s, k), pairs) == (count(after, k), found)
  {
    if pairs != [] {
      CountFirst(engine, count, s, k, pairs[..|pairs| - 1]);
    }
  }

  /** All the pairs come to the gaining ones with the others counted. */
  ghost predicate CountsTheRest<S(!new)>(engine: Engine<S>, count: Counter<S>, s: S, pairs: seq<Pair>) {
    && |KeepGaining(pairs)| <= |pairs|
    && var (light, found) := EvaluateAll(engine, s, KeepGaining(pairs));
       EvaluateAll(engine, s, pairs) == (count(light, |pairs| - |KeepGaining(pairs)|), found)
  }

  lemma {:induction false} GainerNext<S(!new)>(engine: Engine<S>, count: Counter<S>, s: S, pairs: seq<Pair>)
    requires pairs != [] && Gains(pairs[|pairs| - 1])
    requires Commutes(engine, count) && CountsTheRest(engine, count, s, pairs[..|pairs| - 1])
    ensures CountsTheRest(engine, count, s, pairs)
  {
    var kept := KeepGaining(pairs[..|pairs| - 1]);
    assert (kept + [pairs[|pairs| - 1]])[..|kept|] == kept;
  }

  lemma {:induction false} LoserNext<S(!new)>(engine: Engine<S>, count: Counter<S>, s: S, pairs: seq<Pair>)
    requires pairs != [] && !Gains(pairs[|pairs| - 1])
    requires Adds(count) && CountsLosers(engine, count, pairs) && CountsTheRest(engine, count, s, pairs[..|pairs| - 1])
    ensures CountsTheRest(engine, count, s, pairs)
  {
    var (light, found) := EvaluateAll(engine, s, KeepGaining(pairs));
    assert found + [] == found;
  }

  lemma {:induction false} EvaluatingAllCountsTheRest<S(!new)>(engine: Engine<S>, count: Counter<S>, s: S,
                                                               pairs: seq<Pair>)
    requires Adds(count) && Commutes(engine, count) && CountsLosers(engine, count, pairs)
    ensures CountsTheRest(engine, count, s, pairs)
  {
    if pairs != [] {
      EvaluatingAllCountsTheRest(engine, count, s, pairs[..|pairs| - 1]);
      if Gains(pairs[|pairs| - 1]) {
        GainerNext(engine, count, s, pairs);
      } else {
        LoserNext(engine, count, s, pairs);
      }
    }
  }

  lemma {:induction false} GainingIsEnough<S(!new)>(engine: Engine<S>, count: Counter<S>, s: S, pairs: seq<Pair>)
    requires Adds(count) && Commutes(engine, count) && CountsLosers(engine, count, pairs)
    ensures |KeepGaining(pairs)| <= |pairs|
    ensures EvaluateAll(engine, count(s, |pairs| - |KeepGaining(pairs)|), KeepGaining(pairs))
            == EvaluateAll(engine, s, pairs)
  {
    EvaluatingAllCountsTheRest(engine, count, s, pairs);
    CountFirst(engine, count, s, |pairs| - |KeepGaining(pairs)|, KeepGaining(pairs));
  }

  // The opportunity engine meets these needs.

  lemma StepAfterPreFiltered(ports: Ports, policy: Policy, s: State, k: nat, p: Pair)
    ensures Step(ports, policy, PreFiltered(s, k), p)
            == (PreFiltered(Step(ports, policy, s, p).0, k), Step(ports, policy, s, p).1)
  {
    var v := Judge(ports, policy, s.capital, p).0;
    assert CountEngine(PreFiltered(s, k).engine, v) == PreFiltered(s.(engine := CountEngine(s.engine, v)), k).engine;
  }

  lemma EngineCommutes(ports: Ports, policy: Policy)
    ensures Adds(PreFiltered) && Commutes(EngineOf(ports, policy), PreFiltered)
  {
    forall s, k: nat, p
      ensures Step(ports, policy, PreFiltered(s, k), p)
              == (PreFiltered(Step(ports, policy, s, p).0, k), Step(ports, policy, s, p).1)
    {
      StepAfterPreFiltered(ports, policy, s, k, p);
    }
  }

  lemma EngineCountsLosers(ports: Ports, policy: Policy, pairs: seq<Pair>)
    requires AllTradable(pairs) && NoStragglers(policy, pairs)
    ensures CountsLosers(EngineOf(ports, policy), PreFiltered, pairs)
  {
    forall s, p | p in pairs && !Gains(p) ensures Step(ports, policy, s, p) == (PreFiltered(s, 1), []) {
      assert Tradable(p) && !Straggler(policy, p);
      PercentSign(p.sell.bidPrice.value - p.buy.askPrice.value, p.buy.askPrice.value);
      assert Judge(ports, policy, s.capital, p) == (Silent, s.capital);
      assert s.store + [] == s.store;
    }
  }

  /** Which pairs reach the evaluator depends on the pairs alone. */
  ghost predicate CountsReaching(engine: Engine<State>, policy: Policy) {
    forall s, p :: engine(s, p).0.evaluator.evaluated == s.evaluator.evaluated + One(Reaches(policy, p))
  }

  lemma JudgeReaches(ports: Ports, policy: Policy, cache: CapitalCache, p: Pair)
    ensures Reaches(policy, p) <==> ReachedEvaluator(Judge(ports, policy, cache, p).0)
  {
  }

  lemma EngineCountsReaching(ports: Ports, policy: Policy)
    ensures CountsReaching(EngineOf(ports, policy), policy)
  {
    forall s, p
      ensures Step(ports, policy, s, p).0.evaluator.evaluated == s.evaluator.evaluated + One(Reaches(policy, p))
    {
      JudgeReaches(ports, policy, s.capital, p);
    }
  }

  function Reaching(policy: Policy, pairs: seq<Pair>): nat {
    if pairs == [] then 0 else Reaching(policy, pairs[..|pairs| - 1]) + One(Reaches(policy, pairs[|pairs| - 1]))
  }

  lemma {:induction false} EvaluateAllReaches(engine: Engine<State>, policy: Policy, s: State, pairs: seq<Pair>)
    requires CountsReaching(engine, policy)
    ensures EvaluateAll(engine, s, pairs).0.evaluator.evaluated == s.evaluator.evaluated + Reaching(policy, pairs)
  {
    if pairs != [] {
      EvaluateAllReaches(engine, policy, s, pairs[..|pairs| - 1]);
    }
  }

  lemma {:induction false} StragglersReach(policy: Policy, pairs: seq<Pair>)
    requires AllTradable(pairs)
    ensures Reaching(policy, KeepGaining(pairs)) <= Reaching(policy, pairs)
    ensures !NoStragglers(policy, pairs) ==> Reaching(policy, KeepGaining(pairs)) < Reaching(policy, pairs)
  {
    if pairs != [] {
      var n := |pairs| - 1;
      StragglersReach(policy, pairs[..n]);
      assert pairs == pairs[..n] + [pairs[n]];
      var kept := KeepGaining(pairs[..n]);
      assert (kept + [pairs[n]])[..|kept|] == kept;
    }
  }

  lemma {:induction false} KeepGainingShrinks(pairs: seq<Pair>)
    ensures |KeepGaining(pairs)| <= |pairs|
  {
    if pairs != [] {
      KeepGainingShrinks(pairs[..|pairs| - 1]);
    }
  }

  /** Count the pairs that do not gain, then evaluate those that do. */
  function EvaluateGaining(engine: Engine<State>, s: State, pairs: seq<Pair>): (State, seq<Opportunity>) {
    KeepGainingShrinks(pairs);
    EvaluateAll(engine, PreFiltered(s, |pairs| - |KeepGaining(pairs)|), KeepGaining(pairs))
  }

  /**
    Evaluating only the gaining pairs after counting the others leaves the same counters, records,
    cache and accepted list as evaluating every pair, exactly when no pair without a gain meets the
    spread floor.
   */
  lemma {:induction false} PreFilterIsExact(ports: Ports, policy: Policy, s: State, pairs: seq<Pair>)
    requires AllTradable(pairs)
    ensures var engine := EngineOf(ports, policy);
            EvaluateGaining(engine, s, pairs) == EvaluateAll(engine, s, pairs) <==> NoStragglers(policy, pairs)
  {
    if NoStragglers(policy, pairs) {
      NoneIsMissed(ports, policy, s, pairs);
    } else {
      EngineCountsReaching(ports, policy);
      StragglersAreMissed(EngineOf(ports, policy), policy, s, pairs);
    }
  }

  lemma {:induction false} NoneIsMissed(ports: Ports, policy: Policy, s: State, pairs: seq<Pair>)
    requires AllTradable(pairs) && NoStragglers(policy, pairs)
    ensures EvaluateGaining(EngineOf(ports, policy), s, pairs) == EvaluateAll(EngineOf(ports, policy), s, pairs)
  {
    EngineCommutes(ports, policy);
    EngineCountsLosers(ports, policy, pairs);
    GainingIsEnough(EngineOf(ports, policy), PreFiltered, s, pairs);
  }

  lemma {:induction false} StragglersAreMissed(engine: Engine<State>, policy: Policy, s: State, pairs: seq<Pair>)
    requires CountsReaching(engine, policy) && AllTradable(pairs) && !NoStragglers(policy, pairs)
    ensures EvaluateGaining(engine, s, pairs) != EvaluateAll(engine, s, pairs)
  {
    KeepGainingShrinks(pairs);
    StragglersReach(policy, pairs);
    EvaluateAllReaches(engine, policy, s, pairs);
    EvaluateAllReaches(engine, policy, PreFiltered(s, |pairs| - |KeepGaining(pairs)|), KeepGaining(pairs));
  }

  // ---- whole scans ----

  /** The plain scan: every tradable pair of every snapshot. */
  function ScanAll(engine: Engine<State>, s: State, snapshots: seq<Snapshot>): (State, seq<Opportunity>) {
    if snapshots == [] then (s, [])
    else
      var (before, found) := ScanAll(engine, s, snapshots[..|snapshots| - 1]);
      var (after, more) := EvaluateAll(engine, before, TradablePairs(snapshots[|snapshots| - 1]));
      (after, found + more)
  }

  /** The hot path. */
  function ScanGaining(engine: Engine<State>, s: State, snapshots: seq<Snapshot>): (State, seq<Opportunity>) {
    if snapshots == [] then (s, [])
    else
      var (before, found) := ScanGaining(engine, s, snapshots[..|snapshots| - 1]);
      var (after, more) := EvaluateGaining(engine, before, TradablePairs(snapshots[|snapshots| - 1]));
      (after, found + more)
  }

  lemma {:induction false} SnapshotsAgree(ports: Ports, policy: Policy, s: State, snapshot: Snapshot)
    requires policy.minimumSpreadPercent > 0.0
    ensures var engine := EngineOf(ports, policy);
            EvaluateGaining(engine, s, TradablePairs(snapshot)) == EvaluateAll(engine, s, TradablePairs(snapshot))
  {
    TradablePairsAreAll(snapshot);
    PositiveFloorStopsAll(policy, TradablePairs(snapshot));
    PreFilterIsExact(ports, policy, s, TradablePairs(snapshot));
  }

  lemma {:induction false} ScansAgree(ports: Ports, policy: Policy, s: State, snapshots: seq<Snapshot>)
    requires policy.minimumSpreadPercent > 0.0
    ensures ScanGaining(EngineOf(ports, policy), s, snapshots) == ScanAll(EngineOf(ports, policy), s, snapshots)
  {
    if snapshots != [] {
      var n := |snapshots| - 1;
      ScansAgree(ports, policy, s, snapshots[..n]);
      SnapshotsAgree(ports, policy, ScanAll(EngineOf(ports, policy), s, snapshots[..n]).0, snapshots[n]);
    }
  }

  /** The scanner evaluates under the default policy, so for it the filter changes nothing. */
  lemma {:induction false} DefaultScansAgree(ports: Ports, s: State, snapshots: seq<Snapshot>)
    ensures ScanGaining(EngineOf(ports, DEFAULT_POLICY), s, snapshots)
            == ScanAll(EngineOf(ports, DEFAULT_POLICY), s, snapshots)
  {
    ScansAgree(ports, DEFAULT_POLICY, s, snapshots);
  }
}
