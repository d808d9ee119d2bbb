/** The timing headroom review: how long a pilot book may age, given what dispatching costs. */
module Headroom {
  import opened Wrappers
  import opened Percentile
  import opened PilotRoute

  const DISPATCH_SAFETY_MARGIN_MS := 10
  const MINIMUM_CALIBRATED_BOOK_AGE_MS := 25
  const REQUIRED_OPERATIONAL_HEADROOM_MS := 10

  /** What the public timing report says of the route; a duration without samples is absent. */
  datatype Timing = Timing(publicReady: bool, decisionToStartP99: Option<real>)

  /** Everything a review looks at. */
  datatype Facts = Facts(
    exactPilot: bool, timing: Option<Timing>, pilot: Option<Route>, timingIntact: bool, pilotIntact: bool,
    minimumGenerations: nat, minimumSpanMs: nat)

  datatype Review =
    Reviewed(ready: bool, dispatchBudgetMs: Option<int>, maximumBookAgeMs: Option<int>, residualMs: Option<int>)

  datatype Blocker =
    | NotPilotLane | NoTiming | TimingImmature | NoPilotEvidence | PilotImmature
    | TimingDamaged | PilotDamaged | Incomplete | NoBudget | NoHeadroom

  function Ceil(x: real): int { -((-x).Floor) }

  lemma CeilBounds(x: real)
    ensures x <= Ceil(x) as real < x + 1.0
  {
  }

  /** `dispatchReserved.calibration.ready` of the pilot report */
  predicate PilotReady(r: Route, minimumGenerations: nat, minimumSpanMs: nat) {
    var span := if r.reserved.firstAt.Some? && r.reserved.lastAt.Some?
      then r.reserved.lastAt.value - r.reserved.firstAt.value else 0;
    && r.reserved.generations >= minimumGenerations && span >= minimumSpanMs
    && |r.reserved.buyAges| >= minimumGenerations && |r.reserved.sellAges| >= minimumGenerations
  }

  function BuyP99(f: Facts): Option<int> {
    if f.pilot.None? then None else PercentileOf(f.pilot.value.reserved.buyAges, 99)
  }

  function SellP99(f: Facts): Option<int> {
    if f.pilot.None? then None else PercentileOf(f.pilot.value.reserved.sellAges, 99)
  }

  function DecisionP99(f: Facts): Option<real> { if f.timing.None? then None else f.timing.value.decisionToStartP99 }

  function Budget(f: Facts): Option<int> {
    if DecisionP99(f).None? then None else Some(Ceil(DecisionP99(f).value + DISPATCH_SAFETY_MARGIN_MS as real))
  }

  function Ttl(budget: Option<int>): Option<int> {
    if budget.None? || budget.value >= MAXIMUM_BOOK_AGE_MS then None
    else Some(Max(MINIMUM_CALIBRATED_BOOK_AGE_MS, MAXIMUM_BOOK_AGE_MS - budget.value))
  }

  method ReviewHeadroom(f: Facts) returns (review: Review)
    ensures review.dispatchBudgetMs == Budget(f) && review.maximumBookAgeMs == Ttl(Budget(f))
    ensures review.ready <==> Ready(f)
    ensures review.residualMs.Some? <==> Ttl(Budget(f)).Some? && BuyP99(f).Some? && SellP99(f).Some?
    ensures review.residualMs.Some? ==>
              && review.residualMs.value <= review.maximumBookAgeMs.value - BuyP99(f).value
              && review.residualMs.value <= review.maximumBookAgeMs.value - SellP99(f).value
              && (review.residualMs.value == review.maximumBookAgeMs.value - BuyP99(f).value
                  || review.residualMs.value == review.maximumBookAgeMs.value - SellP99(f).value)
    ensures review.ready ==> review.residualMs.Some? && review.residualMs.value >= REQUIRED_OPERATIONAL_HEADROOM_MS
  {
    var blockers: seq<Blocker> := [];
    if !f.exactPilot {
      blockers := blockers + [NotPilotLane];
    }
    if f.timing.None? {
      blockers := blockers + [NoTiming];
    } else if !f.timing.value.publicReady {
      blockers := blockers + [TimingImmature];
    }
    if f.pilot.None? {
      blockers := blockers + [NoPilotEvidence];
    } else if !PilotReady(f.pilot.value, f.minimumGenerations, f.minimumSpanMs) {
      blockers := blockers + [PilotImmature];
    }
    if !f.timingIntact {
      blockers := blockers + [TimingDamaged];
    }
    if !f.pilotIntact {
      blockers := blockers + [PilotDamaged];
    }
    var decision, buy, sell := DecisionP99(f), BuyP99(f), SellP99(f);
    if decision.None? || buy.None? || sell.None? {
      blockers := blockers + [Incomplete];
    }
    var budget := if decision.None? then None else Some(Ceil(decision.value + DISPATCH_SAFETY_MARGIN_MS as real));
    var ttl := if budget.None? || budget.value >= MAXIMUM_BOOK_AGE_MS then None
               else Some(Max(MINIMUM_CALIBRATED_BOOK_AGE_MS, MAXIMUM_BOOK_AGE_MS - budget.value));
    var worst := if buy.None? || sell.None? then None else Some(Max(buy.value, sell.value));
    var residual := if ttl.None? || worst.None? then None else Some(ttl.value - worst.value);
    if budget.Some? && budget.value >= MAXIMUM_BOOK_AGE_MS {
      blockers := blockers + [NoBudget];
    }
    if residual.Some? && residual.value < REQUIRED_OPERATIONAL_HEADROOM_MS {
      blockers := blockers + [NoHeadroom];
    }
    review := Reviewed(blockers == [], budget, ttl, residual);
  }

  /** Both reports are mature and undamaged. */
  predicate Mature(f: Facts) {
    && f.exactPilot && f.timing.Some? && f.timing.value.publicReady && f.timingIntact && f.pilotIntact
    && f.pilot.Some? && PilotReady(f.pilot.value, f.minimumGenerations, f.minimumSpanMs)
  }

  /** When a review finds nothing against a calibration. */
  predicate Ready(f: Facts) {
    && Mature(f) && DecisionP99(f).Some? && BuyP99(f).Some? && SellP99(f).Some?
    && Ttl(Budget(f)).Some?
    && BuyP99(f).value + REQUIRED_OPERATIONAL_HEADROOM_MS <= Ttl(Budget(f)).value
    && SellP99(f).value + REQUIRED_OPERATIONAL_HEADROOM_MS <= Ttl(Budget(f)).value
  }

  /** A budget is the decision's P99 and 10 ms more in whole milliseconds; from 250 ms on it leaves no limit. */
  lemma LimitInFigures(f: Facts)
    ensures var p99 := if f.timing.Some? then f.timing.value.decisionToStartP99 else None;
            && (Budget(f).Some? <==> p99.Some?)
            && (p99.Some? ==> p99.value + 10.0 <= Budget(f).value as real < p99.value + 11.0)
    ensures Ttl(Budget(f)) == if Budget(f).None? || Budget(f).value >= 250 then None
                              else if Budget(f).value > 225 then Some(25)
                              else Some(250 - Budget(f).value)
  {
    if DecisionP99(f).Some? {
      CeilBounds(DecisionP99(f).value + 10.0);
    }
  }

  /** Everything a ready review has found, one by one. */
  lemma ReadyExactly(f: Facts)
    ensures Ready(f) <==>
            && f.exactPilot && f.timing.Some? && f.timing.value.publicReady && f.timingIntact && f.pilotIntact
            && f.timing.value.decisionToStartP99.Some? && f.pilot.Some?
            && var reserved := f.pilot.value.reserved;
            && reserved.generations >= f.minimumGenerations
            && |reserved.buyAges| >= f.minimumGenerations && |reserved.sellAges| >= f.minimumGenerations
            && (if reserved.firstAt.Some? && reserved.lastAt.Some?
                then reserved.lastAt.value - reserved.firstAt.value >= f.minimumSpanMs else f.minimumSpanMs == 0)
            && reserved.buyAges != [] && reserved.sellAges != []
            && Ttl(Budget(f)).Some?
            && PercentileOf(reserved.buyAges, 99).value + 10 <= Ttl(Budget(f)).value
            && PercentileOf(reserved.sellAges, 99).value + 10 <= Ttl(Budget(f)).value
  {
  }

  /** Durations are not negative. */
  predicate TimingSane(f: Facts) { DecisionP99(f).Some? ==> DecisionP99(f).value >= 0.0 }

  predicate MostlyBelow(ages: seq<int>, bound: int) {
    CountAtMost(ages, bound) * 100 >= |ages| * 99
  }

  /**
    A ready review gives a book-age limit of 25 to 240 ms, with at least 99 in 100 of the retained
    dispatch-reserved ages of either side 10 ms or more below it.
   */
  lemma ReadyMeans(f: Facts)
    requires Ready(f) && TimingSane(f)
    ensures var ttl := Ttl(Budget(f)).value;
            && 25 <= ttl <= 240
            && MostlyBelow(f.pilot.value.reserved.buyAges, ttl - 10)
            && MostlyBelow(f.pilot.value.reserved.sellAges, ttl - 10)
            && |f.pilot.value.reserved.buyAges| >= f.minimumGenerations
            && |f.pilot.value.reserved.sellAges| >= f.minimumGenerations
  {
    CeilBounds(DecisionP99(f).value + DISPATCH_SAFETY_MARGIN_MS as real);
    var ttl := Ttl(Budget(f)).value;
    BelowLimit(f.pilot.value.reserved.buyAges, ttl - 10);
    BelowLimit(f.pilot.value.reserved.sellAges, ttl - 10);
  }

  lemma BelowLimit(ages: seq<int>, bound: int)
    requires ages != [] && PercentileOf(ages, 99).value <= bound
    ensures MostlyBelow(ages, bound)
  {
    PercentileMeaning(ages, 99);
    CountGrows(ages, PercentileOf(ages, 99).value, bound);
  }

  lemma {:induction false} CountGrows(s: seq<int>, a: int, b: int)
    requires a <= b
    ensures CountAtMost(s, a) <= CountAtMost(s, b)
  {
    if s != [] {
      CountGrows(s[1..], a, b);
    }
  }

  /**
    Book age and dispatch budget together stay within the 250 ms ceiling exactly when the budget is
    at most 225 ms: above that the 25 ms floor wins.
   */
  lemma CeilingKeptExactly(f: Facts)
    requires Ttl(Budget(f)).Some?
    ensures Ttl(Budget(f)).value + Budget(f).value <= MAXIMUM_BOOK_AGE_MS <==> Budget(f).value <= 225
  {
  }

  /** A ready review goes over the ceiling exactly so: a budget over 225 ms, and both P99 ages at most 15 ms. */
  lemma OverCeilingExactly(f: Facts)
    requires Mature(f)
    ensures Ready(f) && Ttl(Budget(f)).value + Budget(f).value > MAXIMUM_BOOK_AGE_MS <==>
            && Budget(f).Some? && 225 < Budget(f).value < MAXIMUM_BOOK_AGE_MS
            && BuyP99(f).Some? && BuyP99(f).value <= 15 && SellP99(f).Some? && SellP99(f).value <= 15
  {
  }

  predicate AllAtMost(ages: seq<int>, bound: int) {
    ages != [] && forall i :: 0 <= i < |ages| ==> ages[i] <= bound
  }

  /**
    Every mature review with a decision P99 over 215 and up to 239 ms is ready while no retained age is
    over 15 ms, and then limit and budget add up to more than the ceiling.
   */
  lemma CeilingBroken(f: Facts)
    requires Mature(f) && DecisionP99(f).Some? && 215.0 < DecisionP99(f).value <= 239.0
    requires AllAtMost(f.pilot.value.reserved.buyAges, 15) && AllAtMost(f.pilot.value.reserved.sellAges, 15)
    ensures Ready(f) && Ttl(Budget(f)).value + Budget(f).value == 25 + Budget(f).value > MAXIMUM_BOOK_AGE_MS
  {
    CeilBounds(DecisionP99(f).value + DISPATCH_SAFETY_MARGIN_MS as real);
    PercentileMeaning(f.pilot.value.reserved.buyAges, 99);
    PercentileMeaning(f.pilot.value.reserved.sellAges, 99);
  }
}
