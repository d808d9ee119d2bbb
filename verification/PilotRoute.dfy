/**
  Pilot evidence on one route: which generations are counted, how each is graded, and what the
  counters and the bounded sample lists of the route then hold.
 */
module PilotRoute {
  import opened Wrappers
  import opened Decisions

  const MAXIMUM_BOOK_AGE_MS := 250
  const MAXIMUM_BOOK_SKEW_MS := 250
  const DISPATCH_RESERVED_MAXIMUM_BOOK_AGE_MS := 190
  const MAX_SAFE_INTEGER := 9007199254740991

  // Percent figures are whole millionths of a percent, the precision the samples are kept in.
  const LIVE_MINIMUM_NET_PROFIT := 500000
  const QUALIFICATION_MINIMUM_NET_PROFIT := 300000

  datatype Reason =
    | NonExecuteDecision | FallbackQuote | NonExecutableQuote | InvalidQuoteTimestamp
    | BuyBookStale | SellBookStale | BookTimestampSkew

  /** An accepted opportunity; a time or percentage that is not a number is absent. */
  datatype Sighting = Sighting(
    market: string, buyExchange: string, sellExchange: string,
    buyTimestamp: Option<int>, sellTimestamp: Option<int>, buyExecutable: bool, sellExecutable: bool,
    quotesAreFresh: bool, usedLastPriceFallback: bool, enoughLiquidity: bool, decision: Decision,
    netProfit: Option<int>, rawSpread: Option<int>)

  /** The two book times name a generation. */
  type GenerationKey = (Option<int>, Option<int>)

  datatype Caps = Caps(routes: nat, keys: nat, samples: nat)

  ghost predicate ValidCaps(caps: Caps) { caps.routes > 0 && caps.keys > 0 && caps.samples > 0 }

  datatype Seen =
    Seen(firstAt: int, lastAt: int, unique: nat, repeated: nat, maxBuyAge: int, maxSellAge: int, maxSkew: int)

  datatype Cohort =
    Cohort(firstAt: Option<int>, lastAt: Option<int>, generations: nat, buyAges: seq<int>, sellAges: seq<int>)

  datatype Economics = Economics(
    firstAt: Option<int>, lastAt: Option<int>, observed: nat,
    discovered: nat, qualified: nat, live: nat, execute: nat, review: nat, skip: nat,
    reservedLive: nat, illiquid: nat, latest: Option<int>, best: Option<int>, nets: seq<int>, fees: seq<int>)

  datatype Route = Route(
    key: string, seen: Seen, keys: seq<GenerationKey>, rejected: nat, rejections: map<Reason, nat>,
    grade: Cohort, reserved: Cohort, reservedRejected: nat, economics: Economics)

  const NO_COHORT := Cohort(None, None, 0, [], [])
  const NO_REJECTIONS: map<Reason, nat> := map[
    NonExecuteDecision := 0, FallbackQuote := 0, NonExecutableQuote := 0, InvalidQuoteTimestamp := 0,
    BuyBookStale := 0, SellBookStale := 0, BookTimestampSkew := 0]
  const NO_ECONOMICS := Economics(None, None, 0, 0, 0, 0, 0, 0, 0, 0, 0, None, None, [], [])

  function NewRoute(key: string, at: int): Route {
    Route(key, Seen(at, at, 0, 0, 0, 0, 0), [], 0, NO_REJECTIONS, NO_COHORT, NO_COHORT, 0, NO_ECONOMICS)
  }

  // ---- freshness ----

  predicate ValidTime(t: int) { 0 < t <= MAX_SAFE_INTEGER }

  function Age(at: int, stamp: Option<int>): Option<int> { if stamp.None? then None else Some(at - stamp.value) }

  function Skew(o: Sighting): Option<int> {
    if o.buyTimestamp.None? || o.sellTimestamp.None? then None
    else Some(Abs(o.buyTimestamp.value - o.sellTimestamp.value))
  }

  predicate Over(age: Option<int>, limit: int) { age.Some? && age.value > limit }

  predicate BadStamp(at: int, stamp: Option<int>) { stamp.None? || !ValidTime(stamp.value) || at - stamp.value < 0 }

  function If(flag: bool, r: Reason): seq<Reason> { if flag then [r] else [] }

  /** `assessStrategyOnePilotFreshness` */
  function FreshnessReasons(o: Sighting, at: int): seq<Reason> {
    If(o.usedLastPriceFallback || !o.quotesAreFresh, FallbackQuote)
    + If(BadStamp(at, o.buyTimestamp) || BadStamp(at, o.sellTimestamp), InvalidQuoteTimestamp)
    + If(Over(Age(at, o.buyTimestamp), MAXIMUM_BOOK_AGE_MS), BuyBookStale)
    + If(Over(Age(at, o.sellTimestamp), MAXIMUM_BOOK_AGE_MS), SellBookStale)
    + If(Over(Skew(o), MAXIMUM_BOOK_SKEW_MS), BookTimestampSkew)
  }

  /** `assessStrategyOnePilotDispatchReservedFreshness(...).passed` */
  predicate DispatchFresh(o: Sighting, at: int) {
    && FreshnessReasons(o, at) == []
    && !Over(Age(at, o.buyTimestamp), DISPATCH_RESERVED_MAXIMUM_BOOK_AGE_MS)
    && !Over(Age(at, o.sellTimestamp), DISPATCH_RESERVED_MAXIMUM_BOOK_AGE_MS)
  }

  function Rejections(o: Sighting, at: int): seq<Reason> {
    If(o.decision != Execute, NonExecuteDecision)
    + If(!o.buyExecutable || !o.sellExecutable, NonExecutableQuote)
    + FreshnessReasons(o, at)
  }

  /** What an execution-grade generation is. */
  predicate ExecutionGrade(o: Sighting, at: int) {
    && o.decision == Execute && o.buyExecutable && o.sellExecutable && o.quotesAreFresh && !o.usedLastPriceFallback
    && !BadStamp(at, o.buyTimestamp) && !BadStamp(at, o.sellTimestamp)
    && at - o.buyTimestamp.value <= MAXIMUM_BOOK_AGE_MS && at - o.sellTimestamp.value <= MAXIMUM_BOOK_AGE_MS
  }

  /** Two books of at most 250 ms each cannot be skewed by more, so the skew test never decides alone. */
  lemma GradedExactly(o: Sighting, at: int)
    ensures Rejections(o, at) == [] <==> ExecutionGrade(o, at)
  {
    assert |Rejections(o, at)| == |If(o.decision != Execute, NonExecuteDecision)|
      + |If(!o.buyExecutable || !o.sellExecutable, NonExecutableQuote)| + |FreshnessReasons(o, at)|;
    FreshExactly(o, at);
  }

  lemma FreshExactly(o: Sighting, at: int)
    ensures FreshnessReasons(o, at) == [] <==>
            && !o.usedLastPriceFallback && o.quotesAreFresh && !BadStamp(at, o.buyTimestamp)
            && !BadStamp(at, o.sellTimestamp)
            && !Over(Age(at, o.buyTimestamp), MAXIMUM_BOOK_AGE_MS)
            && !Over(Age(at, o.sellTimestamp), MAXIMUM_BOOK_AGE_MS)
  {
    assert |FreshnessReasons(o, at)| == One(o.usedLastPriceFallback || !o.quotesAreFresh)
      + One(BadStamp(at, o.buyTimestamp) || BadStamp(at, o.sellTimestamp))
      + One(Over(Age(at, o.buyTimestamp), MAXIMUM_BOOK_AGE_MS))
        + One(Over(Age(at, o.sellTimestamp), MAXIMUM_BOOK_AGE_MS))
      + One(Over(Skew(o), MAXIMUM_BOOK_SKEW_MS));
  }

  lemma DispatchFreshIsReserved(o: Sighting, at: int)
    requires DispatchFresh(o, at) && o.buyExecutable && o.sellExecutable && o.decision == Execute
    ensures ExecutionGrade(o, at)
    ensures at - o.buyTimestamp.value <= DISPATCH_RESERVED_MAXIMUM_BOOK_AGE_MS
            && at - o.sellTimestamp.value <= DISPATCH_RESERVED_MAXIMUM_BOOK_AGE_MS
  {
  }

  // ---- one observation ----

  function Retain<T>(values: seq<T>, v: T, cap: nat): seq<T> { LastN(values + [v], cap) }

  function Later(last: Option<int>, at: int): Option<int> { Some(Max(last.GetOr(0), at)) }

  function Admit(c: Cohort, at: int, buyAge: int, sellAge: int, cap: nat): Cohort {
    Cohort(Some(c.firstAt.GetOr(at)), Later(c.lastAt, at), c.generations + 1,
           Retain(c.buyAges, buyAge, cap), Retain(c.sellAges, sellAge, cap))
  }

  function ObserveEconomics(e: Economics, o: Sighting, at: int, dispatchFresh: bool, cap: nat): Economics {
    if o.netProfit.None? then e
    else
      var net := o.netProfit.value;
      var live := net >= LIVE_MINIMUM_NET_PROFIT;
      Economics(
        Some(e.firstAt.GetOr(at)), Later(e.lastAt, at), e.observed + 1,
        e.discovered + One(net < QUALIFICATION_MINIMUM_NET_PROFIT),
        e.qualified + One(QUALIFICATION_MINIMUM_NET_PROFIT <= net && !live),
        e.live + One(live),
        e.execute + One(o.decision == Execute), e.review + One(o.decision == Review), e.skip + One(o.decision == Skip),
        e.reservedLive + One(live && dispatchFresh && o.decision == Execute),
        e.illiquid + One(!o.enoughLiquidity),
        Some(net), Some(Max(e.best.GetOr(net), net)),
        Retain(e.nets, net, cap),
        if o.rawSpread.None? then e.fees else Retain(e.fees, o.rawSpread.value - net, cap))
  }

  function KeyOf(o: Sighting): GenerationKey { (o.buyTimestamp, o.sellTimestamp) }

  function MaxAge(known: int, age: Option<int>): int {
    if age.Some? && age.value >= 0 then Max(known, age.value) else known
  }

  function Noticed(s: Seen, o: Sighting, at: int): Seen {
    Seen(s.firstAt, Max(s.lastAt, at), s.unique + 1, s.repeated,
         MaxAge(s.maxBuyAge, Age(at, o.buyTimestamp)), MaxAge(s.maxSellAge, Age(at, o.sellTimestamp)),
           MaxAge(s.maxSkew, Skew(o)))
  }

  function Bumped(counts: map<Reason, nat>, reasons: seq<Reason>): map<Reason, nat> {
    map r | r in counts :: counts[r] + One(r in reasons)
  }

  /** What the live-eligible count calls dispatch-fresh. */
  predicate Dispatchable(o: Sighting, at: int) {
    DispatchFresh(o, at) && o.buyExecutable && o.sellExecutable && o.enoughLiquidity
  }

  predicate WithinReserve(buyAge: int, sellAge: int) {
    buyAge <= DISPATCH_RESERVED_MAXIMUM_BOOK_AGE_MS && sellAge <= DISPATCH_RESERVED_MAXIMUM_BOOK_AGE_MS
  }

  /** A generation not yet counted. */
  function CountGeneration(r: Route, o: Sighting, at: int, caps: Caps): Route {
    Grade(r.(keys := Retain(r.keys, KeyOf(o), caps.keys), seen := Noticed(r.seen, o, at),
             economics := ObserveEconomics(r.economics, o, at, Dispatchable(o, at), caps.samples)),
          o, at, caps.samples)
  }

  function Grade(r: Route, o: Sighting, at: int, cap: nat): Route {
    var rejections := Rejections(o, at);
    if rejections != [] || o.buyTimestamp.None? || o.sellTimestamp.None? then
      r.(rejected := r.rejected + 1, rejections := Bumped(r.rejections, rejections))
    else
      var buyAge, sellAge := at - o.buyTimestamp.value, at - o.sellTimestamp.value;
      var graded := r.(grade := Admit(r.grade, at, buyAge, sellAge, cap));
      if WithinReserve(buyAge, sellAge) then graded.(reserved := Admit(r.reserved, at, buyAge, sellAge, cap))
      else graded.(reservedRejected := r.reservedRejected + 1)
  }

  function ObserveRoute(r: Route, o: Sighting, at: int, caps: Caps): Route {
    if KeyOf(o) in r.keys then r.(seen := r.seen.(repeated := r.seen.repeated + 1)) else CountGeneration(r, o, at, caps)
  }

  // ---- what one observation says and counts, in figures ----

  /** Each reason is given exactly when its own test fails. */
  lemma ReasonsExactly(o: Sighting, at: int)
    ensures var reasons := Rejections(o, at);
            && (NonExecuteDecision in reasons <==> o.decision != Execute)
            && (NonExecutableQuote in reasons <==> !(o.buyExecutable && o.sellExecutable))
            && (FallbackQuote in reasons <==> o.usedLastPriceFallback || !o.quotesAreFresh)
            && (InvalidQuoteTimestamp in reasons
                <==> !ProperStamp(o.buyTimestamp, at) || !ProperStamp(o.sellTimestamp, at))
            && (BuyBookStale in reasons <==> o.buyTimestamp.Some? && at - o.buyTimestamp.value > 250)
            && (SellBookStale in reasons <==> o.sellTimestamp.Some? && at - o.sellTimestamp.value > 250)
            && (BookTimestampSkew in reasons <==>
                  && o.buyTimestamp.Some? && o.sellTimestamp.Some?
                  && (o.buyTimestamp.value - o.sellTimestamp.value > 250
                      || o.sellTimestamp.value - o.buyTimestamp.value > 250))
  {
    FreshnessReasonsExactly(o, at);
    assert forall r :: r in Rejections(o, at) <==>
             || (r == NonExecuteDecision && o.decision != Execute)
             || (r == NonExecutableQuote && (!o.buyExecutable || !o.sellExecutable)) || r in FreshnessReasons(o, at);
  }

  predicate ProperStamp(stamp: Option<int>, at: int) {
    stamp.Some? && 0 < stamp.value <= 9007199254740991 && stamp.value <= at
  }

  lemma FreshnessReasonsExactly(o: Sighting, at: int)
    ensures forall r :: r in FreshnessReasons(o, at) <==>
              || (r == FallbackQuote && (o.usedLastPriceFallback || !o.quotesAreFresh))
              || (r == InvalidQuoteTimestamp && (!ProperStamp(o.buyTimestamp, at) || !ProperStamp(o.sellTimestamp, at)))
              || (r == BuyBookStale && o.buyTimestamp.Some? && at - o.buyTimestamp.value > 250)
              || (r == SellBookStale && o.sellTimestamp.Some? && at - o.sellTimestamp.value > 250)
              || (r == BookTimestampSkew && o.buyTimestamp.Some? && o.sellTimestamp.Some?
                  && (o.buyTimestamp.value - o.sellTimestamp.value > 250
                      || o.sellTimestamp.value - o.buyTimestamp.value > 250))
  {
  }

  /** Dispatch-fresh: fresh, and both books at most 190 ms old. */
  lemma DispatchFreshExactly(o: Sighting, at: int)
    ensures DispatchFresh(o, at) <==>
            && !o.usedLastPriceFallback && o.quotesAreFresh
            && ProperStamp(o.buyTimestamp, at) && ProperStamp(o.sellTimestamp, at)
            && at - o.buyTimestamp.value <= 190 && at - o.sellTimestamp.value <= 190
  {
    FreshExactly(o, at);
  }

  /** What a net percentage adds: one band, below 0.3 percent, below 0.5 percent or above, and one decision. */
  lemma EconomicsCounts(e: Economics, o: Sighting, at: int, dispatchFresh: bool, cap: nat)
    requires o.netProfit.Some?
    ensures var after, net := ObserveEconomics(e, o, at, dispatchFresh, cap), o.netProfit.value;
            && after.observed == e.observed + 1
            && after.discovered == e.discovered + One(net < 300000)
            && after.qualified == e.qualified + One(300000 <= net < 500000)
            && after.live == e.live + One(net >= 500000)
            && after.execute == e.execute + One(o.decision == Execute)
            && after.review == e.review + One(o.decision == Review)
            && after.skip == e.skip + One(o.decision == Skip)
            && after.reservedLive == e.reservedLive + One(net >= 500000 && dispatchFresh && o.decision == Execute)
            && after.illiquid == e.illiquid + One(!o.enoughLiquidity)
  {
  }

  /** And what is kept of it: the first and last times, the latest and the best net, the samples of net and of fees. */
  lemma EconomicsSamples(e: Economics, o: Sighting, at: int, dispatchFresh: bool, cap: nat)
    requires o.netProfit.Some? && cap > 0 && at > 0
    ensures var after, net := ObserveEconomics(e, o, at, dispatchFresh, cap), o.netProfit.value;
            && after.latest == Some(net)
            && after.best == Some(if e.best.Some? && e.best.value > net then e.best.value else net)
            && after.firstAt == (if e.firstAt.Some? then e.firstAt else Some(at))
            && after.lastAt == Some(if e.lastAt.Some? && e.lastAt.value > at then e.lastAt.value else at)
            && after.nets == LastN(e.nets + [net], cap)
            && after.fees == if o.rawSpread.None? then e.fees else LastN(e.fees + [o.rawSpread.value - net], cap)
  {
  }

  /** Without a net percentage nothing is counted. */
  lemma NoEconomics(e: Economics, o: Sighting, at: int, dispatchFresh: bool, cap: nat)
    requires o.netProfit.None?
    ensures ObserveEconomics(e, o, at, dispatchFresh, cap) == e
  {
  }

  /** A new generation of a route: what it is counted as. */
  lemma GenerationCounts(r: Route, o: Sighting, at: int, caps: Caps)
    requires KeyOf(o) !in r.keys
    ensures var after, graded := ObserveRoute(r, o, at, caps), ExecutionGrade(o, at);
            var within := graded && at - o.buyTimestamp.value <= 190 && at - o.sellTimestamp.value <= 190;
            && after.key == r.key && after.keys == LastN(r.keys + [(o.buyTimestamp, o.sellTimestamp)], caps.keys)
            && after.seen.unique == r.seen.unique + 1 && after.seen.repeated == r.seen.repeated
            && after.seen.firstAt == r.seen.firstAt && after.seen.lastAt == Max(r.seen.lastAt, at)
            && after.rejected == r.rejected + One(!graded)
            && after.grade.generations == r.grade.generations + One(graded)
            && after.reserved.generations == r.reserved.generations + One(within)
            && after.reservedRejected == r.reservedRejected + One(graded && !within)
            && after.economics == ObserveEconomics(r.economics, o, at,
                 DispatchFresh(o, at) && o.buyExecutable && o.sellExecutable && o.enoughLiquidity, caps.samples)
  {
    GradedExactly(o, at);
  }

  /** Its ages join the samples of the cohorts it is counted in, and its reasons are counted where it is rejected. */
  lemma GenerationSamples(r: Route, o: Sighting, at: int, caps: Caps)
    requires KeyOf(o) !in r.keys
    ensures var after, graded := ObserveRoute(r, o, at, caps), ExecutionGrade(o, at);
            && (!graded ==> after.grade == r.grade && after.reserved == r.reserved)
            && (graded ==>
                  && after.rejections == r.rejections
                  && after.grade.buyAges == LastN(r.grade.buyAges + [at - o.buyTimestamp.value], caps.samples)
                  && after.grade.sellAges == LastN(r.grade.sellAges + [at - o.sellTimestamp.value], caps.samples)
                  && (after.reserved.generations > r.reserved.generations ==>
                        && after.reserved.buyAges
                           == LastN(r.reserved.buyAges + [at - o.buyTimestamp.value], caps.samples)
                        && after.reserved.sellAges
                           == LastN(r.reserved.sellAges + [at - o.sellTimestamp.value], caps.samples))
                  && (after.reserved.generations == r.reserved.generations ==> after.reserved == r.reserved))
            && after.rejections.Keys == r.rejections.Keys
            && (!graded ==> forall reason :: reason in r.rejections ==>
                  after.rejections[reason] == r.rejections[reason] + One(reason in Rejections(o, at)))
  {
    GradedExactly(o, at);
  }

  /** The largest ages and the largest skew seen so far, of the stamps that give any. */
  lemma GenerationExtremes(r: Route, o: Sighting, at: int, caps: Caps)
    requires KeyOf(o) !in r.keys
    ensures var after := ObserveRoute(r, o, at, caps).seen;
            && after.maxBuyAge == (if o.buyTimestamp.Some? && at - o.buyTimestamp.value > r.seen.maxBuyAge
                                      && at >= o.buyTimestamp.value then at - o.buyTimestamp.value
                                         else r.seen.maxBuyAge)
            && after.maxSellAge == (if o.sellTimestamp.Some? && at - o.sellTimestamp.value > r.seen.maxSellAge
                                       && at >= o.sellTimestamp.value then at - o.sellTimestamp.value
                                          else r.seen.maxSellAge)
            && after.maxSkew == (if o.buyTimestamp.Some? && o.sellTimestamp.Some?
                                    && Abs(o.buyTimestamp.value - o.sellTimestamp.value) > r.seen.maxSkew
                                 then Abs(o.buyTimestamp.value - o.sellTimestamp.value) else r.seen.maxSkew)
  {
  }

  /** A generation seen before only bumps the repeats. */
  lemma RepeatCounts(r: Route, o: Sighting, at: int, caps: Caps)
    requires (o.buyTimestamp, o.sellTimestamp) in r.keys
    ensures ObserveRoute(r, o, at, caps) == r.(seen := r.seen.(repeated := r.seen.repeated + 1))
  {
  }

  // ---- what every route keeps ----

  ghost predicate Within(ages: seq<int>, limit: int) {
    forall i :: 0 <= i < |ages| ==> 0 <= ages[i] <= limit
  }

  function Min(a: nat, b: nat): nat { if a <= b then a else b }

  ghost predicate CohortKept(c: Cohort, limit: int, cap: nat) {
    && Within(c.buyAges, limit) && Within(c.sellAges, limit)
    && |c.buyAges| == |c.sellAges| == Min(c.generations, cap)
    && (c.firstAt.Some? <==> c.generations > 0) && (c.lastAt.Some? <==> c.generations > 0)
    && (c.firstAt.Some? ==>
          ValidTime(c.firstAt.value) && ValidTime(c.lastAt.value) && c.firstAt.value <= c.lastAt.value)
  }

  ghost predicate EconomicsKept(e: Economics, cap: nat) {
    && e.observed == e.discovered + e.qualified + e.live == e.execute + e.review + e.skip
    && e.reservedLive <= Min(e.live, e.execute) && e.illiquid <= e.observed
    && |e.nets| == Min(e.observed, cap) && |e.fees| <= |e.nets|
    && (e.firstAt.Some? <==> e.observed > 0) && (e.lastAt.Some? <==> e.observed > 0)
    && (e.firstAt.Some? ==>
          ValidTime(e.firstAt.value) && ValidTime(e.lastAt.value) && e.firstAt.value <= e.lastAt.value)
    && (e.latest.Some? <==> e.observed > 0) && (e.best.Some? <==> e.observed > 0)
    && (e.latest.Some? ==> e.latest.value <= e.best.value)
  }

  ghost predicate KeysKept(keys: seq<GenerationKey>, unique: nat, cap: nat) {
    |keys| == Min(unique, cap) && forall i, j :: 0 <= i < j < |keys| ==> keys[i] != keys[j]
  }

  ghost predicate SeenKept(s: Seen) {
    ValidTime(s.firstAt) && ValidTime(s.lastAt) && s.firstAt <= s.lastAt && s.maxBuyAge >= 0 && s.maxSellAge >= 0
      && s.maxSkew >= 0
  }

  ghost predicate RejectionsKept(rejections: map<Reason, nat>, rejected: nat) {
    forall r: Reason :: r in rejections && rejections[r] <= rejected
  }

  ghost predicate Tallied(r: Route) {
    && r.seen.unique == r.grade.generations + r.rejected
    && r.grade.generations == r.reserved.generations + r.reservedRejected
    && r.economics.reservedLive <= r.reserved.generations
    && r.economics.observed <= r.seen.unique
  }

  ghost predicate RouteKept(r: Route, caps: Caps) {
    && Tallied(r) && SeenKept(r.seen) && KeysKept(r.keys, r.seen.unique, caps.keys)
    && CohortKept(r.grade, MAXIMUM_BOOK_AGE_MS, caps.samples)
    && CohortKept(r.reserved, DISPATCH_RESERVED_MAXIMUM_BOOK_AGE_MS, caps.samples)
    && EconomicsKept(r.economics, caps.samples) && RejectionsKept(r.rejections, r.rejected)
  }

  lemma NewRouteKept(key: string, at: int, caps: Caps)
    requires ValidTime(at)
    ensures RouteKept(NewRoute(key, at), caps)
  {
    forall r: Reason ensures r in NO_REJECTIONS {
      match r
      case NonExecuteDecision => case FallbackQuote => case NonExecutableQuote => case InvalidQuoteTimestamp =>
      case BuyBookStale => case SellBookStale => case BookTimestampSkew =>
    }
  }

  lemma AdmitKeeps(c: Cohort, at: int, buyAge: int, sellAge: int, limit: int, cap: nat)
    requires CohortKept(c, limit, cap) && ValidTime(at) && cap > 0 && 0 <= buyAge <= limit && 0 <= sellAge <= limit
    ensures CohortKept(Admit(c, at, buyAge, sellAge, cap), limit, cap)
  {
  }

  lemma EconomicsKeeps(e: Economics, o: Sighting, at: int, dispatchFresh: bool, cap: nat)
    requires EconomicsKept(e, cap) && ValidTime(at) && cap > 0
    ensures EconomicsKept(ObserveEconomics(e, o, at, dispatchFresh, cap), cap)
  {
  }

  lemma KeysKeep(keys: seq<GenerationKey>, k: GenerationKey, unique: nat, cap: nat)
    requires KeysKept(keys, unique, cap) && k !in keys && cap > 0
    ensures KeysKept(Retain(keys, k, cap), unique + 1, cap)
  {
  }

  ghost predicate CohortsKept(r: Route, cap: nat) {
    && CohortKept(r.grade, MAXIMUM_BOOK_AGE_MS, cap)
    && CohortKept(r.reserved, DISPATCH_RESERVED_MAXIMUM_BOOK_AGE_MS, cap)
    && RejectionsKept(r.rejections, r.rejected) && r.grade.generations == r.reserved.generations + r.reservedRejected
  }

  lemma GradeKeeps(r: Route, o: Sighting, at: int, cap: nat)
    requires CohortsKept(r, cap) && ValidTime(at) && cap > 0
    ensures var g := Grade(r, o, at, cap);
            && CohortsKept(g, cap)
            && g == r.(grade := g.grade, reserved := g.reserved, reservedRejected := g.reservedRejected,
                       rejected := g.rejected, rejections := g.rejections)
            && g.grade.generations + g.rejected == r.grade.generations + r.rejected + 1
            && g.reserved.generations
               == r.reserved.generations
               + One(ExecutionGrade(o, at) && WithinReserve(at - o.buyTimestamp.value, at - o.sellTimestamp.value))
  {
    GradedExactly(o, at);
    if ExecutionGrade(o, at) {
      var buyAge, sellAge := at - o.buyTimestamp.value, at - o.sellTimestamp.value;
      AdmitKeeps(r.grade, at, buyAge, sellAge, MAXIMUM_BOOK_AGE_MS, cap);
      if WithinReserve(buyAge, sellAge) {
        AdmitKeeps(r.reserved, at, buyAge, sellAge, DISPATCH_RESERVED_MAXIMUM_BOOK_AGE_MS, cap);
      }
    }
  }

  /** Every observation keeps the route's books balanced and its samples within their limits. */
  lemma ObserveKeepsRoute(r: Route, o: Sighting, at: int, caps: Caps)
    requires RouteKept(r, caps) && ValidTime(at) && ValidCaps(caps)
    ensures RouteKept(ObserveRoute(r, o, at, caps), caps)
  {
    if KeyOf(o) !in r.keys {
      var noted := r.(keys := Retain(r.keys, KeyOf(o), caps.keys), seen := Noticed(r.seen, o, at),
                      economics := ObserveEconomics(r.economics, o, at, Dispatchable(o, at), caps.samples));
      KeysKeep(r.keys, KeyOf(o), r.seen.unique, caps.keys);
      EconomicsKeeps(r.economics, o, at, Dispatchable(o, at), caps.samples);
      GradeKeeps(noted, o, at, caps.samples);
      if Dispatchable(o, at) && o.decision == Execute {
        DispatchFreshIsReserved(o, at);
      }
    }
  }
}
