/** The pilot evidence service: the object that observes snapshots, keeps the routes and restores them. */
module PilotService {
  import opened Wrappers
  import opened Decisions
  import opened InsertionMap
  import opened PilotRoute
  import opened PilotEvidence
  import opened PilotSnapshot

  /** `retain`: its guard against a sample that is not a non-negative number is this precondition. */
  method RetainAge(values: seq<int>, age: Option<int>, cap: nat) returns (r: seq<int>)
    requires age.Some? && age.value >= 0
    ensures r == Retain(values, age.value, cap)
  {
    r := values + [age.value];
    if |r| > cap {
      r := r[|r| - cap..];
    }
  }

  method RetainPercent(values: seq<int>, percent: int, cap: nat) returns (r: seq<int>)
    ensures r == Retain(values, percent, cap)
  {
    r := values + [percent];
    if |r| > cap {
      r := r[|r| - cap..];
    }
  }

  /** Counts one more generation key: the oldest keys beyond the cap leave the list and the set. */
  method CountKey(keys: seq<GenerationKey>, known: set<GenerationKey>, key: GenerationKey, cap: nat)
    returns (keys': seq<GenerationKey>, known': set<GenerationKey>)
    requires known == KeySet(keys) && key !in keys
    requires forall i, j :: 0 <= i < j < |keys| ==> keys[i] != keys[j]
    ensures keys' == Retain(keys, key, cap) && known' == KeySet(keys')
  {
    known' := known + {key};
    var all := keys + [key];
    if |all| <= cap {
      keys' := all;
      return;
    }
    var excess := |all| - cap;
    for i := 0 to excess
      invariant known' == KeySet(all[i..])
    {
      assert all[i..] == [all[i]] + all[i + 1..];
      assert all[i] !in all[i + 1..];
      known' := known' - {all[i]};
    }
    keys' := all[excess..];
  }

  method CountRejections(counts: map<Reason, nat>, reasons: seq<Reason>) returns (r: map<Reason, nat>)
    requires forall reason: Reason :: reason in counts
    requires NoDuplicates(reasons)
    ensures r == Bumped(counts, reasons)
  {
    r := counts;
    for i := 0 to |reasons|
      invariant r == Bumped(counts, reasons[..i])
    {
      assert reasons[..i + 1] == reasons[..i] + [reasons[i]];
      assert reasons[i] !in reasons[..i];
      r := r[reasons[i] := r[reasons[i]] + 1];
    }
    assert reasons[..|reasons|] == reasons;
  }

  method ObserveProfit(e: Economics, o: Sighting, at: int, dispatchFresh: bool, cap: nat) returns (r: Economics)
    ensures r == ObserveEconomics(e, o, at, dispatchFresh, cap)
  {
    r := e;
    if o.netProfit.None? {
      return;
    }
    var net := o.netProfit.value;
    var nets := RetainPercent(e.nets, net, cap);
    var fees := e.fees;
    if o.rawSpread.Some? {
      fees := RetainPercent(fees, o.rawSpread.value - net, cap);
    }
    r := r.(firstAt := Some(e.firstAt.GetOr(at)), lastAt := Some(Max(e.lastAt.GetOr(0), at)),
            observed := e.observed + 1, latest := Some(net),
            best := Some(if e.best.None? then net else Max(e.best.value, net)), nets := nets, fees := fees);
    r := CountBand(r, net, dispatchFresh && o.decision == Execute);
    r := CountDecision(r, o);
  }

  method CountBand(e: Economics, net: int, dispatched: bool) returns (r: Economics)
    ensures r == e.(discovered := e.discovered + One(net < QUALIFICATION_MINIMUM_NET_PROFIT),
                    qualified := e.qualified + One(QUALIFICATION_MINIMUM_NET_PROFIT <= net < LIVE_MINIMUM_NET_PROFIT),
                    live := e.live + One(net >= LIVE_MINIMUM_NET_PROFIT),
                    reservedLive := e.reservedLive + One(net >= LIVE_MINIMUM_NET_PROFIT && dispatched))
  {
    r := e;
    if net >= LIVE_MINIMUM_NET_PROFIT {
      r := r.(live := r.live + 1);
      if dispatched {
        r := r.(reservedLive := r.reservedLive + 1);
      }
    } else if net >= QUALIFICATION_MINIMUM_NET_PROFIT {
      r := r.(qualified := r.qualified + 1);
    } else {
      r := r.(discovered := r.discovered + 1);
    }
  }

  method CountDecision(e: Economics, o: Sighting) returns (r: Economics)
    ensures r == e.(execute := e.execute + One(o.decision == Execute), review := e.review + One(o.decision == Review),
                    skip := e.skip + One(o.decision == Skip), illiquid := e.illiquid + One(!o.enoughLiquidity))
  {
    r := e;
    match o.decision {
      case Execute => r := r.(execute := r.execute + 1);
      case Review => r := r.(review := r.review + 1);
      case Skip => r := r.(skip := r.skip + 1);
    }
    if !o.enoughLiquidity {
      r := r.(illiquid := r.illiquid + 1);
    }
  }

  method AdmitTo(c: Cohort, at: int, buyAge: Option<int>, sellAge: Option<int>, cap: nat) returns (r: Cohort)
    requires buyAge.Some? && sellAge.Some? && buyAge.value >= 0 && sellAge.value >= 0
    ensures r == Admit(c, at, buyAge.value, sellAge.value, cap)
  {
    r := c.(generations := c.generations + 1);
    var buyAges := RetainAge(r.buyAges, buyAge, cap);
    var sellAges := RetainAge(r.sellAges, sellAge, cap);
    r := r.(buyAges := buyAges, sellAges := sellAges);
    r := r.(firstAt := Some(r.firstAt.GetOr(at)));
    r := r.(lastAt := Some(Max(r.lastAt.GetOr(0), at)));
  }

  lemma AppendDistinct(a: seq<Reason>, b: seq<Reason>)
    requires NoDuplicates(a) && NoDuplicates(b) && forall r :: r in a ==> r !in b
    ensures NoDuplicates(a + b)
  {
    forall i, j | 0 <= i < |a| && 0 <= j < |b| ensures a[i] != b[j] {
      assert a[i] in a && b[j] in b;
    }
  }

  lemma DistinctFreshnessReasons(o: Sighting, at: int)
    ensures NoDuplicates(FreshnessReasons(o, at))
  {
    var fallback := If(o.usedLastPriceFallback || !o.quotesAreFresh, FallbackQuote);
    var invalid := If(BadStamp(at, o.buyTimestamp) || BadStamp(at, o.sellTimestamp), InvalidQuoteTimestamp);
    var buy := If(Over(Age(at, o.buyTimestamp), MAXIMUM_BOOK_AGE_MS), BuyBookStale);
    var sell := If(Over(Age(at, o.sellTimestamp), MAXIMUM_BOOK_AGE_MS), SellBookStale);
    AppendDistinct(fallback, invalid);
    AppendDistinct(fallback + invalid, buy);
    AppendDistinct(fallback + invalid + buy, sell);
    AppendDistinct(fallback + invalid + buy + sell, If(Over(Skew(o), MAXIMUM_BOOK_SKEW_MS), BookTimestampSkew));
  }

  /** No reason is given twice, so each rejected generation bumps a count at most once. */
  lemma DistinctReasons(o: Sighting, at: int)
    ensures NoDuplicates(Rejections(o, at))
  {
    DistinctFreshnessReasons(o, at);
    var decision := If(o.decision != Execute, NonExecuteDecision);
    var executable := If(!o.buyExecutable || !o.sellExecutable, NonExecutableQuote);
    AppendDistinct(decision, executable);
    assert forall r :: r in FreshnessReasons(o, at) ==> r != NonExecuteDecision && r != NonExecutableQuote;
    AppendDistinct(decision + executable, FreshnessReasons(o, at));
  }

  method GradeGeneration(route: Route, o: Sighting, at: int, cap: nat) returns (r: Route)
    requires forall reason: Reason :: reason in route.rejections
    ensures r == Grade(route, o, at, cap)
  {
    r := route;
    GradedExactly(o, at);
    var buyAge, sellAge := Age(at, o.buyTimestamp), Age(at, o.sellTimestamp);
    var rejections := Rejections(o, at);
    if |rejections| > 0 {
      DistinctReasons(o, at);
      r := r.(rejected := r.rejected + 1);
      var counts := CountRejections(r.rejections, rejections);
      r := r.(rejections := counts);
      return;
    }
    var grade := AdmitTo(r.grade, at, buyAge, sellAge, cap);
    r := r.(grade := grade);
    if buyAge.value <= DISPATCH_RESERVED_MAXIMUM_BOOK_AGE_MS && sellAge.value <= DISPATCH_RESERVED_MAXIMUM_BOOK_AGE_MS {
      var reserved := AdmitTo(r.reserved, at, buyAge, sellAge, cap);
      r := r.(reserved := reserved);
    } else {
      r := r.(reservedRejected := r.reservedRejected + 1);
    }
  }

  method CountNewGeneration(route: Route, known: set<GenerationKey>, o: Sighting, at: int, caps: Caps)
    returns (r: Route, known': set<GenerationKey>)
    requires RouteKept(route, caps) && known == KeySet(route.keys) && KeyOf(o) !in route.keys
    ensures r == CountGeneration(route, o, at, caps) && known' == KeySet(r.keys)
  {
    var keys;
    keys, known' := CountKey(route.keys, known, KeyOf(o), caps.keys);
    var dispatchFresh := DispatchFresh(o, at) && o.buyExecutable && o.sellExecutable && o.enoughLiquidity;
    var economics := ObserveProfit(route.economics, o, at, dispatchFresh, caps.samples);
    r := route.(keys := keys, seen := Noticed(route.seen, o, at), economics := economics);
    r := GradeGeneration(r, o, at, caps.samples);
  }

  class EvidenceService {
    const caps: Caps
    var routes: Entries<Route>
    var keySets: map<string, set<GenerationKey>>
    var snapshotsObserved: nat
    var opportunitiesObserved: nat
    var excludedVenueOpportunities: nat
    var eligibleVenueOpportunities: nat
    var invalidObservationsRejected: nat
    var observerFailures: nat

    ghost function Now(): Evidence
      reads this
    {
      Evidence(snapshotsObserved, opportunitiesObserved, excludedVenueOpportunities, eligibleVenueOpportunities,
               invalidObservationsRejected, observerFailures, Board(routes, keySets))
    }

    constructor (caps: Caps)
      ensures this.caps == caps && Now() == NO_EVIDENCE && routes == [] && keySets == map[]
      ensures snapshotsObserved == opportunitiesObserved == excludedVenueOpportunities == 0
      ensures eligibleVenueOpportunities == invalidObservationsRejected == observerFailures == 0
    {
      this.caps := caps;
      routes, keySets := [], map[];
      snapshotsObserved, opportunitiesObserved, excludedVenueOpportunities := 0, 0, 0;
      eligibleVenueOpportunities, invalidObservationsRejected, observerFailures := 0, 0, 0;
    }

    method RestoreFrom(p: Snapshot)
      requires Valid(p) && Now() == NO_EVIDENCE
      modifies this
      ensures Now() == Restore(p, caps)
    {
      snapshotsObserved, opportunitiesObserved := p.snapshots, p.opportunities;
      excludedVenueOpportunities, eligibleVenueOpportunities := p.excluded, p.eligible;
      invalidObservationsRejected, observerFailures := p.invalid, p.failures;
      var kept := LastN(p.routes, caps.routes);
      for i := 0 to |kept|
        invariant Now() == Restore(p, caps).(board := RestoreRoutes(kept[..i], caps))
      {
        assert kept[..i + 1][..i] == kept[..i];
        WriteRoute(RestoreRoute(kept[i], caps));
      }
      assert kept[..|kept|] == kept;
    }

    method WriteRoute(route: Route)
      modifies `routes, `keySets
      ensures Board(routes, keySets) == Write(old(Now()).board, route.key, route)
    {
      routes := Insert(routes, route.key, route);
      keySets := keySets[route.key := set k | k in route.keys];
    }

    method RecordObserverFailure()
      modifies `observerFailures
      ensures Now() == Act(old(Now()), RecordFailure, caps)
    {
      observerFailures := observerFailures + 1;
    }

    /** Finds or makes the route; a full board gives up its oldest one. */
    method EnsureRoute(key: string, at: int) returns (route: Route)
      requires BoardKept(Now().board, caps) && ValidCaps(caps) && ValidTime(at)
      modifies `routes, `keySets
      ensures Board(routes, keySets) == PilotEvidence.EnsureRoute(old(Now()).board, key, at, caps)
      ensures BoardKept(Board(routes, keySets), caps)
      ensures Find(routes, key) == Some(route) && RouteKept(route, caps)
      ensures key in keySets && keySets[key] == KeySet(route.keys)
    {
      EnsureKeeps(Now().board, key, at, caps);
      FoundIsKept(PilotEvidence.EnsureRoute(Now().board, key, at, caps), key, caps);
      var existing := Find(routes, key);
      if existing.Some? {
        return existing.value;
      }
      if |routes| >= caps.routes && routes != [] {
        var oldest := routes[Oldest(routes)].1.key;
        routes, keySets := Drop(routes, oldest), keySets - {oldest};
      }
      route := NewRoute(key, at);
      FindInsert(routes, key, route, key);
      routes := Insert(routes, key, route);
      assert KeySet(route.keys) == {};
      keySets := keySets[key := {}];
    }

    method ObservePilotOpportunity(key: string, o: Sighting, at: int)
      requires BoardKept(Now().board, caps) && ValidCaps(caps) && ValidTime(at)
      modifies `routes, `keySets
      ensures Board(routes, keySets) == ObserveOn(old(Now()).board, key, o, at, caps)
    {
      var route := EnsureRoute(key, at);
      var known := keySets[key];
      if KeyOf(o) in known {
        route := route.(seen := route.seen.(repeated := route.seen.repeated + 1));
        routes := Insert(routes, key, route);
        return;
      }
      route, known := CountNewGeneration(route, known, o, at, caps);
      routes, keySets := Insert(routes, key, route), keySets[key := known];
    }

    method ObserveSnapshot(generatedAt: int, sightings: seq<Sighting>, observedAt: int)
      requires Kept(Now(), caps) && ValidCaps(caps)
      modifies this
      ensures Now() == Act(old(Now()), Action.ObserveSnapshot(generatedAt, sightings, observedAt), caps)
    {
      if !ValidTime(observedAt) || !ValidTime(generatedAt) || observedAt < generatedAt {
        invalidObservationsRejected := invalidObservationsRejected + 1;
        return;
      }
      snapshotsObserved := snapshotsObserved + 1;
      opportunitiesObserved := opportunitiesObserved + |sightings|;
      ObserveEach(sightings, observedAt);
    }

    method ObserveEach(sightings: seq<Sighting>, at: int)
      requires BoardKept(Now().board, caps) && ValidCaps(caps) && ValidTime(at)
      modifies this
      ensures Now() == ObserveAll(old(Now()), sightings, at, caps)
    {
      for i := 0 to |sightings|
        invariant Now() == ObserveAll(old(Now()), sightings[..i], at, caps)
      {
        assert sightings[..i + 1][..i] == sightings[..i];
        ObserveAllKeeps(old(Now()), sightings[..i], at, caps);
        ObserveOne(sightings[i], at);
      }
      assert sightings[..|sightings|] == sightings;
    }

    method ObserveOne(o: Sighting, at: int)
      requires BoardKept(Now().board, caps) && ValidCaps(caps) && ValidTime(at)
      modifies this
      ensures Now() == Observe(old(Now()), o, at, caps)
    {
      if !IsPilot(o) {
        excludedVenueOpportunities := excludedVenueOpportunities + 1;
        return;
      }
      eligibleVenueOpportunities := eligibleVenueOpportunities + 1;
      var key := RouteKey(o);
      if key.None? {
        invalidObservationsRejected := invalidObservationsRejected + 1;
        return;
      }
      ObservePilotOpportunity(key.value, o, at);
    }
  }
}
