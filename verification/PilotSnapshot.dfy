/** Pilot evidence as a persisted snapshot: writing it, the check on reading it, and restoring it. */
module PilotSnapshot {
  import opened Wrappers
  import opened InsertionMap
  import opened PilotRoute
  import opened PilotEvidence

  datatype Snapshot = Snapshot(
    savedAt: int, snapshots: int, opportunities: int, excluded: int, eligible: int, invalid: int, failures: int,
    routes: seq<Route>)

  function Save(s: Evidence, now: int): Snapshot {
    Snapshot(now, s.snapshots, s.opportunities, s.excluded, s.eligible, s.invalid, s.failures, Values(s.board.routes))
  }

  // ---- the validator ----

  const SAMPLE_LIMIT := 10000

  predicate Counter(n: int) { 0 <= n <= MAX_SAFE_INTEGER }

  predicate OptionalTime(t: Option<int>) { t.Some? ==> ValidTime(t.value) }

  predicate Samples(s: seq<int>) { |s| <= SAMPLE_LIMIT && forall i :: 0 <= i < |s| ==> s[i] >= 0 }

  predicate ValidCohort(c: Cohort) {
    OptionalTime(c.firstAt) && OptionalTime(c.lastAt) && Samples(c.buyAges) && Samples(c.sellAges)
  }

  predicate ValidEconomics(e: Economics) {
    && OptionalTime(e.firstAt) && OptionalTime(e.lastAt) && |e.nets| <= SAMPLE_LIMIT && |e.fees| <= SAMPLE_LIMIT
    && Counter(e.observed) && Counter(e.discovered) && Counter(e.qualified) && Counter(e.live)
    && Counter(e.execute) && Counter(e.review) && Counter(e.skip) && Counter(e.reservedLive) && Counter(e.illiquid)
  }

  predicate ValidRejections(rejections: map<Reason, nat>) {
    forall r: Reason :: r in rejections && Counter(rejections[r])
  }

  /** `isPersistedRoute` */
  predicate ValidRoute(r: Route) {
    && ValidTime(r.seen.firstAt) && ValidTime(r.seen.lastAt)
    && r.seen.maxBuyAge >= 0 && r.seen.maxSellAge >= 0 && r.seen.maxSkew >= 0
    && ValidCohort(r.grade) && ValidCohort(r.reserved)
    && Counter(r.reserved.generations) && Counter(r.reservedRejected)
    && ValidEconomics(r.economics) && ValidRejections(r.rejections)
  }

  /** `isPersistedSnapshot` */
  predicate Valid(p: Snapshot) {
    && ValidTime(p.savedAt)
    && Counter(p.snapshots) && Counter(p.opportunities) && Counter(p.excluded) && Counter(p.eligible)
    && Counter(p.invalid) && Counter(p.failures)
    && forall i :: 0 <= i < |p.routes| ==> ValidRoute(p.routes[i])
  }

  /** What a readable snapshot has, route by route. */
  lemma ValidExactly(p: Snapshot)
    ensures Valid(p) <==>
            && 0 < p.savedAt <= 9007199254740991
            && 0 <= p.snapshots <= 9007199254740991 && 0 <= p.opportunities <= 9007199254740991
            && 0 <= p.excluded <= 9007199254740991 && 0 <= p.eligible <= 9007199254740991
            && 0 <= p.invalid <= 9007199254740991 && 0 <= p.failures <= 9007199254740991
            && forall i :: 0 <= i < |p.routes| ==> ValidRoute(p.routes[i])
  {
  }

  lemma ValidRouteExactly(r: Route)
    ensures ValidRoute(r) <==>
            && 0 < r.seen.firstAt <= 9007199254740991 && 0 < r.seen.lastAt <= 9007199254740991
            && r.seen.maxBuyAge >= 0 && r.seen.maxSellAge >= 0 && r.seen.maxSkew >= 0
            && ValidCohort(r.grade) && ValidCohort(r.reserved) && ValidEconomics(r.economics)
            && 0 <= r.reserved.generations <= 9007199254740991 && 0 <= r.reservedRejected <= 9007199254740991
            && forall reason: Reason :: reason in r.rejections && 0 <= r.rejections[reason] <= 9007199254740991
  {
  }

  lemma ValidCohortExactly(c: Cohort)
    ensures ValidCohort(c) <==>
            && (c.firstAt.Some? ==> 0 < c.firstAt.value <= 9007199254740991)
            && (c.lastAt.Some? ==> 0 < c.lastAt.value <= 9007199254740991)
            && |c.buyAges| <= 10000 && |c.sellAges| <= 10000
            && (forall i :: 0 <= i < |c.buyAges| ==> c.buyAges[i] >= 0)
            && (forall i :: 0 <= i < |c.sellAges| ==> c.sellAges[i] >= 0)
  {
  }

  lemma ValidEconomicsExactly(e: Economics)
    ensures ValidEconomics(e) <==>
            && (e.firstAt.Some? ==> 0 < e.firstAt.value <= 9007199254740991)
            && (e.lastAt.Some? ==> 0 < e.lastAt.value <= 9007199254740991)
            && |e.nets| <= 10000 && |e.fees| <= 10000
            && e.observed <= 9007199254740991 && e.discovered <= 9007199254740991 && e.qualified <= 9007199254740991
            && e.live <= 9007199254740991 && e.execute <= 9007199254740991 && e.review <= 9007199254740991
            && e.skip <= 9007199254740991 && e.reservedLive <= 9007199254740991 && e.illiquid <= 9007199254740991
  {
  }

  /** A snapshot is all counters and routes of its moment. */
  lemma SavedIs(s: Evidence, now: int)
    ensures var p := Save(s, now);
            && p.savedAt == now && p.snapshots == s.snapshots && p.opportunities == s.opportunities
            && p.excluded == s.excluded && p.eligible == s.eligible && p.invalid == s.invalid
            && p.failures == s.failures
            && |p.routes| == |s.board.routes| && forall i :: 0 <= i < |p.routes| ==> p.routes[i] == s.board.routes[i].1
  {
  }

  /** Counts small enough to be exact in the source's numbers. */
  ghost predicate CountsSafe(s: Evidence) {
    && Counter(s.snapshots) && Counter(s.opportunities) && Counter(s.invalid) && Counter(s.failures)
    && forall i :: 0 <= i < |s.board.routes| ==> Counter(s.board.routes[i].1.seen.unique)
  }

  predicate FewSamples(r: Route) { r.grade.generations <= SAMPLE_LIMIT && r.economics.observed <= SAMPLE_LIMIT }

  lemma RouteValidExactly(r: Route, caps: Caps)
    requires RouteKept(r, caps) && Counter(r.seen.unique)
    ensures ValidRoute(r) <==> caps.samples <= SAMPLE_LIMIT || FewSamples(r)
  {
    assert ValidRejections(r.rejections);
    assert CohortsSized(r.grade, caps.samples) && CohortsSized(r.reserved, caps.samples);
  }

  predicate CohortsSized(c: Cohort, cap: nat) { |c.buyAges| == |c.sellAges| == Min(c.generations, cap) }

  /**
    The validator accepts a snapshot the service writes exactly when the sample cap is at most
    10,000 or no route has yet had more samples than that.
   */
  lemma SavedIsValidExactly(s: Evidence, now: int, caps: Caps)
    requires Kept(s, caps) && CountsSafe(s) && ValidTime(now)
    ensures Valid(Save(s, now)) <==>
            caps.samples <= SAMPLE_LIMIT || forall i :: 0 <= i < |s.board.routes| ==> FewSamples(s.board.routes[i].1)
  {
    var p := Save(s, now);
    forall i | 0 <= i < |s.board.routes|
      ensures ValidRoute(p.routes[i]) <==> caps.samples <= SAMPLE_LIMIT || FewSamples(s.board.routes[i].1)
    {
      assert EntryKept(s.board, i, caps);
      RouteValidExactly(s.board.routes[i].1, caps);
    }
  }

  /** The caps the running service is made with. */
  const DEFAULT_CAPS := Caps(128, 4096, 512)

  /** Under them it reads every snapshot it writes. */
  lemma DefaultSavedIsValid(s: Evidence, now: int)
    requires Kept(s, DEFAULT_CAPS) && CountsSafe(s) && ValidTime(now)
    ensures Valid(Save(s, now))
  {
    SavedIsValidExactly(s, now, DEFAULT_CAPS);
  }

  // ---- restoring ----

  function Trim(c: Cohort, cap: nat): Cohort {
    c.(buyAges := LastN(c.buyAges, cap), sellAges := LastN(c.sellAges, cap))
  }

  function RestoreRoute(r: Route, caps: Caps): Route {
    r.(keys := LastN(r.keys, caps.keys), grade := Trim(r.grade, caps.samples),
       reserved := Trim(r.reserved, caps.samples),
       economics := r.economics.(nets := LastN(r.economics.nets, caps.samples),
                                 fees := LastN(r.economics.fees, caps.samples)))
  }

  function RestoreRoutes(routes: seq<Route>, caps: Caps): Board {
    if routes == [] then NO_BOARD
    else
      var r := routes[|routes| - 1];
      Write(RestoreRoutes(routes[..|routes| - 1], caps), r.key, RestoreRoute(r, caps))
  }

  function CountOf(n: int): nat { if n < 0 then 0 else n }

  function Restore(p: Snapshot, caps: Caps): Evidence {
    Evidence(CountOf(p.snapshots), CountOf(p.opportunities), CountOf(p.excluded), CountOf(p.eligible),
             CountOf(p.invalid), CountOf(p.failures),
             RestoreRoutes(LastN(p.routes, caps.routes), caps))
  }

  /** Restoring takes counters as they are, or as none where they are negative, and the last routes up to the cap. */
  lemma RestoredCounters(p: Snapshot, caps: Caps)
    ensures var s := Restore(p, caps);
            && s.snapshots == Max(0, p.snapshots) && s.opportunities == Max(0, p.opportunities)
            && s.excluded == Max(0, p.excluded) && s.eligible == Max(0, p.eligible)
            && s.invalid == Max(0, p.invalid) && s.failures == Max(0, p.failures)
            && s.board == RestoreRoutes(LastN(p.routes, caps.routes), caps)
  {
  }

  /** Of a restored route the lists are the last entries up to the caps, and all else is as it was. */
  lemma RestoredRoute(r: Route, caps: Caps)
    ensures var after := RestoreRoute(r, caps);
            && after.keys == LastN(r.keys, caps.keys)
            && after.grade.buyAges == LastN(r.grade.buyAges, caps.samples)
            && after.grade.sellAges == LastN(r.grade.sellAges, caps.samples)
            && after.reserved.buyAges == LastN(r.reserved.buyAges, caps.samples)
            && after.reserved.sellAges == LastN(r.reserved.sellAges, caps.samples)
            && after.economics.nets == LastN(r.economics.nets, caps.samples)
            && after.economics.fees == LastN(r.economics.fees, caps.samples)
            && after.(keys := r.keys, grade := r.grade, reserved := r.reserved, economics := r.economics) == r
            && after.grade.(buyAges := r.grade.buyAges, sellAges := r.grade.sellAges) == r.grade
            && after.reserved.(buyAges := r.reserved.buyAges, sellAges := r.reserved.sellAges) == r.reserved
            && after.economics.(nets := r.economics.nets, fees := r.economics.fees) == r.economics
  {
  }

  /** A restored route is found under its own key, the last one of equal keys, with the set of its keys. */
  lemma {:induction false} RestoredBoard(routes: seq<Route>, caps: Caps, key: string)
    ensures var b := RestoreRoutes(routes, caps);
            && (Find(b.routes, key).None? <==> forall i :: 0 <= i < |routes| ==> routes[i].key != key)
            && (Find(b.routes, key).Some? ==> Find(b.routes, key).value.key == key && key in b.keySets
                                              && b.keySets[key] == KeySet(Find(b.routes, key).value.keys))
            && (routes != [] && routes[|routes| - 1].key == key ==>
                  Find(b.routes, key) == Some(RestoreRoute(routes[|routes| - 1], caps)))
  {
    if routes != [] {
      var n := |routes| - 1;
      RestoredBoard(routes[..n], caps, key);
      assert forall i :: 0 <= i < n ==> routes[..n][i] == routes[i];
      FindInsert(RestoreRoutes(routes[..n], caps).routes, routes[n].key, RestoreRoute(routes[n], caps), key);
    }
  }

  lemma RestoringKept(r: Route, caps: Caps)
    requires RouteKept(r, caps)
    ensures RestoreRoute(r, caps) == r
  {
  }

  function Prefix(b: Board, n: nat): Board
    requires n <= |b.routes|
  {
    Board(b.routes[..n], map k | k in b.keySets && k in Keys(b.routes[..n]) :: b.keySets[k])
  }

  lemma {:induction false} RestoringPrefix(b: Board, n: nat, caps: Caps)
    requires BoardKept(b, caps) && n <= |b.routes|
    ensures RestoreRoutes(Values(b.routes)[..n], caps) == Prefix(b, n)
  {
    if n > 0 {
      var (key, r) := b.routes[n - 1];
      RestoringPrefix(b, n - 1, caps);
      assert Values(b.routes)[..n][..n - 1] == Values(b.routes)[..n - 1];
      assert EntryKept(b, n - 1, caps);
      RestoringKept(r, caps);
      PrefixGrows(b, n, caps);
    }
  }

  lemma PrefixGrows(b: Board, n: nat, caps: Caps)
    requires BoardKept(b, caps) && 0 < n <= |b.routes|
    ensures Write(Prefix(b, n - 1), b.routes[n - 1].1.key, b.routes[n - 1].1) == Prefix(b, n)
  {
    var (key, r) := b.routes[n - 1];
    assert EntryKept(b, n - 1, caps);
    InsertNew(b.routes, n - 1, r);
    assert Keys(b.routes[..n]) == Keys(b.routes[..n - 1]) + [key];
    assert Write(Prefix(b, n - 1), key, r).keySets == Prefix(b, n).keySets;
  }

  lemma {:induction false} InsertNew(m: Entries<Route>, n: nat, r: Route)
    requires Distinct(m) && n < |m| && m[n].1 == r
    ensures Insert(m[..n], m[n].0, r) == m[..n + 1]
  {
    forall i | 0 <= i < n ensures m[..n][i].0 != m[n].0 {
      assert Keys(m)[i] != Keys(m)[n];
    }
    InsertAppends(m[..n], m[n].0, r);
    assert m[..n + 1] == m[..n] + [m[n]];
  }

  lemma {:induction false} InsertAppends(m: Entries<Route>, k: string, r: Route)
    requires forall i :: 0 <= i < |m| ==> m[i].0 != k
    ensures Insert(m, k, r) == m + [(k, r)]
  {
    if m != [] {
      InsertAppends(m[1..], k, r);
    }
  }

  /** Restoring a saved snapshot gives back the whole evidence: counters, routes, order and key sets. */
  lemma RestoreInvertsSave(s: Evidence, now: int, caps: Caps)
    requires Kept(s, caps)
    ensures Restore(Save(s, now), caps) == s
  {
    var n := |s.board.routes|;
    assert Values(s.board.routes)[..n] == Values(s.board.routes);
    RestoringPrefix(s.board, n, caps);
    assert s.board.routes[..n] == s.board.routes;
    assert Prefix(s.board, n).keySets == s.board.keySets;
  }
}
