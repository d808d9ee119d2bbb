/**
  Runs of the pilot evidence service that show what its bounds cost, at any caps: generations counted
  again, and a snapshot it writes and would not read.
 */
module PilotExamples {
  import opened Wrappers
  import opened InsertionMap
  import opened PilotRoute
  import opened PilotEvidence
  import opened PilotHistory
  import opened PilotWindow
  import opened PilotBoard
  import opened PilotSnapshot

  // ---- one snapshot of sightings ----

  function OneSnapshot(os: seq<Sighting>, at: int): seq<Action> { [ObserveSnapshot(at, os, at)] }

  lemma {:induction false} SnapshotTakes(os: seq<Sighting>, at: int)
    requires ValidTime(at)
    ensures AllTakes(OneSnapshot(os, at)) == TakesOf(os, at)
  {
    assert OneSnapshot(os, at)[..0] == [] && AllTakes([]) == [];
  }

  ghost predicate AllPilots(os: seq<Sighting>) {
    forall i :: 0 <= i < |os| ==> IsPilot(os[i]) && RouteKey(os[i]).Some?
  }

  function AsTakes(os: seq<Sighting>, at: int): (takes: seq<Take>)
    ensures |takes| == |os|
  {
    seq(|os|, i requires 0 <= i < |os| => Take(RouteKey(os[i]).GetOr(""), os[i], at))
  }

  lemma {:induction false} LastIsTaken(os: seq<Sighting>, at: int)
    requires os != [] && IsPilot(os[|os| - 1]) && RouteKey(os[|os| - 1]).Some?
    ensures var n := |os| - 1; TakesOf(os, at) == TakesOf(os[..n], at) + [Take(RouteKey(os[n]).value, os[n], at)]
  {
  }

  lemma {:induction false} AsTakesNext(os: seq<Sighting>, at: int)
    requires os != []
    ensures var n := |os| - 1; AsTakes(os, at) == AsTakes(os[..n], at) + [Take(RouteKey(os[n]).GetOr(""), os[n], at)]
  {
  }

  lemma {:induction false} PilotsAreTaken(os: seq<Sighting>, at: int)
    requires AllPilots(os)
    ensures TakesOf(os, at) == AsTakes(os, at)
  {
    if os != [] {
      PilotsAreTaken(os[..|os| - 1], at);
      LastIsTaken(os, at);
      AsTakesNext(os, at);
    }
  }

  /** The takes of one snapshot of pilot sightings. */
  lemma {:induction false} SnapshotIsTaken(os: seq<Sighting>, at: int)
    requires ValidTime(at) && AllPilots(os)
    ensures AllTakes(OneSnapshot(os, at)) == AsTakes(os, at)
  {
    SnapshotTakes(os, at);
    PilotsAreTaken(os, at);
  }

  lemma {:induction false} AsTakesPush(os: seq<Sighting>, o: Sighting, at: int)
    ensures AsTakes(os + [o], at) == AsTakes(os, at) + [Take(RouteKey(o).GetOr(""), o, at)]
  {
  }

  // ---- different things ----

  lemma {:induction false} NewestDiffers<T>(s: seq<T>, n: nat, window: nat)
    requires NoDuplicates(s) && n < |s|
    ensures s[n] !in LastN(s[..n], window) && NoDuplicates(s[..n])
  {
    var last := LastN(s[..n], window);
    forall i | 0 <= i < |last| ensures last[i] != s[n] {
      assert last[i] == s[n - |last| + i];
    }
  }

  lemma {:induction false} FirstDiffers<T>(s: seq<T>)
    requires NoDuplicates(s) && s != []
    ensures s[0] !in s[1..]
  {
    forall i | 0 <= i < |s| - 1 ensures s[1..][i] != s[0] {
      assert s[1..][i] == s[i + 1];
    }
  }

  // ---- sightings of one route ----

  ghost predicate OneRoute(takes: seq<Take>, key: string) {
    forall i :: 0 <= i < |takes| ==> takes[i].key == key
  }

  function SeenIn(takes: seq<Take>): (seen: seq<Observation>)
    ensures |seen| == |takes|
  {
    seq(|takes|, i requires 0 <= i < |takes| => Observation(takes[i].sighting, takes[i].at))
  }

  lemma {:induction false} AllAreSince(takes: seq<Take>, key: string, caps: Caps)
    requires OneRoute(takes, key)
    ensures Since(takes, key, caps) == SeenIn(takes)
  {
    if takes != [] {
      var n := |takes| - 1;
      AllAreSince(takes[..n], key, caps);
      assert SeenIn(takes) == SeenIn(takes[..n]) + [Observation(takes[n].sighting, takes[n].at)];
    }
  }

  /** The one route after a run of takes on it. */
  lemma {:induction false} OnlyRouteIs(actions: seq<Action>, key: string, caps: Caps)
    requires ValidCaps(caps) && AllTakes(actions) != [] && OneRoute(AllTakes(actions), key)
    ensures var seen := SeenIn(AllTakes(actions));
            Find(ActAll(NO_EVIDENCE, actions, caps).board.routes, key)
            == Some(RunRoute(NewRoute(key, seen[0].at), seen, caps))
  {
    AllAreSince(AllTakes(actions), key, caps);
    ReachableRoutesReflect(actions, key, caps);
  }

  ghost predicate DifferentKeys(seen: seq<Observation>) { NoDuplicates(KeysOf(seen)) }

  lemma {:induction false} AllAreCounted(seen: seq<Observation>, window: nat)
    requires DifferentKeys(seen)
    ensures Counted(seen, window) == seen
  {
    if seen != [] {
      var n := |seen| - 1;
      NewestDiffers(KeysOf(seen), n, window);
      assert KeysOf(seen[..n]) == KeysOf(seen)[..n];
      AllAreCounted(seen[..n], window);
    }
  }

  /** A route seen at different generations only has the keys of the last ones. */
  lemma {:induction false} KeysOfDifferent(key: string, at: int, seen: seq<Observation>, caps: Caps)
    requires ValidCaps(caps) && DifferentKeys(seen)
    ensures var r := RunRoute(NewRoute(key, at), seen, caps);
            r.keys == LastN(KeysOf(seen), caps.keys) && r.seen.unique == |seen|
  {
    AllAreCounted(seen, caps.keys);
    RouteReflectsHistory(key, at, seen, caps);
  }

  lemma {:induction false} AllAreSampled(key: string, at: int, seen: seq<Observation>, caps: Caps)
    requires ValidCaps(caps) && DifferentKeys(seen)
    requires forall i :: 0 <= i < |seen| ==> seen[i].sighting.netProfit.Some?
    ensures RunRoute(NewRoute(key, at), seen, caps).economics.observed == |seen|
  {
    if seen != [] {
      var n := |seen| - 1;
      NewestDiffers(KeysOf(seen), n, caps.keys);
      assert KeysOf(seen[..n]) == KeysOf(seen)[..n];
      AllAreSampled(key, at, seen[..n], caps);
      KeysOfDifferent(key, at, seen[..n], caps);
      SampledNext(RunRoute(NewRoute(key, at), seen[..n], caps), seen[n], caps);
    }
  }

  lemma {:induction false} SampledNext(r: Route, o: Observation, caps: Caps)
    requires KeyOf(o.sighting) !in r.keys && o.sighting.netProfit.Some?
    ensures ObserveRoute(r, o.sighting, o.at, caps).economics.observed == r.economics.observed + 1
  {
  }

  // ---- generations counted again after a window of others ----

  /** The sighting at n different book times. */
  function Sightings(o: Sighting, n: nat): (r: seq<Sighting>)
    ensures |r| == n
  {
    seq(n, i requires 0 <= i < n => o.(buyTimestamp := Some(i)))
  }

  lemma {:induction false} SightingsDiffer(o: Sighting, n: nat, at: int)
    ensures DifferentKeys(SeenIn(AsTakes(Sightings(o, n), at)))
  {
    var keys := KeysOf(SeenIn(AsTakes(Sightings(o, n), at)));
    forall i, j | 0 <= i < j < |keys| ensures keys[i] != keys[j] {
      assert keys[i].0 == Some(i) && keys[j].0 == Some(j);
    }
  }

  /** One more than the window holds, and the first of them once more: it is counted a second time. */
  lemma {:induction false} FirstCountsAgain(key: string, at: int, seen: seq<Observation>, caps: Caps)
    requires ValidCaps(caps) && DifferentKeys(seen) && |seen| == caps.keys + 1
    ensures RunRoute(NewRoute(key, at), seen + [seen[0]], caps).seen.unique == |seen| + 1
  {
    assert (seen + [seen[0]])[..|seen|] == seen;
    KeysOfDifferent(key, at, seen, caps);
    FirstDiffers(KeysOf(seen));
    ObserveCounts(RunRoute(NewRoute(key, at), seen, caps), seen[0].sighting, seen[0].at, caps);
  }

  lemma {:induction false} SightingsArePilots(o: Sighting, n: nat)
    requires IsPilot(o) && RouteKey(o).Some?
    ensures AllPilots(Sightings(o, n))
  {
  }

  lemma {:induction false} SightingsAreOfOneRoute(o: Sighting, n: nat, at: int)
    requires RouteKey(o).Some?
    ensures OneRoute(AsTakes(Sightings(o, n), at), RouteKey(o).value)
  {
  }

  lemma {:induction false} PilotsPush(os: seq<Sighting>, i: nat)
    requires AllPilots(os) && i < |os|
    ensures AllPilots(os + [os[i]])
  {
  }

  /**
    The service itself, at any caps: `caps.keys + 1` generations of one pilot route and the first of them
    again make one more unique generation than there are.
   */
  lemma {:induction false} ServiceCountsAgain(o: Sighting, at: int, caps: Caps)
    requires ValidTime(at) && ValidCaps(caps) && IsPilot(o) && RouteKey(o).Some?
    ensures var n, os := caps.keys + 1, Sightings(o, caps.keys + 1);
            var route := Find(ActAll(NO_EVIDENCE, OneSnapshot(os + [os[0]], at), caps).board.routes, RouteKey(o).value);
            route.Some? && route.value.seen.unique == n + 1
  {
    var n, os, key := caps.keys + 1, Sightings(o, caps.keys + 1), RouteKey(o).value;
    var takes := AsTakes(os, at);
    SightingsArePilots(o, n);
    PilotsPush(os, 0);
    SnapshotIsTaken(os + [os[0]], at);
    AsTakesPush(os, os[0], at);
    SightingsAreOfOneRoute(o, n, at);
    SightingsDiffer(o, n, at);
    RepeatIsCounted(OneSnapshot(os + [os[0]], at), takes, key, caps);
  }

  lemma {:induction false} RepeatIsCounted(actions: seq<Action>, takes: seq<Take>, key: string, caps: Caps)
    requires ValidCaps(caps) && |takes| == caps.keys + 1 && OneRoute(takes, key) && DifferentKeys(SeenIn(takes))
    requires AllTakes(actions) == takes + [takes[0]]
    ensures var route := Find(ActAll(NO_EVIDENCE, actions, caps).board.routes, key);
            route.Some? && route.value.seen.unique == |takes| + 1
  {
    assert SeenIn(takes + [takes[0]]) == SeenIn(takes) + [SeenIn(takes)[0]];
    OnlyRouteIs(actions, key, caps);
    FirstCountsAgain(key, SeenIn(takes)[0].at, SeenIn(takes), caps);
  }

  // ---- generations counted again after the route was given up ----

  function KeysIn(takes: seq<Take>): (keys: seq<string>)
    ensures |keys| == |takes|
  {
    seq(|takes|, i requires 0 <= i < |takes| => takes[i].key)
  }

  ghost predicate AllAt(takes: seq<Take>, at: int) {
    forall i :: 0 <= i < |takes| ==> takes[i].at == at
  }

  /** The board holds exactly these routes, in this order, all last observed at one time. */
  ghost predicate Holds(b: Board, keys: seq<string>, at: int) {
    && Keys(b.routes) == keys
    && forall k :: k in keys ==> Find(b.routes, k).Some? && Find(b.routes, k).value.seen.lastAt == at
  }

  lemma {:induction false} NewRouteAt(key: string, o: Sighting, at: int, caps: Caps)
    ensures ObserveRoute(NewRoute(key, at), o, at, caps).seen.lastAt == at
  {
  }

  /** With room, a new route goes to the end of the board. */
  lemma {:induction false} NewRouteGoesLast(b: Board, t: Take, keys: seq<string>, caps: Caps)
    requires BoardKept(b, caps) && ValidCaps(caps) && ValidTime(t.at) && Holds(b, keys, t.at)
    requires t.key !in keys && |keys| < caps.routes
    ensures Holds(ObserveOn(b, t.key, t.sighting, t.at, caps), keys + [t.key], t.at)
  {
    FindIsIn(b.routes, t.key);
    assert |b.routes| == |keys|;
    ObserveOnTouches(b, t.key, t.sighting, t.at, caps);
    NewRouteAt(t.key, t.sighting, t.at, caps);
    KeysGrow(b, t, caps);
  }

  lemma {:induction false} KeysGrow(b: Board, t: Take, caps: Caps)
    requires Find(b.routes, t.key).None? && |b.routes| < caps.routes
    ensures Keys(ObserveOn(b, t.key, t.sighting, t.at, caps).routes) == Keys(b.routes) + [t.key]
  {
    var made := NewRoute(t.key, t.at);
    var ready := EnsureRoute(b, t.key, t.at, caps);
    InsertKeys(b.routes, t.key, made);
    FindInsert(b.routes, t.key, made, t.key);
    InsertKeys(ready.routes, t.key, ObserveRoute(made, t.sighting, t.at, caps));
  }

  lemma {:induction false} BoardFills(takes: seq<Take>, at: int, caps: Caps)
    requires ValidCaps(caps) && ValidTime(at) && AllAt(takes, at)
    requires NoDuplicates(KeysIn(takes)) && |takes| <= caps.routes
    ensures Holds(RunBoard(takes, caps), KeysIn(takes), at)
  {
    if takes != [] {
      var n := |takes| - 1;
      NewestDiffers(KeysIn(takes), n, n);
      assert KeysIn(takes[..n]) == KeysIn(takes)[..n];
      BoardFills(takes[..n], at, caps);
      RunKept(takes[..n], caps);
      NewRouteGoesLast(RunBoard(takes[..n], caps), takes[n], KeysIn(takes[..n]), caps);
    }
  }

  /** Among routes last observed at one time the first is the oldest. */
  lemma {:induction false} FirstIsGivenUp(b: Board, keys: seq<string>, at: int, caps: Caps)
    requires BoardKept(b, caps) && ValidCaps(caps) && Holds(b, keys, at) && |keys| == caps.routes
    ensures GivesUp(b, keys[0], caps)
  {
    forall i | 0 <= i < |b.routes| ensures b.routes[i].1.seen.lastAt == at {
      FindAt(b.routes, i);
      assert Keys(b.routes)[i] in keys;
    }
    assert EntryKept(b, 0, caps) && Keys(b.routes)[0] == keys[0];
  }

  /** A full board's worth of other routes between two sightings of one generation: both are counted. */
  lemma {:induction false} ForgottenWhenFull(takes: seq<Take>, again: Take, at: int, caps: Caps)
    requires ValidCaps(caps) && ValidTime(at) && AllAt(takes, at) && |takes| == caps.routes + 1
    requires NoDuplicates(KeysIn(takes)) && again == takes[0]
    ensures IsCounted(takes + [again], 0, caps) && IsCounted(takes + [again], |takes|, caps)
  {
    var all, n, key := takes + [again], caps.routes, again.key;
    assert all[..0] == [] && KeysAt([], key, caps) == [];
    assert all[..n] == takes[..n] && all[..n + 1] == takes && all[n] == takes[n];
    NewestDiffers(KeysIn(takes), n, n);
    assert KeysIn(takes[..n]) == KeysIn(takes)[..n] && KeysIn(takes)[0] == key;
    BoardFills(takes[..n], at, caps);
    RunKept(takes[..n], caps);
    FirstIsGivenUp(RunBoard(takes[..n], caps), KeysIn(takes[..n]), at, caps);
    FindIsIn(RunBoard(takes[..n], caps).routes, takes[n].key);
    assert StepOf(all, n, key, caps) == GivenUp;
    KeysStep(all, n, key, caps);
  }

  /**
    The service itself, at any caps: a generation, one sighting each of `caps.routes` other pilot routes, and
    the same generation again; it is counted both times.
   */
  lemma {:induction false} ServiceForgets(os: seq<Sighting>, at: int, caps: Caps)
    requires ValidTime(at) && ValidCaps(caps) && |os| == caps.routes + 1 && AllPilots(os)
    requires NoDuplicates(KeysIn(AsTakes(os, at)))
    ensures var takes := AllTakes(OneSnapshot(os + [os[0]], at));
            && |takes| == |os| + 1 && takes[0] == takes[|os|]
            && IsCounted(takes, 0, caps) && IsCounted(takes, |os|, caps)
  {
    PilotsPush(os, 0);
    SnapshotIsTaken(os + [os[0]], at);
    AsTakesPush(os, os[0], at);
    ForgottenWhenFull(AsTakes(os, at), AsTakes(os, at)[0], at, caps);
  }

  // ---- a snapshot the service writes and would not read ----

  lemma {:induction false} OversampledIsRefused(s: Evidence, key: string, now: int, caps: Caps)
    requires Kept(s, caps) && caps.samples > SAMPLE_LIMIT
    requires Find(s.board.routes, key).Some? && Find(s.board.routes, key).value.economics.observed > SAMPLE_LIMIT
    ensures !Valid(Save(s, now))
  {
    FindIsIn(s.board.routes, key);
    var i :| 0 <= i < |s.board.routes| && s.board.routes[i] == (key, Find(s.board.routes, key).value);
    assert EntryKept(s.board, i, caps);
    assert !ValidEconomics(s.board.routes[i].1.economics);
    assert !ValidRoute(Save(s, now).routes[i]);
  }

  lemma {:induction false} OversampledRoute(actions: seq<Action>, key: string, caps: Caps)
    requires ValidCaps(caps) && AllTakes(actions) != [] && OneRoute(AllTakes(actions), key)
    requires DifferentKeys(SeenIn(AllTakes(actions)))
    requires forall i :: 0 <= i < |AllTakes(actions)| ==> AllTakes(actions)[i].sighting.netProfit.Some?
    ensures var route := Find(ActAll(NO_EVIDENCE, actions, caps).board.routes, key);
            route.Some? && route.value.economics.observed == |AllTakes(actions)|
  {
    var seen := SeenIn(AllTakes(actions));
    OnlyRouteIs(actions, key, caps);
    AllAreSampled(key, seen[0].at, seen, caps);
  }

  /** More than 10,000 sightings of one pilot route under a larger cap: the snapshot then saved is refused. */
  lemma {:induction false} RefusedSnapshotExample(o: Sighting, n: nat, at: int, now: int, caps: Caps)
    requires ValidCaps(caps) && caps.samples > SAMPLE_LIMIT && n > SAMPLE_LIMIT
    requires ValidTime(at) && IsPilot(o) && RouteKey(o).Some? && o.netProfit.Some?
    ensures !Valid(Save(ActAll(NO_EVIDENCE, OneSnapshot(Sightings(o, n), at), caps), now))
  {
    var actions, key := OneSnapshot(Sightings(o, n), at), RouteKey(o).value;
    SightingsArePilots(o, n);
    SnapshotIsTaken(Sightings(o, n), at);
    SightingsAreOfOneRoute(o, n, at);
    SightingsDiffer(o, n, at);
    OversampledRoute(actions, key, caps);
    ReachableKept(actions, caps);
    OversampledIsRefused(ActAll(NO_EVIDENCE, actions, caps), key, now, caps);
  }
}
