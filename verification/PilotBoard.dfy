/**
  The routes on the board through a whole run: each is what its own sightings since it was made give,
  and a generation is counted again exactly when its route was given up in between or enough other
  generations of the route were counted.
 */
module PilotBoard {
  import opened Wrappers
  import opened InsertionMap
  import opened PilotRoute
  import opened PilotEvidence
  import opened PilotHistory
  import opened PilotWindow

  /** One sighting that reaches the board. */
  datatype Take = Take(key: string, sighting: Sighting, at: int)

  function RunBoard(takes: seq<Take>, caps: Caps): Board {
    if takes == [] then NO_BOARD
    else
      var t := takes[|takes| - 1];
      ObserveOn(RunBoard(takes[..|takes| - 1], caps), t.key, t.sighting, t.at, caps)
  }

  function RouteAt(takes: seq<Take>, key: string, caps: Caps): Option<Route> { Find(RunBoard(takes, caps).routes, key) }

  ghost predicate Timely(takes: seq<Take>) {
    forall i :: 0 <= i < |takes| ==> ValidTime(takes[i].at)
  }

  // ---- the takes of a run of the service ----

  function TakesOf(os: seq<Sighting>, at: int): seq<Take> {
    if os == [] then []
    else
      var before, o := TakesOf(os[..|os| - 1], at), os[|os| - 1];
      if IsPilot(o) && RouteKey(o).Some? then before + [Take(RouteKey(o).value, o, at)] else before
  }

  function ActionTakes(a: Action): seq<Take> {
    if Accepted(a) then TakesOf(a.sightings, a.observedAt) else []
  }

  function AllTakes(actions: seq<Action>): seq<Take> {
    if actions == [] then [] else AllTakes(actions[..|actions| - 1]) + ActionTakes(actions[|actions| - 1])
  }

  lemma RunPush(takes: seq<Take>, t: Take, caps: Caps)
    ensures RunBoard(takes + [t], caps) == ObserveOn(RunBoard(takes, caps), t.key, t.sighting, t.at, caps)
  {
    assert (takes + [t])[..|takes|] == takes;
  }

  lemma {:induction false} SnapshotRuns(s: Evidence, takes: seq<Take>, os: seq<Sighting>, at: int, caps: Caps)
    requires s.board == RunBoard(takes, caps)
    ensures ObserveAll(s, os, at, caps).board == RunBoard(takes + TakesOf(os, at), caps)
  {
    if os == [] {
      assert takes + [] == takes;
    } else {
      var n := |os| - 1;
      SnapshotRuns(s, takes, os[..n], at, caps);
      if IsPilot(os[n]) && RouteKey(os[n]).Some? {
        var t := Take(RouteKey(os[n]).value, os[n], at);
        RunPush(takes + TakesOf(os[..n], at), t, caps);
        assert takes + TakesOf(os, at) == (takes + TakesOf(os[..n], at)) + [t];
      }
    }
  }

  lemma {:induction false} TakesAreTimely(os: seq<Sighting>, at: int)
    requires ValidTime(at)
    ensures Timely(TakesOf(os, at))
  {
    if os != [] {
      TakesAreTimely(os[..|os| - 1], at);
    }
  }

  /** The board of every reachable evidence is the run of the sightings that reached it. */
  lemma {:induction false} ReachableRuns(actions: seq<Action>, caps: Caps)
    ensures ActAll(NO_EVIDENCE, actions, caps).board == RunBoard(AllTakes(actions), caps) && Timely(AllTakes(actions))
  {
    if actions != [] {
      var n := |actions| - 1;
      ReachableRuns(actions[..n], caps);
      ActionRuns(ActAll(NO_EVIDENCE, actions[..n], caps), AllTakes(actions[..n]), actions[n], caps);
      ActionIsTimely(AllTakes(actions[..n]), actions[n]);
    }
  }

  predicate Accepted(a: Action) {
    a.ObserveSnapshot? && ValidTime(a.observedAt) && ValidTime(a.generatedAt) && a.observedAt >= a.generatedAt
  }

  function Begun(s: Evidence, sightings: nat): Evidence {
    s.(snapshots := s.snapshots + 1, opportunities := s.opportunities + sightings)
  }

  lemma ActIs(s: Evidence, a: Action, caps: Caps)
    ensures Accepted(a) ==> Act(s, a, caps) == ObserveAll(Begun(s, |a.sightings|), a.sightings, a.observedAt, caps)
    ensures !Accepted(a) ==> Act(s, a, caps).board == s.board
  {
  }

  lemma ActionRuns(s: Evidence, takes: seq<Take>, a: Action, caps: Caps)
    requires s.board == RunBoard(takes, caps)
    ensures Act(s, a, caps).board == RunBoard(takes + ActionTakes(a), caps)
  {
    ActIs(s, a, caps);
    if Accepted(a) {
      SnapshotRuns(Begun(s, |a.sightings|), takes, a.sightings, a.observedAt, caps);
    } else {
      assert takes + ActionTakes(a) == takes;
    }
  }

  lemma ActionIsTimely(takes: seq<Take>, a: Action)
    requires Timely(takes)
    ensures Timely(takes + ActionTakes(a))
  {
    if Accepted(a) {
      TakesAreTimely(a.sightings, a.observedAt);
    } else {
      assert takes + [] == takes;
    }
  }

  lemma {:induction false} RunKept(takes: seq<Take>, caps: Caps)
    requires ValidCaps(caps) && Timely(takes)
    ensures BoardKept(RunBoard(takes, caps), caps)
  {
    if takes != [] {
      var n := |takes| - 1;
      RunKept(takes[..n], caps);
      ObserveOnKeeps(RunBoard(takes[..n], caps), takes[n].key, takes[n].sighting, takes[n].at, caps);
    }
  }

  // ---- a route is what its sightings since it was made give ----

  /** The sightings of a route since it was last made; none while it is not on the board. */
  function Since(takes: seq<Take>, key: string, caps: Caps): seq<Observation> {
    if takes == [] then []
    else
      var n := |takes| - 1;
      var t := takes[n];
      if t.key == key then Since(takes[..n], key, caps) + [Observation(t.sighting, t.at)]
      else if Evicted(RunBoard(takes[..n], caps), t.key, key, caps) then []
      else Since(takes[..n], key, caps)
  }

  /** One take, seen from any key. */
  lemma TakeTouches(takes: seq<Take>, n: nat, key: string, caps: Caps)
    requires ValidCaps(caps) && Timely(takes) && n < |takes|
    ensures var before, after, t := RouteAt(takes[..n], key, caps), RouteAt(takes[..n + 1], key, caps), takes[n];
            if t.key == key then after == Some(ObserveRoute(before.GetOr(NewRoute(key, t.at)), t.sighting, t.at, caps))
            else after == if Evicted(RunBoard(takes[..n], caps), t.key, key, caps) then None else before
  {
    RunKept(takes[..n], caps);
    RunPush(takes[..n], takes[n], caps);
    assert takes[..n + 1] == takes[..n] + [takes[n]];
    ObserveOnTouches(RunBoard(takes[..n], caps), takes[n].key, takes[n].sighting, takes[n].at, caps);
  }

  /** A route is on the board while it has such sightings, and is the run of exactly these from new. */
  lemma {:induction false} BoardRouteIsRun(takes: seq<Take>, key: string, caps: Caps)
    requires ValidCaps(caps) && Timely(takes)
    ensures var s := Since(takes, key, caps);
            RouteAt(takes, key, caps) == if s == [] then None else Some(RunRoute(NewRoute(key, s[0].at), s, caps))
  {
    if takes != [] {
      var n := |takes| - 1;
      var before, s := Since(takes[..n], key, caps), Since(takes, key, caps);
      BoardRouteIsRun(takes[..n], key, caps);
      TakeTouches(takes, n, key, caps);
      assert takes[..n + 1] == takes;
      if takes[n].key == key {
        assert s[..|s| - 1] == before;
        if before == [] {
          assert RunRoute(NewRoute(key, s[0].at), [], caps) == NewRoute(key, s[0].at);
        }
      }
    }
  }

  /**
    In every evidence a fresh service reaches, each route on the board reflects its whole history since
    it was last made: what it retains are the last entries of the full lists.
   */
  lemma ReachableRoutesReflect(actions: seq<Action>, key: string, caps: Caps)
    requires ValidCaps(caps)
    ensures var route, s :=
            Find(ActAll(NO_EVIDENCE, actions, caps).board.routes, key), Since(AllTakes(actions), key, caps);
            && (route.Some? <==> s != [])
            && (route.Some? ==>
                  && route.value == RunRoute(NewRoute(key, s[0].at), s, caps)
                  && Reflects(route.value, Counted(s, caps.keys), caps)
                  && route.value.seen.unique + route.value.seen.repeated == |s|)
  {
    ReachableRuns(actions, caps);
    BoardRouteIsRun(AllTakes(actions), key, caps);
    var s := Since(AllTakes(actions), key, caps);
    if s != [] {
      RouteReflectsHistory(key, s[0].at, s, caps);
    }
  }

  // ---- when a generation is counted again ----

  /** The generation keys a route holds; none while it is not on the board. */
  function KeysAt(takes: seq<Take>, key: string, caps: Caps): seq<GenerationKey> {
    var route := RouteAt(takes, key, caps);
    if route.None? then [] else route.value.keys
  }

  /** Take n is counted as a new generation of its route. */
  predicate IsCounted(takes: seq<Take>, n: nat, caps: Caps)
    requires n < |takes|
  {
    KeyOf(takes[n].sighting) !in KeysAt(takes[..n], takes[n].key, caps)
  }

  /** Counting is what the unique counter counts. */
  lemma CountedIsUnique(takes: seq<Take>, n: nat, caps: Caps)
    requires ValidCaps(caps) && Timely(takes) && n < |takes|
    ensures var before, after := RouteAt(takes[..n], takes[n].key, caps), RouteAt(takes[..n + 1], takes[n].key, caps);
            && after.Some?
            && after.value.seen.unique
               == (if before.None? then 0 else before.value.seen.unique) + One(IsCounted(takes, n, caps))
  {
    TakeTouches(takes, n, takes[n].key, caps);
    ObserveCounts(RouteAt(takes[..n], takes[n].key, caps).GetOr(NewRoute(takes[n].key, takes[n].at)), takes[n].sighting,
                  takes[n].at, caps);
  }

  lemma ObserveCounts(r: Route, o: Sighting, at: int, caps: Caps)
    ensures var after := ObserveRoute(r, o, at, caps);
            && after.keys == (if KeyOf(o) in r.keys then r.keys else Retain(r.keys, KeyOf(o), caps.keys))
            && after.seen.unique == r.seen.unique + One(KeyOf(o) !in r.keys)
  {
  }

  /** What take n is to one route: a sighting, the loss of the route to another one, or nothing. */
  function StepOf(takes: seq<Take>, n: nat, key: string, caps: Caps): Step
    requires n < |takes|
  {
    if takes[n].key == key then Sighted(KeyOf(takes[n].sighting))
    else if Evicted(RunBoard(takes[..n], caps), takes[n].key, key, caps) then GivenUp
    else Elsewhere
  }

  function StepsOf(takes: seq<Take>, key: string, caps: Caps): (r: seq<Step>)
    ensures |r| == |takes|
  {
    seq(|takes|, n requires 0 <= n < |takes| => StepOf(takes, n, key, caps))
  }

  lemma KeysStep(takes: seq<Take>, n: nat, key: string, caps: Caps)
    requires ValidCaps(caps) && Timely(takes) && n < |takes|
    ensures var before := KeysAt(takes[..n], key, caps);
            KeysAt(takes[..n + 1], key, caps) ==
            match StepOf(takes, n, key, caps)
            case Elsewhere => before
            case GivenUp => []
            case Sighted(g) => if g in before then before else Retain(before, g, caps.keys)
  {
    TakeTouches(takes, n, key, caps);
    if takes[n].key == key {
      ObserveCounts(RouteAt(takes[..n], key, caps).GetOr(NewRoute(key, takes[n].at)), takes[n].sighting, takes[n].at,
                    caps);
    }
  }

  lemma {:induction false} KeysAreWindow(takes: seq<Take>, n: nat, key: string, caps: Caps)
    requires ValidCaps(caps) && Timely(takes) && n <= |takes|
    ensures KeysAt(takes[..n], key, caps) == KeysAfter(StepsOf(takes, key, caps), n, caps.keys)
  {
    if n > 0 {
      KeysAreWindow(takes, n - 1, key, caps);
      KeysStep(takes, n - 1, key, caps);
    } else {
      assert takes[..0] == [] && KeysAt([], key, caps) == [];
    }
  }

  /**
    On the board a generation is counted again exactly when its route was given up since it was last
    counted, or at least `caps.keys` other generations of the route have been counted since.
   */
  lemma BoardCountsAgainExactly(takes: seq<Take>, i: nat, n: nat, caps: Caps)
    requires ValidCaps(caps) && Timely(takes) && i < n < |takes|
    requires LastCounted(StepsOf(takes, takes[n].key, caps), i, n, KeyOf(takes[n].sighting), caps.keys)
    ensures var steps := StepsOf(takes, takes[n].key, caps);
            IsCounted(takes, n, caps)
            <==> GivenUpBetween(steps, i, n) || CountedBetween(steps, i, n, caps.keys) >= caps.keys
  {
    KeysAreWindow(takes, n, takes[n].key, caps);
    CountedAgainExactly(StepsOf(takes, takes[n].key, caps), i, n, KeyOf(takes[n].sighting), caps.keys);
  }

  /** And the first time, and whenever it has not been counted, it is counted. */
  lemma BoardMissesNone(takes: seq<Take>, n: nat, caps: Caps)
    requires ValidCaps(caps) && Timely(takes) && n < |takes|
    requires forall j ::
               0 <= j < n && takes[j].key == takes[n].key && KeyOf(takes[j].sighting) == KeyOf(takes[n].sighting) ==>
                 !IsCounted(takes, j, caps)
    ensures IsCounted(takes, n, caps)
  {
    var steps, g := StepsOf(takes, takes[n].key, caps), KeyOf(takes[n].sighting);
    KeysAreWindow(takes, n, takes[n].key, caps);
    forall j | 0 <= j < n && steps[j] == Sighted(g) ensures !Counts(steps, j, caps.keys) {
      KeysAreWindow(takes, j, takes[n].key, caps);
      assert takes[j].key == takes[n].key;
    }
    FirstSightingCounts(steps, n, g, caps.keys);
  }
}
