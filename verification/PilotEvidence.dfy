/**
  The pilot evidence of all routes: which opportunities are taken, how routes are made and evicted,
  and what every reachable board keeps.
 */
module PilotEvidence {
  import opened Wrappers
  import opened Names
  import opened InsertionMap
  import opened PilotRoute

  /** The routes in the order they were made, and the set of generation keys each one knows. */
  datatype Board = Board(routes: Entries<Route>, keySets: map<string, set<GenerationKey>>)

  datatype Evidence = Evidence(
    snapshots: nat, opportunities: nat, excluded: nat, eligible: nat, invalid: nat, failures: nat, board: Board)

  const NO_BOARD := Board([], map[])
  const NO_EVIDENCE := Evidence(0, 0, 0, 0, 0, 0, NO_BOARD)

  // ---- which route an opportunity is on ----

  predicate IsPilot(o: Sighting) {
    var buy, sell := NormExchange(o.buyExchange), NormExchange(o.sellExchange);
    (buy == "binance" && sell == "bybit") || (buy == "bybit" && sell == "binance")
  }

  /** The route key, or none where the market name is refused. */
  function RouteKey(o: Sighting): Option<string> {
    var market := Strip(NormMarket(o.market), NotAlphanumeric);
    if market == "" || |market| > 40 then None
    else Some(market + ":" + NormExchange(o.buyExchange) + "->" + NormExchange(o.sellExchange))
  }

  // ---- routes ----

  /** The first of the routes whose last unique generation is longest ago. */
  function Oldest(routes: Entries<Route>): (r: nat)
    requires routes != []
    ensures r < |routes|
    ensures forall i :: 0 <= i < |routes| ==> routes[r].1.seen.lastAt <= routes[i].1.seen.lastAt
    ensures forall i :: 0 <= i < r ==> routes[r].1.seen.lastAt < routes[i].1.seen.lastAt
  {
    if |routes| == 1 then 0
    else
      var rest := Oldest(routes[1..]);
      if routes[0].1.seen.lastAt <= routes[1..][rest].1.seen.lastAt then 0 else rest + 1
  }

  function KeySet(keys: seq<GenerationKey>): set<GenerationKey> { set k | k in keys }

  /** Makes room for one more route by dropping the oldest, when the board is full. */
  function MakeRoom(b: Board, caps: Caps): Board {
    if |b.routes| >= caps.routes && b.routes != [] then
      var oldest := b.routes[Oldest(b.routes)].1.key;
      Board(Drop(b.routes, oldest), b.keySets - {oldest})
    else b
  }

  function Write(b: Board, key: string, route: Route): Board {
    Board(Insert(b.routes, key, route), b.keySets[key := KeySet(route.keys)])
  }

  function EnsureRoute(b: Board, key: string, at: int, caps: Caps): Board {
    if Find(b.routes, key).Some? then b else Write(MakeRoom(b, caps), key, NewRoute(key, at))
  }

  function ObserveOn(b: Board, key: string, o: Sighting, at: int, caps: Caps): Board {
    var ready := EnsureRoute(b, key, at, caps);
    Write(ready, key, ObserveRoute(Find(ready.routes, key).GetOr(NewRoute(key, at)), o, at, caps))
  }

  function Observe(s: Evidence, o: Sighting, at: int, caps: Caps): Evidence {
    if !IsPilot(o) then s.(excluded := s.excluded + 1)
    else
      var taken := s.(eligible := s.eligible + 1);
      var key := RouteKey(o);
      if key.None? then taken.(invalid := taken.invalid + 1)
         else taken.(board := ObserveOn(s.board, key.value, o, at, caps))
  }

  function ObserveAll(s: Evidence, os: seq<Sighting>, at: int, caps: Caps): Evidence {
    if os == [] then s else Observe(ObserveAll(s, os[..|os| - 1], at, caps), os[|os| - 1], at, caps)
  }

  datatype Action =
    | ObserveSnapshot(generatedAt: int, sightings: seq<Sighting>, observedAt: int)
    | RecordFailure

  function Act(s: Evidence, a: Action, caps: Caps): Evidence {
    match a
    case RecordFailure => s.(failures := s.failures + 1)
    case ObserveSnapshot(generatedAt, os, at) =>
      if !ValidTime(at) || !ValidTime(generatedAt) || at < generatedAt then s.(invalid := s.invalid + 1)
      else ObserveAll(s.(snapshots := s.snapshots + 1, opportunities := s.opportunities + |os|), os, at, caps)
  }

  function ActAll(s: Evidence, actions: seq<Action>, caps: Caps): Evidence {
    if actions == [] then s else Act(ActAll(s, actions[..|actions| - 1], caps), actions[|actions| - 1], caps)
  }

  // ---- what one opportunity, one snapshot and one failure count ----

  /** The pilot lane is Binance and Bybit, either way round. */
  lemma PilotExactly(o: Sighting)
    ensures IsPilot(o) <==>
            || (NormExchange(o.buyExchange) == "binance" && NormExchange(o.sellExchange) == "bybit")
            || (NormExchange(o.buyExchange) == "bybit" && NormExchange(o.sellExchange) == "binance")
  {
  }

  /** A route is its market's letters and digits, at least one and at most 40, and its two venues in order. */
  lemma RouteKeyExactly(o: Sighting)
    ensures var market := Strip(NormMarket(o.market), NotAlphanumeric);
            RouteKey(o) == if 1 <= |market| <= 40
                           then Some(market + ":" + NormExchange(o.buyExchange) + "->" + NormExchange(o.sellExchange))
                           else None
  {
  }

  /** An opportunity is excluded, or eligible; an eligible one without a route is invalid, one with a route observed. */
  lemma ObserveExactly(s: Evidence, o: Sighting, at: int, caps: Caps)
    ensures var after := Observe(s, o, at, caps);
            && after.snapshots == s.snapshots && after.opportunities == s.opportunities && after.failures == s.failures
            && after.excluded == s.excluded + One(!IsPilot(o)) && after.eligible == s.eligible + One(IsPilot(o))
            && after.invalid == s.invalid + One(IsPilot(o) && RouteKey(o).None?)
            && after.board == if IsPilot(o) && RouteKey(o).Some? then ObserveOn(s.board, RouteKey(o).value, o, at, caps)
                              else s.board
  {
  }

  function Pilots(os: seq<Sighting>): nat {
    if os == [] then 0 else Pilots(os[..|os| - 1]) + One(IsPilot(os[|os| - 1]))
  }

  function Routeless(os: seq<Sighting>): nat {
    if os == [] then 0
    else Routeless(os[..|os| - 1]) + One(IsPilot(os[|os| - 1]) && RouteKey(os[|os| - 1]).None?)
  }

  lemma {:induction false} ObserveAllCounts(s: Evidence, os: seq<Sighting>, at: int, caps: Caps)
    ensures var after := ObserveAll(s, os, at, caps);
            && after.snapshots == s.snapshots && after.opportunities == s.opportunities && after.failures == s.failures
            && after.excluded + Pilots(os) == s.excluded + |os| && after.eligible == s.eligible + Pilots(os)
            && after.invalid == s.invalid + Routeless(os)
  {
    if os != [] {
      var n := |os| - 1;
      ObserveAllCounts(s, os[..n], at, caps);
      ObserveExactly(ObserveAll(s, os[..n], at, caps), os[n], at, caps);
    }
  }

  /** A snapshot properly dated and not observed before it was made counts with its opportunities. */
  lemma ActCounts(s: Evidence, a: Action, caps: Caps)
    ensures var after := Act(s, a, caps);
            match a
            case RecordFailure => after == s.(failures := s.failures + 1)
            case ObserveSnapshot(generatedAt, os, at) =>
              if 0 < generatedAt <= at <= 9007199254740991 then
                && after.snapshots == s.snapshots + 1 && after.opportunities == s.opportunities + |os|
                && after.failures == s.failures && after.eligible == s.eligible + Pilots(os)
                && after.excluded + Pilots(os) == s.excluded + |os| && after.invalid == s.invalid + Routeless(os)
              else after == s.(invalid := s.invalid + 1)
  {
    if a.ObserveSnapshot? {
      var begun := s.(snapshots := s.snapshots + 1, opportunities := s.opportunities + |a.sightings|);
      ObserveAllCounts(begun, a.sightings, a.observedAt, caps);
    }
  }

  // ---- what every reachable state keeps ----

  ghost predicate EntryKept(b: Board, i: int, caps: Caps)
    requires 0 <= i < |b.routes|
  {
    var (key, route) := b.routes[i];
    route.key == key && RouteKept(route, caps) && key in b.keySets && b.keySets[key] == KeySet(route.keys)
  }

  ghost predicate BoardKept(b: Board, caps: Caps) {
    && Distinct(b.routes) && |b.routes| <= caps.routes
    && (forall k :: k in b.keySets ==> k in Keys(b.routes))
    && forall i :: 0 <= i < |b.routes| ==> EntryKept(b, i, caps)
  }

  ghost predicate Kept(s: Evidence, caps: Caps) {
    BoardKept(s.board, caps) && s.opportunities == s.excluded + s.eligible
  }

  /** A full board gives up its oldest route for a new one. */
  predicate GivesUp(b: Board, key: string, caps: Caps) {
    |b.routes| >= caps.routes && b.routes != [] && b.routes[Oldest(b.routes)].1.key == key
  }

  lemma MakeRoomKeeps(b: Board, caps: Caps)
    requires BoardKept(b, caps) && ValidCaps(caps)
    ensures BoardKept(MakeRoom(b, caps), caps) && |MakeRoom(b, caps).routes| < caps.routes
    ensures forall k :: Find(MakeRoom(b, caps).routes, k) == if GivesUp(b, k, caps) then None else Find(b.routes, k)
  {
    if |b.routes| >= caps.routes {
      var i := Oldest(b.routes);
      assert EntryKept(b, i, caps);
      DropKeys(b.routes, i);
      WithoutKeeps(b, i, caps);
      forall k ensures Find(MakeRoom(b, caps).routes, k) == if GivesUp(b, k, caps) then None else Find(b.routes, k) {
        FindDrop(b.routes, b.routes[i].0, k);
      }
    }
  }

  function WithoutAt(b: Board, i: nat): Board
    requires i < |b.routes|
  {
    Board(b.routes[..i] + b.routes[i + 1..], b.keySets - {b.routes[i].0})
  }

  lemma WithoutKeeps(b: Board, i: nat, caps: Caps)
    requires BoardKept(b, caps) && i < |b.routes| && Distinct(WithoutAt(b, i).routes)
    ensures BoardKept(WithoutAt(b, i), caps)
  {
    var room := WithoutAt(b, i);
    forall a | 0 <= a < |room.routes| ensures EntryKept(room, a, caps) {
      var a' := if a < i then a else a + 1;
      assert EntryKept(b, a', caps) && Keys(b.routes)[a'] != Keys(b.routes)[i];
    }
    forall k | k in room.keySets ensures k in Keys(room.routes) {
      var a :| 0 <= a < |b.routes| && Keys(b.routes)[a] == k;
      assert Keys(room.routes)[if a < i then a else a - 1] == k;
    }
  }

  /** Writing a well-kept route under its key, in place or at the end, keeps the board. */
  lemma {:induction false} WriteKeeps(b: Board, key: string, route: Route, caps: Caps)
    requires BoardKept(b, caps) && RouteKept(route, caps) && route.key == key
    requires Find(b.routes, key).None? ==> |b.routes| < caps.routes
    ensures BoardKept(Write(b, key, route), caps)
    ensures forall k :: Find(Write(b, key, route).routes, k) == if k == key then Some(route) else Find(b.routes, k)
  {
    var after := Write(b, key, route);
    InsertKeys(b.routes, key, route);
    forall k ensures Find(after.routes, k) == if k == key then Some(route) else Find(b.routes, k) {
      FindInsert(b.routes, key, route, k);
    }
    FindIsIn(b.routes, key);
    FindIsIn(after.routes, key);
    forall i | 0 <= i < |after.routes| ensures EntryKept(after, i, caps) {
      WrittenEntryKept(b, key, route, i, caps);
    }
  }

  lemma WrittenEntryKept(b: Board, key: string, route: Route, i: nat, caps: Caps)
    requires BoardKept(b, caps) && RouteKept(route, caps) && route.key == key && i < |Write(b, key, route).routes|
    ensures EntryKept(Write(b, key, route), i, caps)
  {
    InsertAt(b.routes, key, route, i);
    if i < |b.routes| {
      assert EntryKept(b, i, caps);
    }
  }

  /** The route an observation gives up: the oldest, when the board is full and the key is new. */
  predicate Evicted(b: Board, key: string, other: string, caps: Caps) {
    Find(b.routes, key).None? && GivesUp(b, other, caps)
  }

  lemma {:induction false} EnsureKeeps(b: Board, key: string, at: int, caps: Caps)
    requires BoardKept(b, caps) && ValidCaps(caps) && ValidTime(at)
    ensures var ready := EnsureRoute(b, key, at, caps);
            && BoardKept(ready, caps)
            && Find(ready.routes, key) == Some(Find(b.routes, key).GetOr(NewRoute(key, at)))
            && forall k :: k != key ==>
               Find(ready.routes, k) == if Evicted(b, key, k, caps) then None else Find(b.routes, k)
  {
    if Find(b.routes, key).None? {
      NewRouteKept(key, at, caps);
      MakeRoomKeeps(b, caps);
      WriteKeeps(MakeRoom(b, caps), key, NewRoute(key, at), caps);
    }
  }

  lemma {:induction false} FoundIsKept(b: Board, key: string, caps: Caps)
    requires BoardKept(b, caps) && Find(b.routes, key).Some?
    ensures var r := Find(b.routes, key).value;
            r.key == key && RouteKept(r, caps) && key in b.keySets && b.keySets[key] == KeySet(r.keys)
  {
    FindIsIn(b.routes, key);
    var i :| 0 <= i < |b.routes| && Keys(b.routes)[i] == key;
    FindAt(b.routes, i);
    assert EntryKept(b, i, caps);
  }

  lemma ObserveOnKeeps(b: Board, key: string, o: Sighting, at: int, caps: Caps)
    requires BoardKept(b, caps) && ValidCaps(caps) && ValidTime(at)
    ensures BoardKept(ObserveOn(b, key, o, at, caps), caps)
  {
    ObserveOnTouches(b, key, o, at, caps);
  }

  /** An observation changes its own route, made if need be, and no other but the one given up for it. */
  lemma ObserveOnTouches(b: Board, key: string, o: Sighting, at: int, caps: Caps)
    requires BoardKept(b, caps) && ValidCaps(caps) && ValidTime(at)
    ensures var after := ObserveOn(b, key, o, at, caps);
            && BoardKept(after, caps)
            && Find(after.routes, key) == Some(ObserveRoute(Find(b.routes, key).GetOr(NewRoute(key, at)), o, at, caps))
            && forall k :: k != key ==>
               Find(after.routes, k) == if Evicted(b, key, k, caps) then None else Find(b.routes, k)
  {
    EnsureKeeps(b, key, at, caps);
    var ready := EnsureRoute(b, key, at, caps);
    var route := Find(b.routes, key).GetOr(NewRoute(key, at));
    assert RouteKept(route, caps) && route.key == key by { FoundIsKept(ready, key, caps); }
    assert RouteKept(ObserveRoute(route, o, at, caps), caps) by { ObserveKeepsRoute(route, o, at, caps); }
    WriteKeeps(ready, key, ObserveRoute(route, o, at, caps), caps);
  }

  lemma {:induction false} ObserveAllKeeps(s: Evidence, os: seq<Sighting>, at: int, caps: Caps)
    requires BoardKept(s.board, caps) && ValidCaps(caps) && ValidTime(at)
    ensures var after := ObserveAll(s, os, at, caps);
            && BoardKept(after.board, caps) && after.opportunities == s.opportunities
            && after.excluded + after.eligible == s.excluded + s.eligible + |os|
  {
    if os != [] {
      var n := |os| - 1;
      ObserveAllKeeps(s, os[..n], at, caps);
      var before := ObserveAll(s, os[..n], at, caps);
      if IsPilot(os[n]) && RouteKey(os[n]).Some? {
        ObserveOnKeeps(before.board, RouteKey(os[n]).value, os[n], at, caps);
      }
    }
  }

  /** In every state a fresh service reaches, routes, key sets and counters are in step. */
  lemma {:induction false} ReachableKept(actions: seq<Action>, caps: Caps)
    requires ValidCaps(caps)
    ensures Kept(ActAll(NO_EVIDENCE, actions, caps), caps)
  {
    if actions != [] {
      ReachableKept(actions[..|actions| - 1], caps);
      ActKeeps(ActAll(NO_EVIDENCE, actions[..|actions| - 1], caps), actions[|actions| - 1], caps);
    }
  }

  lemma SnapshotKeeps(s: Evidence, os: seq<Sighting>, at: int, caps: Caps)
    requires Kept(s, caps) && ValidCaps(caps) && ValidTime(at)
    ensures Kept(ObserveAll(s.(snapshots := s.snapshots + 1, opportunities := s.opportunities + |os|), os, at, caps),
                 caps)
  {
    ObserveAllKeeps(s.(snapshots := s.snapshots + 1, opportunities := s.opportunities + |os|), os, at, caps);
  }

  lemma ActKeeps(s: Evidence, a: Action, caps: Caps)
    requires Kept(s, caps) && ValidCaps(caps)
    ensures Kept(Act(s, a, caps), caps)
  {
    match a
    case RecordFailure =>
    case ObserveSnapshot(generatedAt, os, at) =>
      if ValidTime(at) {
        SnapshotKeeps(s, os, at, caps);
      }
  }
}
