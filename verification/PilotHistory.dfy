/**
  A route's bounded evidence against its whole history: the lists it retains are the last entries of
  the full lists, and no generation is counted again while it is among the last ones counted.
 */
module PilotHistory {
  import opened Wrappers
  import opened PilotRoute

  datatype Observation = Observation(sighting: Sighting, at: int)

  function RunRoute(r: Route, seen: seq<Observation>, caps: Caps): Route {
    if seen == [] then r
    else
      var last := seen[|seen| - 1];
      ObserveRoute(RunRoute(r, seen[..|seen| - 1], caps), last.sighting, last.at, caps)
  }

  function KeysOf(s: seq<Observation>): (r: seq<GenerationKey>)
    ensures |r| == |s|
  {
    seq(|s|, i requires 0 <= i < |s| => KeyOf(s[i].sighting))
  }

  /** The observations counted: those whose key is not among the last `window` keys counted. */
  function Counted(seen: seq<Observation>, window: nat): seq<Observation> {
    if seen == [] then []
    else
      var before, last := Counted(seen[..|seen| - 1], window), seen[|seen| - 1];
      if KeyOf(last.sighting) in LastN(KeysOf(before), window) then before else before + [last]
  }

  function Graded(s: seq<Observation>): seq<Observation> {
    if s == [] then []
    else
      var before, last := Graded(s[..|s| - 1]), s[|s| - 1];
      if ExecutionGrade(last.sighting, last.at) then before + [last] else before
  }

  function BuyAge(o: Observation): int { o.at - o.sighting.buyTimestamp.GetOr(0) }

  function SellAge(o: Observation): int { o.at - o.sighting.sellTimestamp.GetOr(0) }

  function Reserved(s: seq<Observation>): seq<Observation> {
    if s == [] then []
    else
      var before, last := Reserved(s[..|s| - 1]), s[|s| - 1];
      if WithinReserve(BuyAge(last), SellAge(last)) then before + [last] else before
  }

  function BuyAges(s: seq<Observation>): seq<int> { seq(|s|, i requires 0 <= i < |s| => BuyAge(s[i])) }

  function SellAges(s: seq<Observation>): seq<int> { seq(|s|, i requires 0 <= i < |s| => SellAge(s[i])) }

  ghost predicate CohortIs(c: Cohort, s: seq<Observation>, cap: nat) {
    c.generations == |s| && c.buyAges == LastN(BuyAges(s), cap) && c.sellAges == LastN(SellAges(s), cap)
  }

  /** The route's evidence read off the counted generations. */
  ghost predicate Reflects(r: Route, counted: seq<Observation>, caps: Caps) {
    && r.keys == LastN(KeysOf(counted), caps.keys) && r.seen.unique == |counted|
    && r.rejected == |counted| - |Graded(counted)|
    && CohortIs(r.grade, Graded(counted), caps.samples)
    && CohortIs(r.reserved, Reserved(Graded(counted)), caps.samples)
  }

  lemma AdmitExtends(c: Cohort, s: seq<Observation>, o: Observation, cap: nat)
    requires CohortIs(c, s, cap) && cap > 0
    ensures CohortIs(Admit(c, o.at, BuyAge(o), SellAge(o), cap), s + [o], cap)
  {
    assert BuyAges(s + [o]) == BuyAges(s) + [BuyAge(o)];
    assert SellAges(s + [o]) == SellAges(s) + [SellAge(o)];
    LastNPush(BuyAges(s), BuyAge(o), cap);
    LastNPush(SellAges(s), SellAge(o), cap);
  }

  lemma CountExtends(r: Route, counted: seq<Observation>, o: Observation, caps: Caps)
    requires Reflects(r, counted, caps) && ValidCaps(caps)
    ensures Reflects(CountGeneration(r, o.sighting, o.at, caps), counted + [o], caps)
  {
    assert (counted + [o])[..|counted|] == counted;
    assert KeysOf(counted + [o]) == KeysOf(counted) + [KeyOf(o.sighting)];
    LastNPush(KeysOf(counted), KeyOf(o.sighting), caps.keys);
    GradedExactly(o.sighting, o.at);
    var graded := Graded(counted);
    if ExecutionGrade(o.sighting, o.at) {
      AdmitExtends(r.grade, graded, o, caps.samples);
      assert (graded + [o])[..|graded|] == graded;
      if WithinReserve(BuyAge(o), SellAge(o)) {
        AdmitExtends(r.reserved, Reserved(graded), o, caps.samples);
      }
    }
  }

  /** After any run of observations the route holds exactly what its whole history says. */
  lemma {:induction false} RouteReflectsHistory(key: string, at: int, seen: seq<Observation>, caps: Caps)
    requires ValidCaps(caps)
    ensures var r := RunRoute(NewRoute(key, at), seen, caps);
            Reflects(r, Counted(seen, caps.keys), caps) && r.seen.unique + r.seen.repeated == |seen|
  {
    if seen != [] {
      var n := |seen| - 1;
      RouteReflectsHistory(key, at, seen[..n], caps);
      var before := RunRoute(NewRoute(key, at), seen[..n], caps);
      if KeyOf(seen[n].sighting) !in before.keys {
        CountExtends(before, Counted(seen[..n], caps.keys), seen[n], caps);
      }
    }
  }

  /** The latest observation time, and no earlier than the epoch. */
  function Latest(s: seq<Observation>): int {
    if s == [] then 0 else Max(Latest(s[..|s| - 1]), s[|s| - 1].at)
  }

  ghost predicate SpanIs(c: Cohort, s: seq<Observation>) {
    && c.firstAt == (if s == [] then None else Some(s[0].at))
    && c.lastAt == (if s == [] then None else Some(Latest(s)))
  }

  lemma AdmitSpans(c: Cohort, s: seq<Observation>, o: Observation, buyAge: int, sellAge: int, cap: nat)
    requires SpanIs(c, s)
    ensures SpanIs(Admit(c, o.at, buyAge, sellAge, cap), s + [o])
  {
    assert (s + [o])[..|s|] == s;
  }

  lemma CountSpans(r: Route, counted: seq<Observation>, o: Observation, caps: Caps)
    requires SpanIs(r.grade, Graded(counted)) && SpanIs(r.reserved, Reserved(Graded(counted)))
    ensures var r' := CountGeneration(r, o.sighting, o.at, caps);
            SpanIs(r'.grade, Graded(counted + [o])) && SpanIs(r'.reserved, Reserved(Graded(counted + [o])))
  {
    assert (counted + [o])[..|counted|] == counted;
    GradedExactly(o.sighting, o.at);
    var graded := Graded(counted);
    if ExecutionGrade(o.sighting, o.at) {
      assert (graded + [o])[..|graded|] == graded;
      AdmitSpans(r.grade, graded, o, BuyAge(o), SellAge(o), caps.samples);
      AdmitSpans(r.reserved, Reserved(graded), o, BuyAge(o), SellAge(o), caps.samples);
    }
  }

  /** Either cohort spans from the first of its counted generations to the latest. */
  lemma {:induction false} RouteSpansHistory(key: string, at: int, seen: seq<Observation>, caps: Caps)
    requires ValidCaps(caps)
    ensures var r, graded := RunRoute(NewRoute(key, at), seen, caps), Graded(Counted(seen, caps.keys));
            SpanIs(r.grade, graded) && SpanIs(r.reserved, Reserved(graded))
  {
    if seen != [] {
      var n := |seen| - 1;
      RouteSpansHistory(key, at, seen[..n], caps);
      RouteReflectsHistory(key, at, seen[..n], caps);
      CountSpans(RunRoute(NewRoute(key, at), seen[..n], caps), Counted(seen[..n], caps.keys), seen[n], caps);
    }
  }

  /** Two counted observations of one generation are more than `window` counted generations apart. */
  lemma {:induction false} CountedOnceInWindow(seen: seq<Observation>, window: nat, i: nat, j: nat)
    requires window > 0 && i < j < |Counted(seen, window)| && j - i <= window
    ensures KeyOf(Counted(seen, window)[i].sighting) != KeyOf(Counted(seen, window)[j].sighting)
  {
    var n := |seen| - 1;
    var before, counted := Counted(seen[..n], window), Counted(seen, window);
    if j < |before| {
      CountedOnceInWindow(seen[..n], window, i, j);
    } else {
      RecentIsInLastN(KeysOf(before), window, i);
    }
  }

  lemma RecentIsInLastN<T>(s: seq<T>, n: nat, i: nat)
    requires i < |s| <= i + n
    ensures s[i] in LastN(s, n)
  {
    assert LastN(s, n)[i - (|s| - |LastN(s, n)|)] == s[i];
  }

  lemma InLastN<T>(s: seq<T>, n: nat, x: T) returns (k: nat)
    requires x in LastN(s, n)
    ensures k < |s| && s[k] == x
  {
    var m :| 0 <= m < |LastN(s, n)| && LastN(s, n)[m] == x;
    k := |s| - |LastN(s, n)| + m;
  }

  /** No generation is missed: each observation's is counted somewhere. */
  lemma {:induction false} EveryGenerationCounted(seen: seq<Observation>, window: nat, i: nat) returns (k: nat)
    requires i < |seen|
    ensures k < |Counted(seen, window)| && KeyOf(Counted(seen, window)[k].sighting) == KeyOf(seen[i].sighting)
  {
    var n := |seen| - 1;
    var before := Counted(seen[..n], window);
    if i < n {
      k := EveryGenerationCounted(seen[..n], window, i);
    } else if KeyOf(seen[n].sighting) in LastN(KeysOf(before), window) {
      k := InLastN(KeysOf(before), window, KeyOf(seen[n].sighting));
    } else {
      k := |before|;
    }
  }
}
