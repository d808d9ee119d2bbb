/**
  What a scan is given and what it gives back: the execution universe lets quotes in, and the accepted
  opportunities come back best first.
 */
module ScanResults {
  import opened Wrappers
  import opened Names
  import opened InsertionMap
  import opened CacheCore
  import opened PairScan
  import opened OpportunityRules
  import opened ScanLedger

  // ---- the execution universe ----

  /** Quotes of the venue under quality control count only in its eligible markets. */
  predicate Admits(eligible: set<string>, q: Quote) {
    NormExchange(q.exchange) != "bybit" || CanonicalMarket(q.market) in eligible
  }

  function Admitted(quotes: seq<Quote>, eligible: set<string>): seq<Quote> {
    if quotes == [] then []
    else
      var q := quotes[|quotes| - 1];
      Admitted(quotes[..|quotes| - 1], eligible) + if Admits(eligible, q) then [q] else []
  }

  lemma {:induction false} InAdmitted(quotes: seq<Quote>, eligible: set<string>, q: Quote)
    ensures q in Admitted(quotes, eligible) <==> q in quotes && Admits(eligible, q)
    ensures q in Admitted(quotes, eligible) <==>
            q in quotes
              && (NormExchange(q.exchange) == "bybit" ==> Strip(NormMarket(q.market), IsSeparator) in eligible)
  {
    if quotes != [] {
      var n := |quotes| - 1;
      InAdmitted(quotes[..n], eligible, q);
      assert quotes == quotes[..n] + [quotes[n]];
    }
  }

  /** Taking a list in two parts, each admitted quote stays in its place. */
  lemma {:induction false} AdmittedInOrder(before: seq<Quote>, after: seq<Quote>, eligible: set<string>)
    ensures Admitted(before + after, eligible) == Admitted(before, eligible) + Admitted(after, eligible)
  {
    if after == [] {
      assert before + after == before;
    } else {
      var n := |after| - 1;
      AdmittedInOrder(before, after[..n], eligible);
      assert (before + after)[..|before + after| - 1] == before + after[..n];
    }
  }

  lemma AdmittedAreNormalised(quotes: seq<Quote>, eligible: set<string>)
    requires AllNormalised(quotes)
    ensures AllNormalised(Admitted(quotes, eligible))
  {
    forall q | q in Admitted(quotes, eligible) ensures Normalised(q) {
      InAdmitted(quotes, eligible, q);
    }
  }

  // ---- what a scan trades ----

  /** Every snapshot holds, once each, the named venue's quotes of its market. */
  ghost predicate Filed(snapshots: Entries<Snapshot>) {
    && Distinct(snapshots)
    && (forall i :: 0 <= i < |snapshots| ==> FiledAs(snapshots[i]))
  }

  ghost predicate FiledAs(entry: (string, Snapshot)) {
    && entry.0 == entry.1.market && Distinct(entry.1.quotes)
    && (forall j :: 0 <= j < |entry.1.quotes| ==> VenueEntry(entry.0, entry.1.quotes[j]))
  }

  predicate VenueEntry(market: string, entry: (string, Quote)) {
    entry.1.market == market && entry.1.exchange == entry.0
  }

  lemma InsertFiled(market: string, quotes: Entries<Quote>, q: Quote)
    requires Distinct(quotes) && q.market == market && forall j :: 0 <= j < |quotes| ==> VenueEntry(market, quotes[j])
    ensures var after := Insert(quotes, q.exchange, q);
            Distinct(after) && forall j :: 0 <= j < |after| ==> VenueEntry(market, after[j])
  {
    var after := Insert(quotes, q.exchange, q);
    InsertKeys(quotes, q.exchange, q);
    forall j | 0 <= j < |after| ensures VenueEntry(market, after[j]) {
      InsertAt(quotes, q.exchange, q, j);
    }
  }

  lemma AddFiled(snapshots: Entries<Snapshot>, q: Quote)
    requires Filed(snapshots)
    ensures Filed(Add(snapshots, q))
  {
    var existing := Find(snapshots, q.market);
    var s := if existing.Some? then WithQuote(existing.value, q)
      else Snapshot(q.market, [(q.exchange, q)], q.timestamp);
    if existing.Some? {
      FindIsIn(snapshots, q.market);
      assert FiledAs((q.market, existing.value));
      InsertFiled(q.market, existing.value.quotes, q);
    }
    assert FiledAs((q.market, s));
    InsertKeys(snapshots, q.market, s);
    forall i | 0 <= i < |Add(snapshots, q)| ensures FiledAs(Add(snapshots, q)[i]) {
      InsertAt(snapshots, q.market, s, i);
    }
  }

  lemma {:induction false} GroupFiled(quotes: seq<Quote>)
    ensures Filed(Group(quotes))
  {
    if quotes != [] {
      GroupFiled(quotes[..|quotes| - 1]);
      AddFiled(Group(quotes[..|quotes| - 1]), quotes[|quotes| - 1]);
    }
  }

  /** The quote is its venue's latest in the list. */
  ghost predicate IsLatestOf(quotes: seq<Quote>, q: Quote) {
    exists i :: 0 <= i < |quotes| && quotes[i] == q && IsLatest(quotes, i)
  }

  lemma HeldIsLatest(quotes: seq<Quote>, s: Snapshot, q: Quote)
    requires s in Values(Group(quotes)) && q in Values(s.quotes)
    ensures q.market == s.market && IsLatestOf(quotes, q)
  {
    var groups := Group(quotes);
    GroupFiled(quotes);
    var i :| 0 <= i < |groups| && Values(groups)[i] == s;
    var j :| 0 <= j < |s.quotes| && Values(s.quotes)[j] == q;
    assert FiledAs(groups[i]) && VenueEntry(s.market, s.quotes[j]);
    FindAt(groups, i);
    FindAt(s.quotes, j);
    HeldQuoteIsLatest(quotes, q.market, q.exchange);
    LatestIsLatest(quotes, q.market, q.exchange);
  }

  lemma {:induction false} KeptGainers(pairs: seq<Pair>, p: Pair)
    ensures p in KeepGaining(pairs) <==> p in pairs && Gains(p)
  {
    if pairs != [] {
      KeptGainers(pairs[..|pairs| - 1], p);
      assert pairs == pairs[..|pairs| - 1] + [pairs[|pairs| - 1]];
    }
  }

  lemma AcceptedTrades(ports: Ports, policy: Policy, s: State, p: Pair)
    ensures forall o :: o in Step(ports, policy, s, p).1 ==> o.pair == p && Promising(ports, policy, p)
  {
    if Judge(ports, policy, s.capital, p).0.Accepted? {
      AcceptedIsPromising(ports, policy, s.capital, p);
      AcceptedIsPriced(ports, policy, s.capital, p);
    }
  }

  lemma {:induction false} EvaluatedTrade(ports: Ports, policy: Policy, s: State, pairs: seq<Pair>, o: Opportunity)
    requires o in EvaluateAll(EngineOf(ports, policy), s, pairs).1
    ensures o.pair in pairs && Promising(ports, policy, o.pair)
  {
    var n := |pairs| - 1;
    var (before, found) := EvaluateAll(EngineOf(ports, policy), s, pairs[..n]);
    AcceptedTrades(ports, policy, before, pairs[n]);
    if o in found {
      EvaluatedTrade(ports, policy, s, pairs[..n], o);
    }
  }

  lemma {:induction false} GainingTrade(ports: Ports, policy: Policy, s: State, pairs: seq<Pair>, o: Opportunity)
    requires o in EvaluateGaining(EngineOf(ports, policy), s, pairs).1
    ensures o.pair in KeepGaining(pairs) && Promising(ports, policy, o.pair)
  {
    KeepGainingShrinks(pairs);
    EvaluatedTrade(ports, policy, PreFiltered(s, |pairs| - |KeepGaining(pairs)|), KeepGaining(pairs), o);
  }

  lemma {:induction false} ScannedTrade(ports: Ports, policy: Policy, s: State, snapshots: seq<Snapshot>,
                                        o: Opportunity)
    returns (snapshot: Snapshot)
    requires o in ScanGaining(EngineOf(ports, policy), s, snapshots).1
    ensures snapshot in snapshots && o.pair in GainingPairs(snapshot) && Promising(ports, policy, o.pair)
  {
    var n := |snapshots| - 1;
    var (before, found) := ScanGaining(EngineOf(ports, policy), s, snapshots[..n]);
    if o in found {
      snapshot := ScannedTrade(ports, policy, s, snapshots[..n], o);
    } else {
      snapshot := snapshots[n];
      GainingTrade(ports, policy, before, TradablePairs(snapshot), o);
    }
  }

  /** A pair a scan over these quotes may trade: the latest quotes of two venues of one market, at a gain. */
  ghost predicate Trades(quotes: seq<Quote>, p: Pair) {
    && IsLatestOf(quotes, p.buy) && IsLatestOf(quotes, p.sell)
    && p.buy.market == p.sell.market == p.market && Tradable(p) && Gains(p)
  }

  /** Whatever the services answer, a scan accepts only such pairs of admitted quotes. */
  lemma FoundTrade(ports: Ports, policy: Policy, s: State, quotes: seq<Quote>, eligible: set<string>, o: Opportunity)
    requires o in ScanGaining(EngineOf(ports, policy), s, Values(Group(Admitted(quotes, eligible)))).1
    ensures Trades(Admitted(quotes, eligible), o.pair) && Promising(ports, policy, o.pair)
    ensures o.pair.buy in quotes && Admits(eligible, o.pair.buy) && o.pair.sell in quotes
            && Admits(eligible, o.pair.sell)
  {
    var admitted := Admitted(quotes, eligible);
    var snapshot := ScannedTrade(ports, policy, s, Values(Group(admitted)), o);
    KeptGainers(TradablePairs(snapshot), o.pair);
    TradablePairsAreAll(snapshot);
    HeldIsLatest(admitted, snapshot, o.pair.buy);
    HeldIsLatest(admitted, snapshot, o.pair.sell);
    InAdmitted(quotes, eligible, o.pair.buy);
    InAdmitted(quotes, eligible, o.pair.sell);
  }

  // ---- what the filter of gaining pairs would change under another policy ----

  /** A venue that buys and sells at one price. */
  function TightQuote(exchange: string, market: string): Quote {
    Quote(exchange, market, Some(1.0), Some(1.0), Some(1.0), Some(1.0), Some(1.0), Some(0.0), 0, BookTicker, true)
  }

  lemma TightPair(policy: Policy, a: string, b: string, market: string)
    requires a != b && policy.minimumSpreadPercent <= 0.0
    ensures var p := Pair(market, TightQuote(a, market), TightQuote(b, market)); Tradable(p) && Straggler(policy, p)
  {
  }

  lemma GroupOfTwo(a: string, b: string, market: string)
    requires a != b
    ensures Values(Group([TightQuote(a, market), TightQuote(b, market)]))
         == [Snapshot(market, [(a, TightQuote(a, market)), (b, TightQuote(b, market))], 0)]
  {
    var qa, qb := TightQuote(a, market), TightQuote(b, market);
    assert [qa] + [qb] == [qa, qb] && [] + [qa] == [qa];
    GroupPush([qa], qb);
    GroupPush([], qa);
    var one: Entries<Snapshot> := [(market, Snapshot(market, [(a, qa)], 0))];
    assert Add([], qa) == one;
    var first := [(a, qa)];
    assert Find(first[1..], b) == None && Insert(first[1..], b, qb) == [(b, qb)];
    assert Insert(first, b, qb) == [(a, qa), (b, qb)];
    assert WithQuote(one[0].1, qb) == Snapshot(market, [(a, qa), (b, qb)], 0);
  }

  /** With a floor that is not positive, unlike the default one, two venues at one price make the scans differ. */
  lemma {:induction false} StragglerExample(ports: Ports, policy: Policy, s: State, a: string, b: string,
                                            market: string)
    requires a != b && policy.minimumSpreadPercent <= 0.0
    ensures var snapshots := Values(Group([TightQuote(a, market), TightQuote(b, market)]));
            ScanGaining(EngineOf(ports, policy), s, snapshots) != ScanAll(EngineOf(ports, policy), s, snapshots)
  {
    var qa, qb := TightQuote(a, market), TightQuote(b, market);
    var snapshot := Snapshot(market, [(a, qa), (b, qb)], 0);
    GroupOfTwo(a, b, market);
    TradablePairsAreAll(snapshot);
    TightPair(policy, a, b, market);
    assert Values(snapshot.quotes)[0] == qa && Values(snapshot.quotes)[1] == qb;
    assert Pair(market, qa, qb) in TradablePairs(snapshot);
    PreFilterIsExact(ports, policy, s, TradablePairs(snapshot));
    ScanOne(EngineOf(ports, policy), s, snapshot);
  }

  lemma {:induction false} ScanOne(engine: Engine<State>, s: State, snapshot: Snapshot)
    ensures ScanGaining(engine, s, [snapshot]) == EvaluateGaining(engine, s, TradablePairs(snapshot))
    ensures ScanAll(engine, s, [snapshot]) == EvaluateAll(engine, s, TradablePairs(snapshot))
  {
    var none: seq<Snapshot> := [snapshot][..0];
    assert none == [];
    assert forall found: seq<Opportunity> :: [] + found == found;
  }

  // ---- the order of the answer ----

  function Net(o: Opportunity): real { o.evaluation.netProfitPercent }

  /** Where o goes in a best-first list: before those of its own percentage, which come later in the scan. */
  function Rank(found: seq<Opportunity>, o: Opportunity): seq<Opportunity> {
    if found == [] || Net(found[0]) <= Net(o) then [o] + found else [found[0]] + Rank(found[1..], o)
  }

  /** `sort` by falling net percentage */
  function Ranked(found: seq<Opportunity>): seq<Opportunity> {
    if found == [] then [] else Rank(Ranked(found[1..]), found[0])
  }

  ghost predicate BestFirst(found: seq<Opportunity>) {
    forall i, j :: 0 <= i < j < |found| ==> Net(found[i]) >= Net(found[j])
  }

  function OfNet(o: Opportunity, net: real): seq<Opportunity> {
    if Net(o) == net then [o] else []
  }

  function WithNet(found: seq<Opportunity>, net: real): seq<Opportunity> {
    if found == [] then [] else OfNet(found[0], net) + WithNet(found[1..], net)
  }

  lemma {:induction false} RankAdds(found: seq<Opportunity>, o: Opportunity)
    ensures multiset(Rank(found, o)) == multiset(found) + multiset{o}
  {
    if found != [] {
      assert found == [found[0]] + found[1..];
      if Net(found[0]) > Net(o) {
        RankAdds(found[1..], o);
      }
    }
  }

  lemma {:induction false} RankOrders(found: seq<Opportunity>, o: Opportunity)
    requires BestFirst(found)
    ensures BestFirst(Rank(found, o))
  {
    if found != [] && Net(found[0]) > Net(o) {
      RankOrders(found[1..], o);
      var rest := Rank(found[1..], o);
      RankAdds(found[1..], o);
      forall j | 0 <= j < |rest| ensures Net(found[0]) >= Net(rest[j]) {
        assert rest[j] in multiset(rest);
      }
    }
  }

  lemma WithNetCons(o: Opportunity, rest: seq<Opportunity>, net: real)
    ensures WithNet([o] + rest, net) == OfNet(o, net) + WithNet(rest, net)
  {
    assert ([o] + rest)[1..] == rest;
  }

  lemma OneIsEmpty<T>(a: seq<T>, b: seq<T>, rest: seq<T>)
    requires a == [] || b == []
    ensures a + (b + rest) == b + (a + rest)
  {
    assert [] + rest == rest;
  }

  lemma {:induction false} RankIsStable(found: seq<Opportunity>, o: Opportunity, net: real)
    requires BestFirst(found)
    ensures WithNet(Rank(found, o), net) == OfNet(o, net) + WithNet(found, net)
  {
    if found == [] || Net(found[0]) <= Net(o) {
      WithNetCons(o, found, net);
    } else {
      RankIsStable(found[1..], o, net);
      WithNetCons(found[0], Rank(found[1..], o), net);
      OneIsEmpty(OfNet(found[0], net), OfNet(o, net), WithNet(found[1..], net));
    }
  }

  /** The same opportunities, best first, */
  lemma {:induction false} RankedIsBestFirst(found: seq<Opportunity>)
    ensures BestFirst(Ranked(found)) && multiset(Ranked(found)) == multiset(found)
    ensures forall i, j :: 0 <= i < j < |Ranked(found)| ==>
              Ranked(found)[i].evaluation.netProfitPercent >= Ranked(found)[j].evaluation.netProfitPercent
  {
    if found != [] {
      RankedIsBestFirst(found[1..]);
      RankAdds(Ranked(found[1..]), found[0]);
      RankOrders(Ranked(found[1..]), found[0]);
      assert found == [found[0]] + found[1..];
    }
  }

  /** and those of equal percentage in the order they were found. */
  lemma {:induction false} RankedIsStable(found: seq<Opportunity>, net: real)
    ensures WithNet(Ranked(found), net) == WithNet(found, net)
  {
    if found != [] {
      RankedIsStable(found[1..], net);
      RankedIsBestFirst(found[1..]);
      RankIsStable(Ranked(found[1..]), found[0], net);
    }
  }
}
