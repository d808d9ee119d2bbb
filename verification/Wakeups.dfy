/** The cache's events and the scheduler together: which book changes set a scan coming. */
module Wakeups {
  import opened Wrappers
  import Names
  import CacheCore
  import CacheIndex
  import MarketCache
  import Scheduler

  /** The scanner's admission rule. */
  predicate ShouldSchedule(kind: CacheCore.Kind, executableExchangeCount: nat) {
    !kind.Upsert? || executableExchangeCount >= 2
  }

  lemma ScheduleExactly(kind: CacheCore.Kind, executableExchangeCount: nat)
    ensures ShouldSchedule(kind, executableExchangeCount) <==>
            kind in {CacheCore.Invalidated, CacheCore.Removed, CacheCore.Cleared} || executableExchangeCount >= 2
  {
  }

  /** The update the runner receives for a published event, with the count it then reads. */
  function UpdateFor(event: CacheCore.Event, after: CacheCore.Markets, receivedAt: int, at: int): Scheduler.Event {
    Scheduler.Update(ShouldSchedule(event.kind, |CacheIndex.Venues(after, event.market)|), receivedAt, at)
  }

  /**
    From any cache and a subscribed runner: after an operation that publishes, a scan is coming and
    stays coming until one starts, if the event is destructive or leaves two executable venues.
   */
  lemma PublishedChangeWakesScanner(ms: CacheCore.Markets, op: MarketCache.Operation,
                                    c: Scheduler.Config, s: Scheduler.State, clock: int, receivedAt: int, at: int,
                                    later: seq<Scheduler.Event>)
    requires MarketCache.Apply(ms, op).1.Some?
    requires Scheduler.Inv(s) && s.subscribed
    requires var (after, event) := MarketCache.Apply(ms, op);
             && (!event.value.kind.Upsert? || |CacheIndex.Venues(after, event.value.market)| >= 2)
             && var update := UpdateFor(event.value, after, receivedAt, at);
                && Scheduler.Legal(c, s, clock, [update] + later) && Scheduler.NeverStops(later)
                && !Scheduler.AnyScanStarts(c, Scheduler.Step(c, s, update), later)
    ensures var (after, event) := MarketCache.Apply(ms, op);
            Scheduler.Armed(Scheduler.RunAll(c, s, [UpdateFor(event.value, after, receivedAt, at)] + later))
  {
    var (after, event) := MarketCache.Apply(ms, op);
    Scheduler.NoLostWakeup(c, s, clock, UpdateFor(event.value, after, receivedAt, at), later);
  }

  /** A quote that replaces its own venue's stored quote. */
  predicate OwnVenue(ms: CacheCore.Markets, m: CacheCore.Mutation) {
    m.Put? && (m.key in ms ==> ms[m.key].exchange == m.quote.exchange && ms[m.key].market == m.quote.market)
  }

  /** The incoming fields, falling back to the stored ones, make no executable book. */
  predicate BreaksBook(p: CacheCore.Quote, q: CacheCore.Quote) {
    !CacheCore.TopOfBook(CacheCore.OrElse(q.bidPrice, p.bidPrice), CacheCore.OrElse(q.bidQty, p.bidQty),
                         CacheCore.OrElse(q.askPrice, p.askPrice), CacheCore.OrElse(q.askQty, p.askQty))
  }

  /**
    The change the admission rule misses, by what is known before it: a refreshing quote takes its
    market from two or more executable venues to fewer exactly when the market has two, this venue's is
    one of them, and the quote breaks its book. The scanner is told and does not schedule.
   */
  lemma UnnoticedRouteLoss(ms: CacheCore.Markets, m: CacheCore.Mutation)
    requires MarketCache.AllNamed(ms) && m.Put? && m.refreshes && MarketCache.Named(m.key, m.quote) && OwnVenue(ms, m)
    ensures var (after, event) := CacheCore.Mutate(ms, m);
            var before_, after_ := |CacheIndex.Venues(ms, m.quote.market)|, |CacheIndex.Venues(after, m.quote.market)|;
            && (before_ >= 2 && after_ < 2 <==>
                before_ == 2 && CacheCore.WasExecutable(ms, m.key) && BreaksBook(ms[m.key], m.quote))
            && (before_ >= 2 && after_ < 2 ==> event.Some? && !ShouldSchedule(event.value.kind, after_))
  {
    VenuesAfterPut(ms, m);
  }

  // ---- such an input ----

  function Book(exchange: string, market: string, askQty: real): MarketCache.Operation {
    MarketCache.Update(MarketCache.Native(MarketCache.RawQuote(
      exchange, market, MarketCache.Missing, MarketCache.Val(1.0), MarketCache.Val(1.0), MarketCache.Val(2.0),
      MarketCache.Val(askQty), 1, CacheCore.BookTicker)), 1)
  }

  function BookQuote(exchange: string, market: string, askQty: real): CacheCore.Quote {
    CacheCore.Quote(exchange, market, None, Some(1.0), Some(1.0), Some(2.0), Some(askQty), Some(1.0), 1,
                    CacheCore.BookTicker, askQty > 0.0)
  }

  predicate Plain(exchange: string, market: string) {
    Names.NormExchange(exchange) == exchange != "" && Names.NormMarket(market) == market != ""
  }

  /** A book stored where there is none, or over one of the same venue. */
  lemma BookIsStored(ms: CacheCore.Markets, exchange: string, market: string, askQty: real)
    requires Plain(exchange, market) && askQty >= 0.0
    requires var k := Names.Key(exchange, market); k in ms ==> ms[k] == BookQuote(exchange, market, 1.0)
    ensures var k, (after, event) := Names.Key(exchange, market), MarketCache.Apply(ms, Book(exchange, market, askQty));
            && after == ms[k := BookQuote(exchange, market, askQty)]
            && (k in ms ==> event == Some(CacheCore.Event(CacheCore.Upsert, exchange, market, 1)))
  {
    assert MarketCache.Resolve(Book(exchange, market, askQty)) ==
           CacheCore.Put(Names.Key(exchange, market), BookQuote(exchange, market, askQty), true);
  }

  function TwoBooks(a: string, b: string, market: string, askQty: real): CacheCore.Markets {
    map[Names.Key(a, market) := BookQuote(a, market, 1.0), Names.Key(b, market) := BookQuote(b, market, askQty)]
  }

  lemma VenuesOfTwo(a: string, b: string, market: string, askQty: real)
    requires Names.Key(a, market) != Names.Key(b, market)
    ensures CacheIndex.Venues(TwoBooks(a, b, market, askQty), market) == if askQty > 0.0 then {a, b} else {a}
  {
    var ms, ka, kb := TwoBooks(a, b, market, askQty), Names.Key(a, market), Names.Key(b, market);
    assert ms[ka].executable && ms[ka].market == market && ms[ka].exchange == a;
    assert ms[kb].executable == (askQty > 0.0) && ms[kb].market == market && ms[kb].exchange == b;
  }

  lemma TwoBooksStored(a: string, b: string, market: string)
    requires Plain(a, market) && Plain(b, market) && Names.Key(a, market) != Names.Key(b, market)
    ensures MarketCache.ApplyAll(map[], [Book(a, market, 1.0), Book(b, market, 1.0)]) == TwoBooks(a, b, market, 1.0)
  {
    var first: CacheCore.Markets := map[];
    BookIsStored(first, a, market, 1.0);
    assert first[Names.Key(a, market) := BookQuote(a, market, 1.0)]
           == map[Names.Key(a, market) := BookQuote(a, market, 1.0)];
    BookIsStored(map[Names.Key(a, market) := BookQuote(a, market, 1.0)], b, market, 1.0);
    ApplyTwo(map[], Book(a, market, 1.0), Book(b, market, 1.0));
    assert map[Names.Key(a, market) := BookQuote(a, market, 1.0)][Names.Key(b, market) := BookQuote(b, market, 1.0)]
        == TwoBooks(a, b, market, 1.0);
  }

  lemma ApplyTwo(ms: CacheCore.Markets, first: MarketCache.Operation, second: MarketCache.Operation)
    ensures MarketCache.ApplyAll(ms, [first, second]) == MarketCache.Apply(MarketCache.Apply(ms, first).0, second).0
  {
    assert [first, second][1..] == [second] && [second][1..] == [];
    var after := MarketCache.Apply(ms, first).0;
    assert MarketCache.ApplyAll(after, [second]) == MarketCache.ApplyAll(MarketCache.Apply(after, second).0, []);
  }

  /** Two venues with a book, then one of them without ask quantity: published, one venue left, not scheduled. */
  lemma RouteLossExample(a: string, b: string, market: string)
    requires Plain(a, market) && Plain(b, market) && Names.Key(a, market) != Names.Key(b, market)
    ensures var ms := MarketCache.ApplyAll(map[], [Book(a, market, 1.0), Book(b, market, 1.0)]);
            var (after, event) := MarketCache.Apply(ms, Book(b, market, 0.0));
            && CacheIndex.Venues(ms, market) == {a, b} && CacheIndex.Venues(after, market) == {a}
            && event.Some? && event.value.kind.Upsert?
            && !ShouldSchedule(event.value.kind, |CacheIndex.Venues(after, market)|)
  {
    TwoBooksStored(a, b, market);
    BookIsStored(TwoBooks(a, b, market, 1.0), b, market, 0.0);
    VenuesOfTwo(a, b, market, 1.0);
    VenuesOfTwo(a, b, market, 0.0);
    assert TwoBooks(a, b, market, 1.0)[Names.Key(b, market) := BookQuote(b, market, 0.0)]
           == TwoBooks(a, b, market, 0.0);
  }

  /** Names it applies to. */
  lemma PlainNames()
    ensures Plain("a", "M") && Plain("b", "M") && Names.Key("a", "M") != Names.Key("b", "M")
  {
    assert Names.Key("a", "M")[0] != Names.Key("b", "M")[0];
  }

  // ---- the second venue arrives ----

  lemma SubsetSize(a: set<string>, b: set<string>)
    requires a <= b
    ensures |a| <= |b|
  {
    assert b == a + (b - a);
  }

  /** Where an executable quote came from: it was there, or this mutation brought it. */
  lemma VenueOrigin(ms: CacheCore.Markets, m: CacheCore.Mutation, market: string, e: string)
    requires e in CacheIndex.Venues(CacheCore.Mutate(ms, m).0, market) && e !in CacheIndex.Venues(ms, market)
    ensures m.Put? && m.quote.market == market && (m.refreshes || CacheCore.Conjures(ms, m))
    ensures m.refreshes ==> CacheCore.WasExecutable(CacheCore.Mutate(ms, m).0, m.key)
  {
    var after := CacheCore.Mutate(ms, m).0;
    var k :| k in after && after[k].executable && after[k].market == market && after[k].exchange == e;
    assert !HasBook(ms, k, market, e);
  }

  predicate HasBook(ms: CacheCore.Markets, k: string, market: string, e: string) {
    k in ms && ms[k].executable && ms[k].market == market && ms[k].exchange == e
  }

  /** Where an executable quote went: this mutation took it, with an event if it is a destructive one. */
  lemma VenueLoss(ms: CacheCore.Markets, m: CacheCore.Mutation, market: string, e: string)
    requires e in CacheIndex.Venues(ms, market) && e !in CacheIndex.Venues(CacheCore.Mutate(ms, m).0, market)
    requires m.Put? && m.refreshes ==> OwnVenue(ms, m)
    ensures var event := CacheCore.Mutate(ms, m).1;
            event.Some? && (event.value.kind.Upsert? <==> m.Put?) && (m.Put? ==> event.value.market == market)
  {
    var after := CacheCore.Mutate(ms, m).0;
    var k :| k in ms && ms[k].executable && ms[k].market == market && ms[k].exchange == e;
    assert !HasBook(after, k, market, e);
  }

  /** An operation that takes a market from fewer than two executable venues to two or more. */
  predicate BringsRoute(ms: CacheCore.Markets, op: MarketCache.Operation, market: string) {
    |CacheIndex.Venues(ms, market)| < 2 <= |CacheIndex.Venues(MarketCache.Apply(ms, op).0, market)|
  }

  /**
    An operation that brings a market its second executable venue is published for that market and
    scheduled exactly when it is not a ticker with a hidden book; such a ticker wakes nobody.
   */
  lemma NewRouteWakesExactly(ms: CacheCore.Markets, op: MarketCache.Operation, market: string)
    requires MarketCache.WellFormed(ms) && BringsRoute(ms, op, market)
    ensures var (after, event) := MarketCache.Apply(ms, op);
            && (event.Some? <==> !MarketCache.HiddenBookArrives(ms, op))
            && (event.Some? ==> event.value.market == market
                                && ShouldSchedule(event.value.kind, |CacheIndex.Venues(after, market)|))
  {
    var after, m := MarketCache.Apply(ms, op).0, MarketCache.Resolve(op);
    var before_, after_ := CacheIndex.Venues(ms, market), CacheIndex.Venues(after, market);
    if after_ <= before_ {
      SubsetSize(after_, before_);
      assert false;
    }
    var e :| e in after_ && e !in before_;
    VenueOrigin(ms, m, market, e);
    assert CacheCore.Conjures(ms, m) <==> MarketCache.HiddenBookArrives(ms, op);
  }

  lemma ReplacesOwnVenue(ms: CacheCore.Markets, op: MarketCache.Operation)
    requires MarketCache.WellFormed(ms) && MarketCache.Compatible(ms, op)
    ensures var m := MarketCache.Resolve(op); m.Put? && m.refreshes ==> OwnVenue(ms, m)
  {
    var m := MarketCache.Resolve(op);
    MarketCache.ResolvedPut(op);
    if m.Put? && m.refreshes && m.key in ms {
      assert MarketCache.Named(m.key, ms[m.key]);
      MarketCache.SameExchangeKey(m.quote.exchange, m.quote.market, ms[m.key].market);
    }
  }

  /** An operation that takes a market from two or more executable venues to fewer. */
  predicate TakesRoute(ms: CacheCore.Markets, op: MarketCache.Operation, market: string) {
    |CacheIndex.Venues(ms, market)| >= 2 > |CacheIndex.Venues(MarketCache.Apply(ms, op).0, market)|
  }

  /** An operation that takes a route is always published, and scheduled exactly when it is no update. */
  lemma LostRouteWakesExactly(ms: CacheCore.Markets, op: MarketCache.Operation, market: string)
    requires MarketCache.WellFormed(ms) && MarketCache.Compatible(ms, op) && TakesRoute(ms, op, market)
    ensures var (after, event) := MarketCache.Apply(ms, op);
            && event.Some?
            && (ShouldSchedule(event.value.kind, |CacheIndex.Venues(after, event.value.market)|) <==> !op.Update?)
  {
    var after, m := MarketCache.Apply(ms, op).0, MarketCache.Resolve(op);
    var before_, after_ := CacheIndex.Venues(ms, market), CacheIndex.Venues(after, market);
    if before_ <= after_ {
      SubsetSize(before_, after_);
      assert false;
    }
    var e :| e in before_ && e !in after_;
    ReplacesOwnVenue(ms, op);
    VenueLoss(ms, m, market, e);
  }

  function HiddenTicker(exchange: string, market: string): MarketCache.Operation {
    MarketCache.Update(MarketCache.Tick(MarketCache.Ticker(
      exchange, market, MarketCache.Missing, MarketCache.Val(1.0), MarketCache.Val(2.0), MarketCache.Missing,
      MarketCache.Val(1.0), MarketCache.Missing, MarketCache.Val(1.0), 1)), 1)
  }

  /** One venue with a book, then a ticker of another one with a hidden book: a route, and no event. */
  lemma SilentRouteExample(a: string, b: string, market: string)
    requires Plain(a, market) && Plain(b, market) && Names.Key(a, market) != Names.Key(b, market)
    ensures var ms := MarketCache.Apply(map[], Book(a, market, 1.0)).0;
            BringsRoute(ms, HiddenTicker(b, market), market) && MarketCache.Apply(ms, HiddenTicker(b, market)).1.None?
  {
    BookIsStored(map[], a, market, 1.0);
    var ms: CacheCore.Markets := map[Names.Key(a, market) := BookQuote(a, market, 1.0)];
    assert MarketCache.Apply(map[], Book(a, market, 1.0)).0 == ms;
    HiddenBookIsStored(ms, b, market);
    OneVenue(a, market);
    VenuesOfTwo(a, b, market, 1.0);
    assert TwoBooks(a, b, market, 1.0) == ms[Names.Key(b, market) := BookQuote(b, market, 1.0)];
    DifferentVenues(a, b, market);
  }

  lemma HiddenBookIsStored(ms: CacheCore.Markets, exchange: string, market: string)
    requires Plain(exchange, market) && Names.Key(exchange, market) !in ms
    ensures MarketCache.Apply(ms, HiddenTicker(exchange, market)) ==
            (ms[Names.Key(exchange, market) := BookQuote(exchange, market, 1.0)], None)
  {
    assert MarketCache.Resolve(HiddenTicker(exchange, market)) ==
           CacheCore.Put(Names.Key(exchange, market), BookQuote(exchange, market, 1.0), false);
  }

  lemma OneVenue(a: string, market: string)
    ensures CacheIndex.Venues(map[Names.Key(a, market) := BookQuote(a, market, 1.0)], market) == {a}
  {
    var ms: CacheCore.Markets := map[Names.Key(a, market) := BookQuote(a, market, 1.0)];
    assert ms[Names.Key(a, market)].executable && ms[Names.Key(a, market)].exchange == a;
  }

  lemma DifferentVenues(a: string, b: string, market: string)
    requires Names.Key(a, market) != Names.Key(b, market)
    ensures |{a, b}| == 2
  {
    assert a != b;
  }

  lemma VenuesAfterPut(ms: CacheCore.Markets, m: CacheCore.Mutation)
    requires MarketCache.AllNamed(ms) && m.Put? && m.refreshes && MarketCache.Named(m.key, m.quote) && OwnVenue(ms, m)
    ensures var after := CacheCore.Mutate(ms, m).0;
            var before_, after_ := CacheIndex.Venues(ms, m.quote.market), CacheIndex.Venues(after, m.quote.market);
            && (m.quote.exchange in before_ <==> CacheCore.WasExecutable(ms, m.key))
            && after_ == if CacheCore.WasExecutable(after, m.key) then before_ + {m.quote.exchange}
               else before_ - {m.quote.exchange}
  {
    var after := CacheCore.Mutate(ms, m).0;
    var market, exchange := m.quote.market, m.quote.exchange;
    var before_, after_ := CacheIndex.Venues(ms, market), CacheIndex.Venues(after, market);
    assert after[m.key].exchange == exchange && after[m.key].market == market;
    forall k | k in ms && ms[k].exchange == exchange && ms[k].market == market ensures k == m.key {
      assert MarketCache.Named(k, ms[k]);
    }
    forall e | e in after_ ensures e in before_ || (e == exchange && after[m.key].executable) {
      var k :| k in after && after[k].executable && after[k].market == market && after[k].exchange == e;
      assert k == m.key || k in ms;
    }
    forall e | e in before_ && e != exchange ensures e in after_ {
      var k :| k in ms && ms[k].executable && ms[k].market == market && ms[k].exchange == e;
      assert k in after && after[k] == ms[k];
    }
    if exchange in after_ {
      var k :| k in after && after[k].executable && after[k].market == market && after[k].exchange == exchange;
      assert k == m.key || k in ms;
      assert CacheCore.WasExecutable(after, m.key);
    }
  }
}
