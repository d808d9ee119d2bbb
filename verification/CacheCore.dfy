/**
  The market cache's authoritative map: quotes, the three-case merge, what one mutation does to
  the map and which executable-book event it publishes. Keys are already formed here.
 */
module CacheCore {
  import opened Wrappers

  datatype Source = BookTicker | OrderBook | TickerFeed | Rest

  datatype Quote = Quote(
    exchange: string, market: string, lastPrice: Option<real>,
    bidPrice: Option<real>, bidQty: Option<real>, askPrice: Option<real>, askQty: Option<real>,
    spread: Option<real>, timestamp: int, source: Source, executable: bool)

  type Markets = map<string, Quote>

  datatype Kind = Upsert | Invalidated | Removed | Cleared

  datatype Event = Event(kind: Kind, exchange: string, market: string, timestamp: int)

  datatype Mutation =
    | Skip
    | Put(key: string, quote: Quote, refreshes: bool)
    | Void(key: string, now: int)
    | Delete(key: string, now: int)
    | Clear(now: int)

  function OrElse(a: Option<real>, b: Option<real>): Option<real> { if a.Some? then a else b }

  function SpreadOf(bid: Option<real>, ask: Option<real>): Option<real> {
    if bid.Some? && ask.Some? then Some(ask.value - bid.value) else None
  }

  predicate TopOfBook(bid: Option<real>, bidQty: Option<real>, ask: Option<real>, askQty: Option<real>) {
    && bid.Some? && ask.Some? && bidQty.Some? && askQty.Some?
    && bid.value > 0.0 && ask.value > 0.0 && bidQty.value > 0.0 && askQty.value > 0.0
    && ask.value >= bid.value
  }

  function Merge(previous: Option<Quote>, incoming: Quote, refreshes: bool): Quote {
    if previous.None? then incoming
    else
      var p := previous.value;
      if refreshes then
        var bid, bidQty := OrElse(incoming.bidPrice, p.bidPrice), OrElse(incoming.bidQty, p.bidQty);
        var ask, askQty := OrElse(incoming.askPrice, p.askPrice), OrElse(incoming.askQty, p.askQty);
        Quote(incoming.exchange, incoming.market, OrElse(incoming.lastPrice, p.lastPrice),
              bid, bidQty, ask, askQty, SpreadOf(bid, ask), incoming.timestamp, incoming.source,
              TopOfBook(bid, bidQty, ask, askQty))
      else if p.executable then
        Quote(p.exchange, p.market, OrElse(incoming.lastPrice, p.lastPrice),
              p.bidPrice, p.bidQty, p.askPrice, p.askQty, p.spread, p.timestamp, p.source, true)
      else
        incoming.(lastPrice := OrElse(incoming.lastPrice, p.lastPrice))
  }

  function Invalidation(q: Quote, now: int): Quote {
    Quote(q.exchange, q.market, q.lastPrice, None, None, None, None, None, now, q.source, false)
  }

  function Lookup(ms: Markets, k: string): Option<Quote> {
    if k in ms then Some(ms[k]) else None
  }

  predicate WasExecutable(ms: Markets, k: string) { k in ms && ms[k].executable }

  predicate AnyExecutable(ms: Markets) { exists k | k in ms :: ms[k].executable }

  function Mutate(ms: Markets, mutation: Mutation): (Markets, Option<Event>) {
    match mutation
    case Skip => (ms, None)
    case Put(k, q, refreshes) =>
      var merged := Merge(Lookup(ms, k), q, refreshes);
      (ms[k := merged],
       if refreshes && (merged.executable || WasExecutable(ms, k))
       then Some(Event(Upsert, merged.exchange, merged.market, merged.timestamp)) else None)
    case Void(k, now) =>
      if k !in ms then (ms, None)
      else
        (ms[k := Invalidation(ms[k], now)],
         if ms[k].executable then Some(Event(Invalidated, ms[k].exchange, ms[k].market, now)) else None)
    case Delete(k, now) =>
      if k !in ms then (ms, None)
      else
        (ms - {k},
         if ms[k].executable then Some(Event(Removed, ms[k].exchange, ms[k].market, now)) else None)
    case Clear(now) =>
      (map[], if AnyExecutable(ms) then Some(Event(Cleared, "*", "*", now)) else None)
  }

  // ---- derived fields ----

  predicate FieldsOk(q: Quote) {
    && q.executable == TopOfBook(q.bidPrice, q.bidQty, q.askPrice, q.askQty)
    && q.spread == SpreadOf(q.bidPrice, q.askPrice)
  }

  ghost predicate AllFieldsOk(ms: Markets) {
    forall k :: k in ms ==> FieldsOk(ms[k])
  }

  predicate Sound(mutation: Mutation) { mutation.Put? ==> FieldsOk(mutation.quote) }

  function Run(ms: Markets, mutations: seq<Mutation>): Markets
    decreases |mutations|
  {
    if mutations == [] then ms else Run(Mutate(ms, mutations[0]).0, mutations[1..])
  }

  /** In every reachable map `executable` is the top-of-book test and `spread` is ask minus bid. */
  lemma {:induction false} RunKeepsFields(ms: Markets, mutations: seq<Mutation>)
    requires AllFieldsOk(ms)
    requires forall i :: 0 <= i < |mutations| ==> Sound(mutations[i])
    ensures AllFieldsOk(Run(ms, mutations))
    decreases |mutations|
  {
    if mutations != [] {
      RunKeepsFields(Mutate(ms, mutations[0]).0, mutations[1..]);
    }
  }

  // ---- the executable view ----

  /** What an opportunity is computed from. */
  datatype BookView =
    BookView(bid: Option<real>, bidQty: Option<real>, ask: Option<real>, askQty: Option<real>, timestamp: int)

  function ViewOf(q: Quote): BookView { BookView(q.bidPrice, q.bidQty, q.askPrice, q.askQty, q.timestamp) }

  function ExecutableView(ms: Markets): map<string, BookView> {
    map k | k in ms && ms[k].executable :: ViewOf(ms[k])
  }

  /** A ticker that brings an executable quote without being allowed to refresh one. */
  predicate Conjures(ms: Markets, mutation: Mutation) {
    mutation.Put? && !mutation.refreshes && mutation.quote.executable && !WasExecutable(ms, mutation.key)
  }

  /** A step that publishes nothing keeps the executable view exactly when it conjures no book. */
  lemma SilentKeepsView(ms: Markets, mutation: Mutation)
    requires AllFieldsOk(ms)
    requires Mutate(ms, mutation).1.None?
    ensures ExecutableView(Mutate(ms, mutation).0) == ExecutableView(ms) <==> !Conjures(ms, mutation)
  {
    var before, after := ExecutableView(ms), ExecutableView(Mutate(ms, mutation).0);
    if Conjures(ms, mutation) {
      assert mutation.key in after && mutation.key !in before;
    } else {
      assert after.Keys == before.Keys;
      assert after == before;
    }
  }

  /** A step that publishes an event is about an executable quote that was, or now is, in the view. */
  lemma EventMeansBook(ms: Markets, mutation: Mutation)
    requires Mutate(ms, mutation).1.Some?
    ensures var (after, event) := Mutate(ms, mutation);
            match event.value.kind
            case Upsert => mutation.Put? && mutation.refreshes
              && (WasExecutable(ms, mutation.key) || WasExecutable(after, mutation.key))
            case Invalidated => mutation.Void? && WasExecutable(ms, mutation.key) && !WasExecutable(after, mutation.key)
            case Removed => mutation.Delete? && WasExecutable(ms, mutation.key) && mutation.key !in after
            case Cleared => mutation.Clear? && ExecutableView(ms) != map[] && after == map[]
  {
    if mutation.Clear? {
      var k :| k in ms && ms[k].executable;
      assert k in ExecutableView(ms);
    }
  }
}
