/**
  The market cache itself: what arrives (native quotes and tickers), how it is normalised and
  keyed, and the object that keeps the authoritative map and its four indexes in step.
 */
module MarketCache {
  import opened Wrappers
  import opened Names
  import opened CacheCore
  import opened CacheIndex

  /** A numeric field as it arrives: null or undefined, not finite, or a number. */
  datatype Num = Missing | NonFinite | Val(r: real)

  datatype RawQuote = RawQuote(
    exchange: string, market: string, lastPrice: Num,
    bidPrice: Num, bidQty: Num, askPrice: Num, askQty: Num, timestamp: int, source: Source)

  datatype Ticker = Ticker(
    exchange: string, market: string, lastPrice: Num, bid: Num, ask: Num,
    bestBidPrice: Num, bestBidQty: Num, bestAskPrice: Num, bestAskQty: Num, timestamp: int)

  datatype Input = Native(quote: RawQuote) | Tick(ticker: Ticker)

  datatype Operation =
    | Update(input: Input, now: int)
    | Invalidate(exchange: string, market: string, now: int)
    | Remove(exchange: string, market: string, now: int)
    | ClearAll(now: int)

  function Positive(n: Num): Option<real> {
    if n.Val? && n.r > 0.0 then Some(n.r) else None
  }

  function NonNegative(n: Num): Option<real> {
    if n.Val? && n.r >= 0.0 then Some(n.r) else None
  }

  function Coalesce(a: Num, b: Num): Num { if a.Missing? then b else a }

  /** The ticker mapper: the best prices fall back to the plain bid and ask. */
  function TickerToQuote(t: Ticker): RawQuote {
    var bid := Coalesce(t.bestBidPrice, t.bid);
    var ask := Coalesce(t.bestAskPrice, t.ask);
    RawQuote(t.exchange, t.market, t.lastPrice, bid, t.bestBidQty, ask, t.bestAskQty, t.timestamp,
             if !bid.Missing? && !ask.Missing? then BookTicker else TickerFeed)
  }

  function RawOf(input: Input): RawQuote {
    match input
    case Native(q) => q
    case Tick(t) => TickerToQuote(t)
  }

  function Normalize(q: RawQuote, now: int): Option<Quote> {
    var exchange := NormExchange(q.exchange);
    var market := NormMarket(q.market);
    if exchange == "" || market == "" then None
    else
      var bid, ask := Positive(q.bidPrice), Positive(q.askPrice);
      var bidQty, askQty := NonNegative(q.bidQty), NonNegative(q.askQty);
      Some(Quote(exchange, market, Positive(q.lastPrice), bid, bidQty, ask, askQty,
                 SpreadOf(bid, ask), if q.timestamp > 0 then q.timestamp else now, q.source,
                 TopOfBook(bid, bidQty, ask, askQty)))
  }

  predicate TickerCarriesBook(t: Ticker) {
    TopOfBook(Positive(t.bestBidPrice), NonNegative(t.bestBidQty),
              Positive(t.bestAskPrice), NonNegative(t.bestAskQty))
  }

  /** Whether this input may refresh executable prices, quantities and time. */
  predicate Refreshes(input: Input) {
    input.Native? || TickerCarriesBook(input.ticker)
  }

  function CreateKey(exchange: string, market: string): string {
    Key(NormExchange(exchange), NormMarket(market))
  }

  function Resolve(op: Operation): Mutation {
    match op
    case Update(input, now) =>
      (match Normalize(RawOf(input), now)
       case None => Skip
       case Some(q) => Put(CreateKey(q.exchange, q.market), q, Refreshes(input)))
    case Invalidate(e, m, now) => Void(CreateKey(e, m), now)
    case Remove(e, m, now) => Delete(CreateKey(e, m), now)
    case ClearAll(now) => Clear(now)
  }

  function Apply(ms: Markets, op: Operation): (Markets, Option<Event>) { Mutate(ms, Resolve(op)) }

  function ApplyAll(ms: Markets, ops: seq<Operation>): Markets
    decreases |ops|
  {
    if ops == [] then ms else ApplyAll(Apply(ms, ops[0]).0, ops[1..])
  }

  // ---- names and keys ----

  ghost predicate Named(k: string, q: Quote) {
    k == Key(q.exchange, q.market) && q.market != ""
  }

  ghost predicate AllNamed(ms: Markets) {
    forall k :: k in ms ==> Named(k, ms[k])
  }

  lemma ResolvedPut(op: Operation)
    ensures Sound(Resolve(op))
    ensures Resolve(op).Put? ==> Named(Resolve(op).key, Resolve(op).quote)
    ensures Resolve(op).Put? ==> op.Update? && Resolve(op).quote.exchange == NormExchange(RawOf(op.input).exchange)
  {
    if op.Update? {
      NormExchangeFixed(RawOf(op.input).exchange);
      NormMarketFixed(RawOf(op.input).market);
    }
  }

  lemma SameExchangeKey(e: string, m1: string, m2: string)
    requires Key(e, m1) == Key(e, m2)
    ensures m1 == m2
  {
    assert m1 == Key(e, m1)[|e| + 1..];
    assert m2 == Key(e, m2)[|e| + 1..];
  }

  /** What a cache can come to hold: derived fields and names right. */
  ghost predicate WellFormed(ms: Markets) { AllFieldsOk(ms) && AllNamed(ms) }

  lemma KeepsWellFormed(ms: Markets, mutation: Mutation)
    requires WellFormed(ms)
    requires Sound(mutation) && (mutation.Put? ==> Named(mutation.key, mutation.quote))
    ensures WellFormed(Mutate(ms, mutation).0)
  {
  }

  /** After any sequence of operations every stored quote's flag, spread, names and key are right. */
  lemma {:induction false} ReachableWellFormed(ms: Markets, ops: seq<Operation>)
    requires WellFormed(ms)
    ensures WellFormed(ApplyAll(ms, ops))
    decreases |ops|
  {
    if ops != [] {
      ResolvedPut(ops[0]);
      KeepsWellFormed(ms, Resolve(ops[0]));
      ReachableWellFormed(Apply(ms, ops[0]).0, ops[1..]);
    }
  }

  // ---- silent operations ----

  /**
    A ticker without a complete best bid and ask of its own whose plain bid and ask, with the
    best quantities it carries, make a book all the same.
   */
  predicate HiddenBook(t: Ticker) {
    && !TickerCarriesBook(t)
    && TopOfBook(Positive(Coalesce(t.bestBidPrice, t.bid)), NonNegative(t.bestBidQty),
                 Positive(Coalesce(t.bestAskPrice, t.ask)), NonNegative(t.bestAskQty))
  }

  predicate HiddenBookArrives(ms: Markets, op: Operation) {
    && op.Update? && op.input.Tick? && HiddenBook(op.input.ticker)
    && Resolve(op).Put? && !WasExecutable(ms, Resolve(op).key)
  }

  /**
    An operation that tells the listeners nothing leaves every executable key, price, quantity and
    time as it was, unless it is a ticker with a hidden book for a market that had none.
   */
  lemma SilentOperationKeepsView(ms: Markets, op: Operation)
    requires WellFormed(ms)
    requires Apply(ms, op).1.None?
    ensures ExecutableView(Apply(ms, op).0) == ExecutableView(ms) <==> !HiddenBookArrives(ms, op)
  {
    SilentKeepsView(ms, Resolve(op));
    assert Conjures(ms, Resolve(op)) <==> HiddenBookArrives(ms, op);
  }

  /** Such a ticker puts an executable quote into an empty cache, silently. */
  lemma HiddenBookExample()
    ensures var t := Ticker("x", "M", Missing, Val(1.0), Val(2.0), Missing, Val(1.0), Missing, Val(1.0), 5);
            var (ms, event) := Apply(map[], Update(Tick(t), 9));
            HiddenBook(t) && event.None?
              && ExecutableView(ms) == map[Key("x", "M") := BookView(Some(1.0), Some(1.0), Some(2.0), Some(1.0), 5)]
  {
    assert NormExchange("x") == "x";
    assert NormMarket("M") == "M";
  }

  // ---- what an update stores, field by field ----

  /** The quote an update names, or none where a name is empty. */
  predicate IsNamed(raw: RawQuote, exchange: string, market: string) {
    NormExchange(raw.exchange) == exchange != "" && NormMarket(raw.market) == market != ""
  }

  /** A price is stored as it came if it is a positive number; a quantity also if it is zero. */
  predicate CleanPrice(n: Num, stored: Option<real>) {
    stored == if n.Val? && n.r > 0.0 then Some(n.r) else None
  }

  predicate CleanQuantity(n: Num, stored: Option<real>) {
    stored == if n.Val? && n.r >= 0.0 then Some(n.r) else None
  }

  /** What is kept of a field: the new value where there is a proper one, otherwise the one stored before. */
  predicate Refreshed(before: Option<real>, n: Num, least: bool, after: Option<real>) {
    after == if n.Val? && (n.r > 0.0 || (least && n.r == 0.0)) then Some(n.r) else before
  }

  /** The prices and quantities as they arrive: a ticker's best prices fall back to its plain ones. */
  predicate Brings(input: Input, bid: Num, bidQty: Num, ask: Num, askQty: Num, lastPrice: Num, time: int,
                   source: Source) {
    match input
    case Native(q) =>
      && q.bidPrice == bid && q.bidQty == bidQty && q.askPrice == ask && q.askQty == askQty
      && q.lastPrice == lastPrice && q.timestamp == time && q.source == source
    case Tick(t) =>
      && bid == (if t.bestBidPrice.Missing? then t.bid else t.bestBidPrice) && t.bestBidQty == bidQty
      && ask == (if t.bestAskPrice.Missing? then t.ask else t.bestAskPrice) && t.bestAskQty == askQty
      && t.lastPrice == lastPrice && t.timestamp == time
      && source == (if bid.Missing? || ask.Missing? then TickerFeed else BookTicker)
  }

  function Stamp(time: int, now: int): int { if time > 0 then time else now }

  /** The quote an update brings, clean, under the key of its names. */
  lemma IncomingIs(input: Input, now: int, exchange: string, market: string,
                   bid: Num, bidQty: Num, ask: Num, askQty: Num, lastPrice: Num, time: int, source: Source)
                     returns (q: Quote)
    requires IsNamed(RawOf(input), exchange, market)
    requires Brings(input, bid, bidQty, ask, askQty, lastPrice, time, source)
    ensures Resolve(Update(input, now)) == Put(Key(exchange, market), q, Refreshes(input))
    ensures q.exchange == exchange && q.market == market && q.source == source && q.timestamp == Stamp(time, now)
    ensures CleanPrice(bid, q.bidPrice) && CleanPrice(ask, q.askPrice) && CleanPrice(lastPrice, q.lastPrice)
    ensures CleanQuantity(bidQty, q.bidQty) && CleanQuantity(askQty, q.askQty)
  {
    NormExchangeFixed(RawOf(input).exchange);
    NormMarketFixed(RawOf(input).market);
    q := Normalize(RawOf(input), now).value;
  }

  /** A quote the cache has not seen is stored with its own clean fields. */
  lemma FirstQuoteIs(ms: Markets, input: Input, now: int, exchange: string, market: string,
                     bid: Num, bidQty: Num, ask: Num, askQty: Num, lastPrice: Num, time: int, source: Source)
    requires IsNamed(RawOf(input), exchange, market) && Key(exchange, market) !in ms
    requires Brings(input, bid, bidQty, ask, askQty, lastPrice, time, source)
    ensures Key(exchange, market) in Apply(ms, Update(input, now)).0
    ensures var after := Apply(ms, Update(input, now)).0;
            var q := after[Key(exchange, market)];
            && after == ms[Key(exchange, market) := q]
            && q.exchange == exchange && q.market == market && q.source == source && q.timestamp == Stamp(time, now)
            && CleanPrice(bid, q.bidPrice) && CleanPrice(ask, q.askPrice) && CleanPrice(lastPrice, q.lastPrice)
            && CleanQuantity(bidQty, q.bidQty) && CleanQuantity(askQty, q.askQty)
  {
    var q := IncomingIs(input, now, exchange, market, bid, bidQty, ask, askQty, lastPrice, time, source);
  }

  /** A native quote refreshes, and a ticker exactly with a complete book of its own best prices and quantities. */
  lemma RefreshesExactly(input: Input)
    ensures Refreshes(input) <==>
            match input
            case Native(_) => true
            case Tick(t) =>
              && t.bestBidPrice.Val? && t.bestAskPrice.Val? && t.bestAskPrice.r >= t.bestBidPrice.r > 0.0
              && t.bestBidQty.Val? && t.bestBidQty.r > 0.0 && t.bestAskQty.Val? && t.bestAskQty.r > 0.0
  {
  }

  /**
    A refreshing update of a known quote: each field is the new one where there is one, otherwise the one
    stored before; time and source are the new ones, in the quote and in the event.
   */
  lemma RefreshStores(ms: Markets, input: Input, now: int, exchange: string, market: string,
                      bid: Num, bidQty: Num, ask: Num, askQty: Num, lastPrice: Num, time: int, source: Source)
    requires IsNamed(RawOf(input), exchange, market) && Key(exchange, market) in ms && Refreshes(input)
    requires Brings(input, bid, bidQty, ask, askQty, lastPrice, time, source)
    ensures var (after, event) := Apply(ms, Update(input, now));
            var p, q := ms[Key(exchange, market)], after[Key(exchange, market)];
            && after == ms[Key(exchange, market) := q]
            && q.exchange == exchange && q.market == market && q.source == source && q.timestamp == Stamp(time, now)
            && Refreshed(p.bidPrice, bid, false, q.bidPrice) && Refreshed(p.askPrice, ask, false, q.askPrice)
            && Refreshed(p.bidQty, bidQty, true, q.bidQty) && Refreshed(p.askQty, askQty, true, q.askQty)
            && Refreshed(p.lastPrice, lastPrice, false, q.lastPrice)
            && (event.Some? <==> p.executable || q.executable)
            && (event.Some? ==> event.value == Event(Upsert, exchange, market, Stamp(time, now)))
  {
    var q := IncomingIs(input, now, exchange, market, bid, bidQty, ask, askQty, lastPrice, time, source);
  }

  /** A ticker that does not refresh leaves an executable book, its time and its source alone, and tells nobody. */
  lemma TickerKeepsBook(ms: Markets, t: Ticker, now: int, exchange: string, market: string)
    requires IsNamed(TickerToQuote(t), exchange, market) && !TickerCarriesBook(t)
    requires WasExecutable(ms, Key(exchange, market))
    ensures var (after, event) := Apply(ms, Update(Tick(t), now));
            var p, q := ms[Key(exchange, market)], after[Key(exchange, market)];
            && event.None? && after == ms[Key(exchange, market) := q]
            && Refreshed(p.lastPrice, t.lastPrice, false, q.lastPrice)
            && q == p.(lastPrice := q.lastPrice)
  {
    NormExchangeFixed(t.exchange);
    NormMarketFixed(t.market);
  }

  /** Where there is no book yet, a ticker that does not refresh is stored, the last price kept if it has none. */
  lemma TickerIsStored(ms: Markets, t: Ticker, now: int, exchange: string, market: string,
                       bid: Num, bidQty: Num, ask: Num, askQty: Num, lastPrice: Num, time: int, source: Source)
    requires IsNamed(TickerToQuote(t), exchange, market) && !TickerCarriesBook(t)
    requires Key(exchange, market) in ms && !ms[Key(exchange, market)].executable
    requires Brings(Tick(t), bid, bidQty, ask, askQty, lastPrice, time, source)
    ensures var (after, event) := Apply(ms, Update(Tick(t), now));
            var p, q := ms[Key(exchange, market)], after[Key(exchange, market)];
            && event.None? && after == ms[Key(exchange, market) := q]
            && q.exchange == exchange && q.market == market && q.source == source && q.timestamp == Stamp(time, now)
            && CleanPrice(bid, q.bidPrice) && CleanPrice(ask, q.askPrice)
            && CleanQuantity(bidQty, q.bidQty) && CleanQuantity(askQty, q.askQty)
            && Refreshed(p.lastPrice, lastPrice, false, q.lastPrice)
  {
    var q := IncomingIs(Tick(t), now, exchange, market, bid, bidQty, ask, askQty, lastPrice, time, source);
  }

  /** An input without an exchange or a market changes nothing. */
  lemma NamelessIsIgnored(ms: Markets, input: Input, now: int)
    requires NormExchange(RawOf(input).exchange) == "" || NormMarket(RawOf(input).market) == ""
    ensures Apply(ms, Update(input, now)) == (ms, None)
  {
  }

  /** Invalidating and removing concern the named quote alone; the one keeps its last price and nothing of its book. */
  lemma DestructiveOperations(ms: Markets, exchange: string, market: string, now: int)
    ensures var k := Key(NormExchange(exchange), NormMarket(market));
            var (voided, told) := Apply(ms, Invalidate(exchange, market, now));
            var (smaller, told') := Apply(ms, Remove(exchange, market, now));
            if k !in ms then voided == ms == smaller && told == None == told'
            else
              && smaller == ms - {k}
              && voided
                 == ms[k := Quote(ms[k].exchange, ms[k].market, ms[k].lastPrice, None, None, None, None, None, now,
                                         ms[k].source, false)]
              && told == (if ms[k].executable then Some(Event(Invalidated, ms[k].exchange, ms[k].market, now))
                          else None)
              && told' == (if ms[k].executable then Some(Event(Removed, ms[k].exchange, ms[k].market, now)) else None)
  {
  }

  // ---- operations that share a key ----

  /** The mutation replaces no other exchange's quote (a ticker never replaces an executable one). */
  predicate ReplacesOwn(ms: Markets, mutation: Mutation) {
    mutation.Put? && mutation.key in ms ==>
      ms[mutation.key].exchange == mutation.quote.exchange || (!mutation.refreshes && ms[mutation.key].executable)
  }

  predicate Compatible(ms: Markets, op: Operation) { ReplacesOwn(ms, Resolve(op)) }

  ghost predicate ColonFreeMarkets(ms: Markets) {
    forall k :: k in ms ==> ColonFree(ms[k].exchange)
  }

  ghost predicate ColonFreeOperation(op: Operation) {
    op.Update? ==> ColonFree(NormExchange(RawOf(op.input).exchange))
  }

  /** Operations on colon-free exchange names are compatible with every state they lead to. */
  lemma {:induction false} ColonFreeRunsCompatible(ms: Markets, ops: seq<Operation>, op: Operation)
    requires WellFormed(ms) && ColonFreeMarkets(ms)
    requires forall i :: 0 <= i < |ops| ==> ColonFreeOperation(ops[i])
    requires ColonFreeOperation(op)
    ensures Compatible(ApplyAll(ms, ops), op)
    decreases |ops|
  {
    if ops == [] {
      ResolvedPut(op);
      var mutation := Resolve(op);
      if mutation.Put? && mutation.key in ms {
        var p := ms[mutation.key];
        KeyInjective(p.exchange, p.market, mutation.quote.exchange, mutation.quote.market);
      }
    } else {
      ResolvedPut(ops[0]);
      KeepsWellFormed(ms, Resolve(ops[0]));
      ColonFreeRunsCompatible(Apply(ms, ops[0]).0, ops[1..], op);
    }
  }

  lemma ColonFreeStep(ms: Markets, op: Operation)
    requires WellFormed(ms) && ColonFreeMarkets(ms) && ColonFreeOperation(op)
    ensures ColonFreeMarkets(Apply(ms, op).0)
  {
    ResolvedPut(op);
  }

  function Blank(exchange: string, market: string): Operation {
    Update(Native(RawQuote(exchange, market, Missing, Missing, Missing, Missing, Missing, 1, Rest)), 1)
  }

  /** Two venues, one key: the second update is not compatible with the first. */
  lemma CollidingUpdates()
    ensures !Compatible(Apply(map[], Blank("a:1", "C")).0, Blank("a", "1:C"))
  {
    KeyCollision();
    assert Resolve(Blank("a:1", "C")).key == Key("a:1", "C");
    assert Resolve(Blank("a", "1:C")).key == Key("a", "1:C");
  }

  // ---- the object ----

  function Told(event: Option<Event>): seq<Event> {
    if event.Some? then [event.value] else []
  }

  class Cache {
    var markets: Markets
    var marketsByExchange: Index
    var executableMarkets: Markets
    var executableMarketsByExchange: Index
    var executableMarketsByMarket: Index
    /** What the listeners were told, in order. */
    var published: seq<Event>

    /** Every index is the projection of the map `ms`. */
    ghost predicate Projections(ms: Markets)
      reads `marketsByExchange, `executableMarkets, `executableMarketsByExchange, `executableMarketsByMarket
    {
      Projected(ms, Key, marketsByExchange, executableMarkets, executableMarketsByExchange, executableMarketsByMarket)
    }

    ghost predicate Valid()
      reads `markets, `marketsByExchange, `executableMarkets, `executableMarketsByExchange, `executableMarketsByMarket
    {
      WellFormed(markets) && Projections(markets)
    }

    constructor ()
      ensures Valid() && markets == map[] && published == []
    {
      EmptyProjected(Key);
      markets, marketsByExchange, executableMarkets := map[], map[], map[];
      executableMarketsByExchange, executableMarketsByMarket := map[], map[];
      published := [];
    }

    method IndexQuote(key: string, quote: Quote, ghost before: Markets)
      requires AllNamed(before) && Named(key, quote)
      requires WellFormed(markets) && markets == before[key := quote]
      requires Projections(before)
      modifies `marketsByExchange, `executableMarkets, `executableMarketsByExchange, `executableMarketsByMarket
      ensures Valid() <==> (key in before ==> before[key].exchange == quote.exchange)
    {
      if key in before && before[key].exchange == quote.exchange {
        SameExchangeKey(quote.exchange, before[key].market, quote.market);
      }
      PutProjected(before, Key, marketsByExchange, executableMarkets, executableMarketsByExchange,
                   executableMarketsByMarket, key, quote);
      marketsByExchange := PutIn(marketsByExchange, quote.exchange, key, quote);
      if quote.executable {
        executableMarkets := executableMarkets[key := quote];
        executableMarketsByExchange := PutIn(executableMarketsByExchange, quote.exchange, key, quote);
        executableMarketsByMarket := PutIn(executableMarketsByMarket, quote.market, quote.exchange, quote);
        return;
      }
      executableMarkets := executableMarkets - {key};
      executableMarketsByExchange := DropFrom(executableMarketsByExchange, quote.exchange, key);
      executableMarketsByMarket := DropFrom(executableMarketsByMarket, quote.market, quote.exchange);
    }

    method RemoveIndexedQuote(key: string, exchange: string, market: string, ghost before: Markets)
      requires AllNamed(before) && key in before && before[key].exchange == exchange && before[key].market == market
      requires WellFormed(markets) && markets == before - {key}
      requires Projections(before)
      modifies `marketsByExchange, `executableMarkets, `executableMarketsByExchange, `executableMarketsByMarket
      ensures Valid()
    {
      DropProjected(before, Key, marketsByExchange, executableMarkets, executableMarketsByExchange,
                    executableMarketsByMarket, key);
      marketsByExchange := DropFrom(marketsByExchange, exchange, key);
      executableMarkets := executableMarkets - {key};
      executableMarketsByExchange := DropFrom(executableMarketsByExchange, exchange, key);
      executableMarketsByMarket := DropFrom(executableMarketsByMarket, market, exchange);
    }

    method Publish(event: Option<Event>)
      modifies `published
      ensures published == old(published) + Told(event)
    {
      if event.Some? {
        published := published + [event.value];
      }
    }

    /** Merges a normalised quote under its key, indexes the result and tells the listeners. */
    method MergeQuote(key: string, quote: Quote, refreshes: bool)
      requires Valid() && Named(key, quote) && FieldsOk(quote)
      modifies this
      ensures markets == Mutate(old(markets), Put(key, quote, refreshes)).0
      ensures published == old(published) + Told(Mutate(old(markets), Put(key, quote, refreshes)).1)
      ensures Valid() <==> ReplacesOwn(old(markets), Put(key, quote, refreshes))
    {
      ghost var before := markets;
      KeepsWellFormed(before, Put(key, quote, refreshes));
      var previous := Lookup(markets, key);
      var merged := Merge(previous, quote, refreshes);
      markets := markets[key := merged];
      assert Named(key, markets[key]);
      IndexQuote(key, merged, before);
      var publishes := refreshes && (merged.executable || (previous.Some? && previous.value.executable));
      Publish(if publishes then Some(Event(Upsert, merged.exchange, merged.market, merged.timestamp)) else None);
    }

    method VoidQuote(key: string, now: int) returns (found: bool)
      requires Valid()
      modifies this
      ensures Valid() && found == (key in old(markets))
      ensures markets == Mutate(old(markets), Void(key, now)).0
      ensures published == old(published) + Told(Mutate(old(markets), Void(key, now)).1)
    {
      ghost var before := markets;
      KeepsWellFormed(before, Void(key, now));
      found := key in markets;
      if found {
        var previous := markets[key];
        assert Named(key, previous);
        var invalidated := Invalidation(previous, now);
        markets := markets[key := invalidated];
        IndexQuote(key, invalidated, before);
        Publish(if previous.executable
                then Some(Event(Invalidated, invalidated.exchange, invalidated.market, invalidated.timestamp))
                else None);
      }
    }

    method DeleteQuote(key: string, now: int) returns (removed: bool)
      requires Valid()
      modifies this
      ensures Valid() && removed == (key in old(markets))
      ensures markets == Mutate(old(markets), Delete(key, now)).0
      ensures published == old(published) + Told(Mutate(old(markets), Delete(key, now)).1)
    {
      ghost var before := markets;
      KeepsWellFormed(before, Delete(key, now));
      removed := key in markets;
      if removed {
        var previous := markets[key];
        markets := markets - {key};
        RemoveIndexedQuote(key, previous.exchange, previous.market, before);
        Publish(if previous.executable then Some(Event(Removed, previous.exchange, previous.market, now)) else None);
      }
    }

    method ClearQuotes(now: int)
      requires Valid()
      modifies this
      ensures Valid()
      ensures markets == Mutate(old(markets), Clear(now)).0
      ensures published == old(published) + Told(Mutate(old(markets), Clear(now)).1)
    {
      EmptyProjected(Key);
      var hadExecutable := AnyExecutable(markets);
      markets, marketsByExchange, executableMarkets := map[], map[], map[];
      executableMarketsByExchange, executableMarketsByMarket := map[], map[];
      Publish(if hadExecutable then Some(Event(Cleared, "*", "*", now)) else None);
    }

    // The public operations: normalise the names, then perform the mutation.

    /** The indexes stay projections exactly when no other exchange's quote is overwritten. */
    method Update(input: Input, now: int)
      requires Valid()
      modifies this
      ensures markets == Apply(old(markets), Operation.Update(input, now)).0
      ensures published == old(published) + Told(Apply(old(markets), Operation.Update(input, now)).1)
      ensures Valid() <==> Compatible(old(markets), Operation.Update(input, now))
    {
      ResolvedPut(Operation.Update(input, now));
      var incoming := Normalize(RawOf(input), now);
      if incoming.Some? {
        MergeQuote(CreateKey(incoming.value.exchange, incoming.value.market), incoming.value, Refreshes(input));
      }
    }

    method InvalidateExecutable(exchange: string, market: string, now: int) returns (found: bool)
      requires Valid()
      modifies this
      ensures Valid() && found == (CreateKey(exchange, market) in old(markets))
      ensures markets == Apply(old(markets), Invalidate(exchange, market, now)).0
      ensures published == old(published) + Told(Apply(old(markets), Invalidate(exchange, market, now)).1)
    {
      found := VoidQuote(CreateKey(exchange, market), now);
    }

    method RemoveQuote(exchange: string, market: string, now: int) returns (removed: bool)
      requires Valid()
      modifies this
      ensures Valid() && removed == (CreateKey(exchange, market) in old(markets))
      ensures markets == Apply(old(markets), Remove(exchange, market, now)).0
      ensures published == old(published) + Told(Apply(old(markets), Remove(exchange, market, now)).1)
    {
      removed := DeleteQuote(CreateKey(exchange, market), now);
    }

    /** One operation, whichever it is. */
    method Perform(op: Operation)
      requires Valid()
      modifies this
      ensures markets == Apply(old(markets), op).0
      ensures var event := Apply(old(markets), op).1;
              published == if event.Some? then old(published) + [event.value] else old(published)
      ensures Valid() <==> Compatible(old(markets), op)
    {
      match op
      case Update(input, now) => Update(input, now);
      case Invalidate(exchange, market, now) => var found := InvalidateExecutable(exchange, market, now);
      case Remove(exchange, market, now) => var removed := RemoveQuote(exchange, market, now);
      case ClearAll(now) => ClearQuotes(now);
    }

    /** After any sequence of operations on colon-free exchange names every index is the projection of the map. */
    method PerformAll(ops: seq<Operation>)
      requires Valid() && ColonFreeMarkets(markets)
      requires forall i :: 0 <= i < |ops| ==> ColonFreeOperation(ops[i])
      modifies this
      ensures Valid() && ColonFreeMarkets(markets) && markets == ApplyAll(old(markets), ops)
    {
      assert ops[0..] == ops;
      for i := 0 to |ops|
        invariant Valid() && ColonFreeMarkets(markets) && ApplyAll(markets, ops[i..]) == ApplyAll(old(markets), ops)
      {
        ColonFreeRunsCompatible(markets, [], ops[i]);
        ColonFreeStep(markets, ops[i]);
        assert ops[i..][0] == ops[i] && ops[i..][1..] == ops[i + 1..];
        Perform(ops[i]);
      }
    }

    /** The admission index counts exactly the venues whose book for the market is executable. */
    method ExecutableExchangeCount(market: string) returns (count: nat)
      requires Valid()
      ensures count == |Venues(markets, NormMarket(market))|
    {
      var m := NormMarket(market);
      VenuesAreBucket(markets, executableMarketsByMarket, Key, m);
      if m == "" {
        assert Venues(markets, m) == {};
        return 0;
      }
      count := if m in executableMarketsByMarket then |executableMarketsByMarket[m]| else 0;
    }
  }
}
