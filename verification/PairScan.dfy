/**
  Quotes into market snapshots and snapshots into venue pairs, each in a careful form and in the
  allocation-light form the scanner uses.
 */
module PairScan {
  import opened Wrappers
  import opened Names
  import opened InsertionMap
  import opened CacheCore

  datatype Snapshot = Snapshot(market: string, quotes: Entries<Quote>, timestamp: int)

  // ---- grouping ----

  function WithQuote(s: Snapshot, q: Quote): Snapshot {
    var current := Find(s.quotes, q.exchange);
    Snapshot(s.market,
             if current.None? || q.timestamp >= current.value.timestamp then Insert(s.quotes, q.exchange, q)
                else s.quotes,
             Max(s.timestamp, q.timestamp))
  }

  function Add(snapshots: Entries<Snapshot>, q: Quote): Entries<Snapshot> {
    var existing := Find(snapshots, q.market);
    Insert(snapshots, q.market,
        if existing.Some? then WithQuote(existing.value, q) else Snapshot(q.market, [(q.exchange, q)], q.timestamp))
  }

  function Group(quotes: seq<Quote>): Entries<Snapshot> {
    if quotes == [] then [] else Add(Group(quotes[..|quotes| - 1]), quotes[|quotes| - 1])
  }

  function Renamed(q: Quote): Quote {
    q.(exchange := NormExchange(q.exchange), market := CanonicalMarket(q.market))
  }

  predicate Usable(q: Quote) { CanonicalMarket(q.market) != "" && NormExchange(q.exchange) != "" }

  predicate NormalNames(market: string, exchange: string) {
    CanonicalMarket(market) == market != "" && NormExchange(exchange) == exchange != ""
  }

  /** The comparison engine's own sense of an already normalised quote. */
  predicate Normalised(q: Quote) { NormalNames(q.market, q.exchange) }

  lemma NormalisedExactly(q: Quote)
    ensures Normalised(q) <==>
            && Strip(NormMarket(q.market), IsSeparator) == q.market && q.market != ""
            && NormExchange(q.exchange) == q.exchange && q.exchange != ""
  {
  }

  /** What the careful form groups: the usable quotes under their normal names. */
  function Cleaned(quotes: seq<Quote>): seq<Quote> {
    if quotes == [] then []
    else
      var q := quotes[|quotes| - 1];
      Cleaned(quotes[..|quotes| - 1]) + if Usable(q) then [Renamed(q)] else []
  }

  lemma {:induction false} GroupPush(quotes: seq<Quote>, q: Quote)
    ensures Group(quotes + [q]) == Add(Group(quotes), q)
  {
    assert (quotes + [q])[..|quotes|] == quotes;
  }

  lemma {:induction false} CleanedPush(quotes: seq<Quote>, q: Quote)
    ensures var r := Renamed(q);
            Cleaned(quotes + [q]) == if r.market == "" || r.exchange == "" then Cleaned(quotes)
              else Cleaned(quotes) + [r]
  {
    assert (quotes + [q])[..|quotes|] == quotes;
  }

  /** Of one quote: nothing where a name is empty, otherwise the quote under its names' normal forms. */
  lemma CleanedOne(q: Quote)
    ensures var market, exchange := Strip(NormMarket(q.market), IsSeparator), NormExchange(q.exchange);
            Cleaned([q]) == if market == "" || exchange == "" then [] else [q.(exchange := exchange, market := market)]
  {
    assert [q][..0] == [] && Cleaned([]) == [];
  }

  /** A list is cleaned quote by quote, in its order. */
  lemma {:induction false} CleanedInOrder(before: seq<Quote>, after: seq<Quote>)
    ensures Cleaned(before + after) == Cleaned(before) + Cleaned(after)
  {
    if after == [] {
      assert before + after == before;
    } else {
      var n := |after| - 1;
      CleanedInOrder(before, after[..n]);
      assert (before + after)[..|before + after| - 1] == before + after[..n];
    }
  }

  method GroupByMarket(quotes: seq<Quote>) returns (snapshots: seq<Snapshot>)
    ensures snapshots == Values(Group(Cleaned(quotes)))
  {
    var grouped: Entries<Snapshot> := [];
    for i := 0 to |quotes|
      invariant grouped == Group(Cleaned(quotes[..i]))
    {
      var incoming := quotes[i];
      ghost var clean := Cleaned(quotes[..i]);
      assert quotes[..i + 1] == quotes[..i] + [incoming];
      CleanedPush(quotes[..i], incoming);
      var quote := Renamed(incoming);
      var market, exchange := quote.market, quote.exchange;
      if market == "" || exchange == "" {
        continue;
      }
      GroupPush(clean, quote);
      var existing := Find(grouped, market);
      if existing.Some? {
        var snapshot := existing.value;
        var current := Find(snapshot.quotes, exchange);
        if current.None? || quote.timestamp >= current.value.timestamp {
          snapshot := snapshot.(quotes := Insert(snapshot.quotes, exchange, quote));
        }
        snapshot := snapshot.(timestamp := Max(snapshot.timestamp, quote.timestamp));
        grouped := Insert(grouped, market, snapshot);
        continue;
      }
      grouped := Insert(grouped, market, Snapshot(market, [(exchange, quote)], quote.timestamp));
    }
    assert quotes[..|quotes|] == quotes;
    snapshots := Values(grouped);
  }

  method GroupNormalizedExecutableByMarket(quotes: seq<Quote>) returns (snapshots: seq<Snapshot>)
    ensures snapshots == Values(Group(quotes))
  {
    var grouped: Entries<Snapshot> := [];
    for i := 0 to |quotes|
      invariant grouped == Group(quotes[..i])
    {
      var quote := quotes[i];
      assert quotes[..i + 1] == quotes[..i] + [quote];
      GroupPush(quotes[..i], quote);
      var existing := Find(grouped, quote.market);
      if existing.Some? {
        var snapshot := existing.value;
        var current := Find(snapshot.quotes, quote.exchange);
        if current.None? || quote.timestamp >= current.value.timestamp {
          snapshot := snapshot.(quotes := Insert(snapshot.quotes, quote.exchange, quote));
        }
        if quote.timestamp > snapshot.timestamp {
          snapshot := snapshot.(timestamp := quote.timestamp);
        }
        grouped := Insert(grouped, quote.market, snapshot);
        continue;
      }
      grouped := Insert(grouped, quote.market, Snapshot(quote.market, [(quote.exchange, quote)], quote.timestamp));
    }
    assert quotes[..|quotes|] == quotes;
    snapshots := Values(grouped);
  }

  // ---- what a grouping holds ----

  /** Position i of `quotes` is the latest quote of its venue; among equal times the last one wins. */
  predicate IsLatest(quotes: seq<Quote>, i: nat)
    requires i < |quotes|
  {
    forall j ::
      0 <= j < |quotes| && quotes[j].market == quotes[i].market && quotes[j].exchange == quotes[i].exchange ==>
        quotes[j].timestamp < quotes[i].timestamp || (quotes[j].timestamp == quotes[i].timestamp && j <= i)
  }

  function QuoteAt(snapshots: Entries<Snapshot>, market: string, exchange: string): Option<Quote> {
    var s := Find(snapshots, market);
    if s.None? then None else Find(s.value.quotes, exchange)
  }

  /** The quote a snapshot holds for a venue is the venue's latest one. */
  lemma {:induction false} GroupHoldsLatest(quotes: seq<Quote>, i: nat)
    requires i < |quotes| && IsLatest(quotes, i)
    ensures QuoteAt(Group(quotes), quotes[i].market, quotes[i].exchange) == Some(quotes[i])
  {
    HeldQuoteIsLatest(quotes, quotes[i].market, quotes[i].exchange);
    LatestIsLatest(quotes, quotes[i].market, quotes[i].exchange);
    assert quotes[i] in quotes && OfVenue(quotes[i], quotes[i].market, quotes[i].exchange);
  }

  /** Where the latest quote of a venue is. */
  function Latest(quotes: seq<Quote>, market: string, exchange: string): (r: Option<nat>)
    ensures r.Some? ==> r.value < |quotes|
  {
    if quotes == [] then None
    else
      var n := |quotes| - 1;
      var prior := Latest(quotes[..n], market, exchange);
      if quotes[n].market == market && quotes[n].exchange == exchange
         && (prior.None? || quotes[n].timestamp >= quotes[prior.value].timestamp)
      then Some(n) else prior
  }

  predicate OfVenue(q: Quote, market: string, exchange: string) { q.market == market && q.exchange == exchange }

  lemma {:induction false} LatestIsLatest(quotes: seq<Quote>, market: string, exchange: string)
    ensures var r := Latest(quotes, market, exchange);
            if r.None? then forall i :: 0 <= i < |quotes| ==> !OfVenue(quotes[i], market, exchange)
            else OfVenue(quotes[r.value], market, exchange) && IsLatest(quotes, r.value)
  {
    if quotes != [] {
      var n := |quotes| - 1;
      LatestIsLatest(quotes[..n], market, exchange);
      assert forall i :: 0 <= i < n ==> quotes[..n][i] == quotes[i];
    }
  }

  lemma {:induction false} HeldQuoteIsLatest(quotes: seq<Quote>, market: string, exchange: string)
    ensures var r := Latest(quotes, market, exchange);
            QuoteAt(Group(quotes), market, exchange) == if r.None? then None else Some(quotes[r.value])
  {
    if quotes != [] {
      var n := |quotes| - 1;
      HeldQuoteIsLatest(quotes[..n], market, exchange);
      AddQuoteAt(Group(quotes[..n]), quotes[n], market, exchange);
    }
  }

  lemma AddQuoteAt(snapshots: Entries<Snapshot>, q: Quote, market: string, exchange: string)
    ensures var prior := QuoteAt(snapshots, market, exchange);
            QuoteAt(Add(snapshots, q), market, exchange) ==
            if q.market == market && q.exchange == exchange && (prior.None? || q.timestamp >= prior.value.timestamp)
               then Some(q) else prior
  {
    var existing := Find(snapshots, q.market);
    FindInsert(snapshots, q.market,
            if existing.Some? then WithQuote(existing.value, q)
               else Snapshot(q.market, [(q.exchange, q)], q.timestamp), market);
    if existing.Some? {
      FindInsert(existing.value.quotes, q.exchange, q, exchange);
    } else {
      FindInsert([], q.exchange, q, exchange);
    }
  }

  /** A snapshot's time is the largest time of its market's quotes. */
  lemma {:induction false} SnapshotTime(quotes: seq<Quote>, market: string)
    ensures var s := Find(Group(quotes), market);
            && (s.Some? ==>
                  s.value.market == market
                  && exists i ::
                       0 <= i < |quotes| && quotes[i].market == market && quotes[i].timestamp == s.value.timestamp)
            && forall i :: 0 <= i < |quotes| && quotes[i].market == market ==>
               s.Some? && quotes[i].timestamp <= s.value.timestamp
  {
    if quotes != [] {
      var n := |quotes| - 1;
      var before, q := quotes[..n], quotes[n];
      SnapshotTime(before, market);
      var existing := Find(Group(before), q.market);
      FindInsert(Group(before), q.market,
              if existing.Some? then WithQuote(existing.value, q)
                 else Snapshot(q.market, [(q.exchange, q)], q.timestamp), market);
      var s := Find(Group(quotes), market);
      if q.market == market && s.value.timestamp == q.timestamp {
        assert quotes[n].market == market && quotes[n].timestamp == s.value.timestamp;
      } else if s.Some? {
        var i :| 0 <= i < n && before[i].market == market && before[i].timestamp == s.value.timestamp;
        assert quotes[i].market == market && quotes[i].timestamp == s.value.timestamp;
      }
    }
  }

  // ---- the two groupings ----

  lemma {:induction false} StripKeepsOnly(s: string, drop: char -> bool)
    ensures forall c :: c in Strip(s, drop) ==> c in s && !drop(c)
  {
    if s != "" {
      StripKeepsOnly(s[1..], drop);
      assert s == [s[0]] + s[1..];
    }
  }

  lemma {:induction false} StripNothing(s: string, drop: char -> bool)
    requires forall c :: c in s ==> !drop(c)
    ensures Strip(s, drop) == s
  {
    if s != "" {
      assert s == [s[0]] + s[1..];
      StripNothing(s[1..], drop);
    }
  }

  lemma CanonicalMarketFixed(m: string)
    ensures CanonicalMarket(CanonicalMarket(m)) == CanonicalMarket(m)
  {
    var n := CanonicalMarket(m);
    var upper := NormMarket(m);
    StripKeepsOnly(upper, IsSeparator);
    assert forall c :: c in n ==> !IsSeparator(c) && UpperChar(c) == c;
    assert n != "" ==> n[0] in n && n[|n| - 1] in n;
    assert TrimLeft(n) == n && TrimRight(n) == n;
    assert Upper(n) == n;
    StripNothing(n, IsSeparator);
  }

  lemma RenamedIsNormalised(q: Quote)
    requires Usable(q)
    ensures Normalised(Renamed(q))
  {
    CanonicalMarketFixed(q.market);
    NormExchangeFixed(q.exchange);
  }

  lemma {:induction false} CleanedAreNormalised(quotes: seq<Quote>)
    ensures forall q :: q in Cleaned(quotes) ==> Normalised(q)
  {
    if quotes != [] {
      CleanedAreNormalised(quotes[..|quotes| - 1]);
      if Usable(quotes[|quotes| - 1]) {
        RenamedIsNormalised(quotes[|quotes| - 1]);
      }
    }
  }

  lemma {:induction false} CleaningNormalised(quotes: seq<Quote>)
    requires forall q :: q in quotes ==> Normalised(q)
    ensures Cleaned(quotes) == quotes
  {
    if quotes != [] {
      CleaningNormalised(quotes[..|quotes| - 1]);
      var q := quotes[|quotes| - 1];
      assert q in quotes && Renamed(q) == q;
      assert quotes == quotes[..|quotes| - 1] + [q];
    }
  }

  lemma {:induction false} CleanedHoldsNormalNames(quotes: seq<Quote>, market: string, exchange: string)
    ensures QuoteAt(Group(Cleaned(quotes)), market, exchange).Some? ==> NormalNames(market, exchange)
  {
    HeldQuoteIsLatest(Cleaned(quotes), market, exchange);
    LatestIsLatest(Cleaned(quotes), market, exchange);
    CleanedAreNormalised(quotes);
    var held := QuoteAt(Group(Cleaned(quotes)), market, exchange);
    assert held.Some? ==> held.value in Cleaned(quotes);
  }

  ghost predicate AllNormalised(quotes: seq<Quote>) {
    forall q :: q in quotes ==> Normalised(q)
  }

  ghost predicate KeyedByMarket(m: Entries<Snapshot>) {
    forall i :: 0 <= i < |m| ==> m[i].0 == m[i].1.market
  }

  lemma {:induction false} InsertKeepsKeyed(m: Entries<Snapshot>, k: string, s: Snapshot)
    requires KeyedByMarket(m) && s.market == k
    ensures KeyedByMarket(Insert(m, k, s))
  {
    if m != [] && m[0].0 != k {
      InsertKeepsKeyed(m[1..], k, s);
    }
  }

  lemma {:induction false} GroupIsKeyed(quotes: seq<Quote>)
    ensures KeyedByMarket(Group(quotes))
  {
    if quotes != [] {
      var n := |quotes| - 1;
      var before, q := Group(quotes[..n]), quotes[n];
      GroupIsKeyed(quotes[..n]);
      FindIsIn(before, q.market);
      var existing := Find(before, q.market);
      InsertKeepsKeyed(before, q.market,
        if existing.Some? then WithQuote(existing.value, q) else Snapshot(q.market, [(q.exchange, q)], q.timestamp));
    }
  }

  lemma ValuesDecide(a: Entries<Snapshot>, b: Entries<Snapshot>)
    requires KeyedByMarket(a) && KeyedByMarket(b) && Values(a) == Values(b)
    ensures a == b
  {
    assert |a| == |Values(a)| == |b|;
    forall i | 0 <= i < |a| ensures a[i] == b[i] {
      assert Values(a)[i] == Values(b)[i];
    }
  }

  /** The light grouping returns the careful one's snapshots exactly on lists whose quotes are all normalised. */
  lemma {:induction false} GroupingsAgreeExactly(quotes: seq<Quote>)
    ensures Values(Group(quotes)) == Values(Group(Cleaned(quotes))) <==> AllNormalised(quotes)
  {
    GroupIsKeyed(quotes);
    GroupIsKeyed(Cleaned(quotes));
    GroupsAgreeExactly(quotes);
    if Values(Group(quotes)) == Values(Group(Cleaned(quotes))) {
      ValuesDecide(Group(quotes), Group(Cleaned(quotes)));
    }
  }

  lemma {:induction false} GroupsAgreeExactly(quotes: seq<Quote>)
    ensures Group(quotes) == Group(Cleaned(quotes)) <==> AllNormalised(quotes)
  {
    if AllNormalised(quotes) {
      CleaningNormalised(quotes);
    } else {
      var i :| 0 <= i < |quotes| && !Normalised(quotes[i]);
      var q := quotes[i];
      HeldQuoteIsLatest(quotes, q.market, q.exchange);
      LatestIsLatest(quotes, q.market, q.exchange);
      assert OfVenue(q, q.market, q.exchange);
      CleanedHoldsNormalNames(quotes, q.market, q.exchange);
    }
  }

  /** Any market name with a separator in it is grouped differently by the two forms. */
  lemma SeparatorsDisagree(q: Quote, i: nat)
    requires i < |q.market| && IsSeparator(q.market[i])
    ensures Values(Group([q])) != Values(Group(Cleaned([q])))
  {
    GroupingsAgreeExactly([q]);
    assert q in [q];
    StripKeepsOnly(NormMarket(q.market), IsSeparator);
    assert q.market[i] in q.market;
  }

  /** Such names are in the market cache's own normal form. */
  lemma CacheFormKeepsSeparators()
    ensures NormMarket("BTC-USDT") == "BTC-USDT" && IsSeparator("BTC-USDT"[3])
  {
    assert Trim("BTC-USDT") == "BTC-USDT";
  }

  // ---- venue pairs ----

  datatype Pair = Pair(market: string, buy: Quote, sell: Quote)

  predicate Buyable(q: Quote) {
    q.executable && q.askPrice.Some? && q.askPrice.value > 0.0 && q.askQty.Some? && q.askQty.value > 0.0
  }

  predicate Sellable(q: Quote) {
    q.executable && q.bidPrice.Some? && q.bidPrice.value > 0.0 && q.bidQty.Some? && q.bidQty.value > 0.0
  }

  predicate Tradable(p: Pair) {
    Buyable(p.buy) && Sellable(p.sell) && p.buy.exchange != p.sell.exchange
  }

  predicate Gains(p: Pair) {
    p.buy.askPrice.Some? && p.sell.bidPrice.Some? && p.sell.bidPrice.value > p.buy.askPrice.value
  }

  /** A pair one can trade: an executable ask with a quantity here, an executable bid with a quantity there. */
  lemma TradableExactly(p: Pair)
    ensures Tradable(p) <==>
            && p.buy.exchange != p.sell.exchange && p.buy.executable && p.sell.executable
            && p.buy.askPrice.Some? && p.buy.askPrice.value > 0.0 && p.buy.askQty.Some? && p.buy.askQty.value > 0.0
            && p.sell.bidPrice.Some? && p.sell.bidPrice.value > 0.0 && p.sell.bidQty.Some? && p.sell.bidQty.value > 0.0
    ensures Tradable(p) ==> (Gains(p) <==> p.sell.bidPrice.value > p.buy.askPrice.value)
  {
  }

  function KeepTradable(s: seq<Pair>): seq<Pair> {
    if s == [] then []
    else
      var kept, p := KeepTradable(s[..|s| - 1]), s[|s| - 1];
      if Tradable(p) then kept + [p] else kept
  }

  function KeepGaining(s: seq<Pair>): seq<Pair> {
    if s == [] then []
    else
      var kept, p := KeepGaining(s[..|s| - 1]), s[|s| - 1];
      if Gains(p) then kept + [p] else kept
  }

  /** The tradable pairs that buy at quote b and sell at one of the first n, after those in `done`. */
  function TradableRow(market: string, quotes: seq<Quote>, done: seq<Pair>, b: nat, n: nat): seq<Pair>
    requires b < |quotes| && n <= |quotes|
  {
    if n == 0 then done
    else
      var p := Pair(market, quotes[b], quotes[n - 1]);
      var before := TradableRow(market, quotes, done, b, n - 1);
      if Tradable(p) then before + [p] else before
  }

  function TradableRows(market: string, quotes: seq<Quote>, rows: nat): seq<Pair>
    requires rows <= |quotes|
  {
    if rows == 0 then [] else TradableRow(market, quotes, TradableRows(market, quotes, rows - 1), rows - 1, |quotes|)
  }

  function TradablePairs(s: Snapshot): seq<Pair> { TradableRows(s.market, Values(s.quotes), |s.quotes|) }

  function GainingPairs(s: Snapshot): seq<Pair> { KeepGaining(TradablePairs(s)) }

  method Generate(snapshot: Snapshot) returns (pairs: seq<Pair>)
    ensures pairs == TradablePairs(snapshot)
  {
    var market, quotes := snapshot.market, Values(snapshot.quotes);
    pairs := [];
    for buyIndex := 0 to |quotes|
      invariant pairs == TradableRows(market, quotes, buyIndex)
    {
      ghost var done := TradableRows(market, quotes, buyIndex);
      for sellIndex := 0 to |quotes|
        invariant pairs == TradableRow(market, quotes, done, buyIndex, sellIndex)
      {
        if buyIndex == sellIndex {
          continue;
        }
        var buy, sell := quotes[buyIndex], quotes[sellIndex];
        if !Buyable(buy) || !Sellable(sell) {
          continue;
        }
        if buy.exchange == sell.exchange {
          continue;
        }
        pairs := pairs + [Pair(market, buy, sell)];
      }
    }
  }

  datatype Batch = Batch(pairs: seq<Pair>, totalExecutablePairs: nat, nonPositiveSpreadPairs: nat)

  /** What a batch says about the tradable pairs it was made from. */
  ghost predicate Describes(batch: Batch, tradable: seq<Pair>) {
    && batch.pairs == KeepGaining(tradable)
    && batch.totalExecutablePairs == |tradable|
    && batch.nonPositiveSpreadPairs == |tradable| - |batch.pairs|
  }

  lemma DescribesPush(batch: Batch, tradable: seq<Pair>, p: Pair)
    requires Describes(batch, tradable)
    ensures if Gains(p)
            then Describes(Batch(batch.pairs + [p], batch.totalExecutablePairs + 1, batch.nonPositiveSpreadPairs),
                           tradable + [p])
            else Describes(Batch(batch.pairs, batch.totalExecutablePairs + 1, batch.nonPositiveSpreadPairs + 1),
                           tradable + [p])
  {
    assert (tradable + [p])[..|tradable|] == tradable;
  }

  method GeneratePositiveSpreadCandidates(snapshot: Snapshot) returns (batch: Batch)
    ensures batch.pairs == GainingPairs(snapshot)
    ensures batch.totalExecutablePairs == |TradablePairs(snapshot)|
    ensures batch.nonPositiveSpreadPairs == |TradablePairs(snapshot)| - |GainingPairs(snapshot)|
  {
    var market, quotes := snapshot.market, Values(snapshot.quotes);
    batch := Batch([], 0, 0);
    for buyIndex := 0 to |quotes|
      invariant Describes(batch, TradableRows(market, quotes, buyIndex))
    {
      ghost var done := TradableRows(market, quotes, buyIndex);
      var buy := quotes[buyIndex];
      if !Buyable(buy) {
        UnbuyableRow(market, quotes, done, buyIndex, |quotes|);
        continue;
      }
      for sellIndex := 0 to |quotes|
        invariant Describes(batch, TradableRow(market, quotes, done, buyIndex, sellIndex))
      {
        if buyIndex == sellIndex {
          continue;
        }
        var sell := quotes[sellIndex];
        if !Sellable(sell) || buy.exchange == sell.exchange {
          continue;
        }
        var pair := Pair(market, buy, sell);
        DescribesPush(batch, TradableRow(market, quotes, done, buyIndex, sellIndex), pair);
        batch := batch.(totalExecutablePairs := batch.totalExecutablePairs + 1);
        if sell.bidPrice.value <= buy.askPrice.value {
          batch := batch.(nonPositiveSpreadPairs := batch.nonPositiveSpreadPairs + 1);
          continue;
        }
        batch := batch.(pairs := batch.pairs + [pair]);
      }
    }
  }

  lemma {:induction false} UnbuyableRow(market: string, quotes: seq<Quote>, done: seq<Pair>, b: nat, n: nat)
    requires b < |quotes| && n <= |quotes| && !Buyable(quotes[b])
    ensures TradableRow(market, quotes, done, b, n) == done
  {
    if n > 0 {
      UnbuyableRow(market, quotes, done, b, n - 1);
    }
  }

  // ---- which pairs those are ----

  /** Row b of the grid of all pairs: buying at quote b, selling at each of the first n. */
  function Row(market: string, quotes: seq<Quote>, b: nat, n: nat): seq<Pair>
    requires b < |quotes| && n <= |quotes|
  {
    if n == 0 then [] else Row(market, quotes, b, n - 1) + [Pair(market, quotes[b], quotes[n - 1])]
  }

  function Grid(market: string, quotes: seq<Quote>, rows: nat): seq<Pair>
    requires rows <= |quotes|
  {
    if rows == 0 then [] else Grid(market, quotes, rows - 1) + Row(market, quotes, rows - 1, |quotes|)
  }

  /** Every ordered pair of the snapshot's quotes, row by row. */
  function AllPairs(s: Snapshot): seq<Pair> { Grid(s.market, Values(s.quotes), |s.quotes|) }

  lemma {:induction false} TradableRowIsFilter(market: string, quotes: seq<Quote>, done: seq<Pair>, b: nat, n: nat)
    requires b < |quotes| && n <= |quotes|
    ensures TradableRow(market, quotes, KeepTradable(done), b, n) == KeepTradable(done + Row(market, quotes, b, n))
  {
    if n == 0 {
      assert done + Row(market, quotes, b, 0) == done;
    } else {
      TradableRowIsFilter(market, quotes, done, b, n - 1);
      var p := Pair(market, quotes[b], quotes[n - 1]);
      var before, after := done + Row(market, quotes, b, n - 1), done + Row(market, quotes, b, n);
      assert after[..|after| - 1] == before && after[|after| - 1] == p;
    }
  }

  lemma {:induction false} TradableRowsAreFilter(market: string, quotes: seq<Quote>, rows: nat)
    requires rows <= |quotes|
    ensures TradableRows(market, quotes, rows) == KeepTradable(Grid(market, quotes, rows))
  {
    if rows > 0 {
      var done := Grid(market, quotes, rows - 1);
      TradableRowsAreFilter(market, quotes, rows - 1);
      assert TradableRows(market, quotes, rows) == TradableRow(market, quotes, KeepTradable(done), rows - 1, |quotes|);
      TradableRowIsFilter(market, quotes, done, rows - 1, |quotes|);
      assert Grid(market, quotes, rows) == done + Row(market, quotes, rows - 1, |quotes|);
    }
  }

  lemma {:induction false} InKeepTradable(s: seq<Pair>, p: Pair)
    ensures p in KeepTradable(s) <==> p in s && Tradable(p)
  {
    if s != [] {
      InKeepTradable(s[..|s| - 1], p);
      assert s == s[..|s| - 1] + [s[|s| - 1]];
    }
  }

  lemma {:induction false} InRow(market: string, quotes: seq<Quote>, b: nat, n: nat, p: Pair)
    requires b < |quotes| && n <= |quotes|
    ensures p in Row(market, quotes, b, n) <==> p.market == market && p.buy == quotes[b] && p.sell in quotes[..n]
  {
    if n > 0 {
      InRow(market, quotes, b, n - 1, p);
      assert quotes[..n] == quotes[..n - 1] + [quotes[n - 1]];
    }
  }

  lemma {:induction false} InGrid(market: string, quotes: seq<Quote>, rows: nat, p: Pair)
    requires rows <= |quotes|
    ensures p in Grid(market, quotes, rows) <==> p.market == market && p.buy in quotes[..rows] && p.sell in quotes
  {
    if rows > 0 {
      var row := Row(market, quotes, rows - 1, |quotes|);
      assert Grid(market, quotes, rows) == Grid(market, quotes, rows - 1) + row;
      assert p in Grid(market, quotes, rows) <==> p in Grid(market, quotes, rows - 1) || p in row;
      InGrid(market, quotes, rows - 1, p);
      InRow(market, quotes, rows - 1, |quotes|, p);
      assert quotes[..|quotes|] == quotes;
      assert quotes[..rows] == quotes[..rows - 1] + [quotes[rows - 1]];
      assert p.buy in quotes[..rows] <==> p.buy in quotes[..rows - 1] || p.buy == quotes[rows - 1];
    }
  }

  /** `generate` keeps, in grid order, exactly the pairs of different venues one can buy and sell at. */
  lemma TradablePairsAreAll(s: Snapshot)
    ensures TradablePairs(s) == KeepTradable(AllPairs(s))
    ensures forall p :: p in TradablePairs(s) <==>
              p.market == s.market && p.buy in Values(s.quotes) && p.sell in Values(s.quotes) && Tradable(p)
  {
    TradableRowsAreFilter(s.market, Values(s.quotes), |s.quotes|);
    forall p ensures p in TradablePairs(s) <==>
              p.market == s.market && p.buy in Values(s.quotes) && p.sell in Values(s.quotes) && Tradable(p)
    {
      InKeepTradable(AllPairs(s), p);
      InGrid(s.market, Values(s.quotes), |s.quotes|, p);
      assert Values(s.quotes)[..|s.quotes|] == Values(s.quotes);
    }
  }
}
