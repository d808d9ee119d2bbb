/** The market cache's read-side indexes, as projections of the authoritative map. */
module CacheIndex {
  import opened CacheCore

  type Index = map<string, Markets>

  function Executable(ms: Markets): Markets {
    map k | k in ms && ms[k].executable :: ms[k]
  }

  /** Exactly the quotes of `ms`, by exchange and key, with no empty bucket. */
  ghost predicate ByExchange(ms: Markets, index: Index) {
    && (forall e :: e in index ==> index[e] != map[])
    && (forall e, k :: e in index && k in index[e] ==> k in ms && ms[k].exchange == e && index[e][k] == ms[k])
    && (forall k :: k in ms ==> ms[k].exchange in index && k in index[ms[k].exchange])
  }

  /** How a venue's market is keyed. */
  type Keying = (string, string) -> string

  ghost predicate Keyed(ms: Markets, key: Keying) {
    forall k :: k in ms ==> k == key(ms[k].exchange, ms[k].market)
  }

  /** Exactly the quotes of `ms`, by market and exchange, with no empty bucket. */
  ghost predicate ByMarket(ms: Markets, index: Index, key: Keying) {
    && (forall m :: m in index ==> index[m] != map[])
    && (forall m, e :: m in index && e in index[m] ==>
          key(e, m) in ms && ms[key(e, m)] == index[m][e] && index[m][e].exchange == e && index[m][e].market == m)
    && (forall k :: k in ms ==> ms[k].market in index && ms[k].exchange in index[ms[k].market])
  }

  function PutIn(index: Index, bucket: string, k: string, q: Quote): Index {
    index[bucket := (if bucket in index then index[bucket] else map[])[k := q]]
  }

  function DropFrom(index: Index, bucket: string, k: string): Index {
    if bucket !in index then index
    else if index[bucket] - {k} == map[] then index - {bucket}
    else index[bucket := index[bucket] - {k}]
  }

  predicate SameVenue(ms: Markets, k: string, exchange: string, market: string) {
    k in ms ==> ms[k].exchange == exchange && ms[k].market == market
  }

  lemma PutByExchange(ms: Markets, index: Index, k: string, q: Quote)
    requires ByExchange(ms, index)
    requires k in ms ==> ms[k].exchange == q.exchange
    ensures ByExchange(ms[k := q], PutIn(index, q.exchange, k, q))
  {
    assert k in PutIn(index, q.exchange, k, q)[q.exchange];
  }

  /** Overwriting another exchange's entry leaves that exchange's bucket wrong. */
  lemma PutOverOther(ms: Markets, index: Index, k: string, q: Quote)
    requires ByExchange(ms, index)
    requires k in ms && ms[k].exchange != q.exchange
    ensures !ByExchange(ms[k := q], PutIn(index, q.exchange, k, q))
  {
    var index' := PutIn(index, q.exchange, k, q);
    var other := ms[k].exchange;
    var ms' := ms[k := q];
    assert other in index' && k in index'[other] && ms'[k] == q;
    assert index'[other][k] == ms[k] != ms'[k];
  }

  lemma DropByExchange(ms: Markets, index: Index, k: string, exchange: string)
    requires ByExchange(ms, index)
    requires k in ms ==> ms[k].exchange == exchange
    ensures ByExchange(ms - {k}, DropFrom(index, exchange, k))
  {
    var ms': Markets, index': Index := ms - {k}, DropFrom(index, exchange, k);
    assert forall e :: e in index' ==> index'[e] != map[];
    forall k' | k' in ms' ensures ms'[k'].exchange in index' && k' in index'[ms'[k'].exchange] {
      DroppedKeeps(ms, index, k, exchange, k');
    }
    forall e, k' | e in index' && k' in index'[e]
      ensures k' in ms' && ms'[k'].exchange == e && index'[e][k'] == ms'[k'] {
      DroppedHolds(ms, index, k, exchange, e, k');
    }
  }

  lemma DroppedKeeps(ms: Markets, index: Index, k: string, exchange: string, k': string)
    requires ByExchange(ms, index) && (k in ms ==> ms[k].exchange == exchange) && k' in ms && k' != k
    ensures var index' := DropFrom(index, exchange, k); ms[k'].exchange in index' && k' in index'[ms[k'].exchange]
  {
    assert k' in index[ms[k'].exchange];
    assert k' in index[ms[k'].exchange] - {k};
  }

  lemma DroppedHolds(ms: Markets, index: Index, k: string, exchange: string, e: string, k': string)
    requires ByExchange(ms, index) && (k in ms ==> ms[k].exchange == exchange)
    requires var index' := DropFrom(index, exchange, k); e in index' && k' in index'[e]
    ensures k' in ms - {k} && ms[k'].exchange == e && DropFrom(index, exchange, k)[e][k'] == ms[k']
  {
    assert e in index && k' in index[e];
  }

  lemma PutInEntries(index: Index, bucket: string, k: string, q: Quote)
    ensures var index' := PutIn(index, bucket, k, q);
            && (forall m :: m in index' ==> m == bucket || (m in index && index'[m] == index[m]))
            && (forall m, e :: m in index' && e in index'[m] ==>
                  if m == bucket && e == k then index'[m][e] == q
                  else m in index && e in index[m] && index'[m][e] == index[m][e])
            && (forall m, e :: m in index && e in index[m] ==> m in index' && e in index'[m])
  {
  }

  lemma PutByMarket(ms: Markets, index: Index, key: Keying, k: string, q: Quote)
    requires ByMarket(ms, index, key)
    requires k == key(q.exchange, q.market) && SameVenue(ms, k, q.exchange, q.market)
    ensures ByMarket(ms[k := q], PutIn(index, q.market, q.exchange, q), key)
  {
    var ms': Markets, index': Index := ms[k := q], PutIn(index, q.market, q.exchange, q);
    PutInEntries(index, q.market, q.exchange, q);
    assert q.exchange in index'[q.market];
    forall m, e | m in index' && e in index'[m]
      ensures key(e, m) in ms' && ms'[key(e, m)] == index'[m][e] && index'[m][e].exchange == e
              && index'[m][e].market == m
    {
      if m == q.market && e == q.exchange {
      } else {
        assert key(e, m) in ms && ms[key(e, m)] == index[m][e];
        assert key(e, m) != k;
      }
    }
    forall k' | k' in ms' ensures ms'[k'].market in index' && ms'[k'].exchange in index'[ms'[k'].market] {
      if k' != k {
        assert ms[k'].market in index && ms[k'].exchange in index[ms[k'].market];
      }
    }
  }

  lemma DropFromEntries(index: Index, bucket: string, k: string)
    requires forall m :: m in index ==> index[m] != map[]
    ensures var index' := DropFrom(index, bucket, k);
            && (forall m :: m in index' ==> m in index && index'[m] != map[])
            && (forall m, e :: m in index' && e in index'[m] ==>
                  e in index[m] && index'[m][e] == index[m][e] && !(m == bucket && e == k))
            && (forall m, e :: m in index && e in index[m] && !(m == bucket && e == k) ==>
                  m in index' && e in index'[m])
  {
    if bucket in index {
      var kept := index[bucket] - {k};
      forall e | e in index[bucket] && e != k ensures e in kept && kept != map[] {
      }
    }
  }

  lemma DropByMarket(ms: Markets, index: Index, key: Keying, k: string, exchange: string, market: string)
    requires ByMarket(ms, index, key) && Keyed(ms, key)
    requires k == key(exchange, market) && SameVenue(ms, k, exchange, market)
    ensures ByMarket(ms - {k}, DropFrom(index, market, exchange), key)
  {
    var ms': Markets, index': Index := ms - {k}, DropFrom(index, market, exchange);
    DropFromEntries(index, market, exchange);
    forall k' | k' in ms' ensures ms'[k'].market in index' && ms'[k'].exchange in index'[ms'[k'].market] {
      assert ms[k'].market in index && ms[k'].exchange in index[ms[k'].market];
    }
    forall m, e | m in index' && e in index'[m]
      ensures key(e, m) in ms' && ms'[key(e, m)] == index'[m][e] && index'[m][e].exchange == e
              && index'[m][e].market == m
    {
      assert m in index && e in index[m] && index'[m][e] == index[m][e];
    }
  }

  lemma ExecutableOfPut(ms: Markets, k: string, q: Quote)
    ensures Executable(ms[k := q]) == if q.executable then Executable(ms)[k := q] else Executable(ms) - {k}
  {
  }

  lemma ExecutableOfDrop(ms: Markets, k: string)
    ensures Executable(ms - {k}) == Executable(ms) - {k}
  {
  }

  /** The exchanges with an executable quote for the market. */
  function Venues(ms: Markets, market: string): set<string> {
    set k | k in ms && ms[k].executable && ms[k].market == market :: ms[k].exchange
  }

  lemma VenuesAreBucket(ms: Markets, index: Index, key: Keying, m: string)
    requires ByMarket(Executable(ms), index, key)
    ensures |Venues(ms, m)| == if m in index then |index[m]| else 0
  {
    var xs := Executable(ms);
    forall e | m in index && e in index[m] ensures e in Venues(ms, m) {
      var k := key(e, m);
      assert k in ms && ms[k].executable && ms[k].market == m && ms[k].exchange == e;
    }
    forall e | e in Venues(ms, m) ensures m in index && e in index[m] {
      var k :| k in ms && ms[k].executable && ms[k].market == m && ms[k].exchange == e;
      assert k in xs;
    }
    assert Venues(ms, m) == if m in index then index[m].Keys else {};
    assert m in index ==> |index[m].Keys| == |index[m]|;
  }

  // ---- the four indexes together ----

  /** Every index is the projection of the authoritative map that defines it. */
  ghost predicate Projected(ms: Markets, key: Keying, all: Index, xs: Markets, byExchange: Index, byMarket: Index) {
    ByExchange(ms, all) && xs == Executable(ms) && ByExchange(xs, byExchange) && ByMarket(xs, byMarket, key)
  }

  lemma EmptyProjected(key: Keying)
    ensures Projected(map[], key, map[], map[], map[], map[])
  {
  }

  /** Indexing a quote keeps the projections exactly when it replaces its own exchange's quote. */
  lemma PutProjected(ms: Markets, key: Keying, all: Index, xs: Markets, byExchange: Index, byMarket: Index, k: string,
                     q: Quote)
    requires Projected(ms, key, all, xs, byExchange, byMarket) && Keyed(ms, key)
    requires k == key(q.exchange, q.market)
    requires k in ms && ms[k].exchange == q.exchange ==> ms[k].market == q.market
    ensures (k in ms ==> ms[k].exchange == q.exchange) <==>
            if q.executable then
              Projected(ms[k := q], key, PutIn(all, q.exchange, k, q), xs[k := q], PutIn(byExchange, q.exchange, k, q),
                        PutIn(byMarket, q.market, q.exchange, q))
            else
              Projected(ms[k := q], key, PutIn(all, q.exchange, k, q), xs - {k}, DropFrom(byExchange, q.exchange, k),
                        DropFrom(byMarket, q.market, q.exchange))
  {
    assert Keyed(xs, key);
    if k in ms && ms[k].exchange != q.exchange {
      PutOverOther(ms, all, k, q);
    } else {
      PutByExchange(ms, all, k, q);
      ExecutableOfPut(ms, k, q);
      if q.executable {
        PutByExchange(xs, byExchange, k, q);
        PutByMarket(xs, byMarket, key, k, q);
      } else {
        DropByExchange(xs, byExchange, k, q.exchange);
        DropByMarket(xs, byMarket, key, k, q.exchange, q.market);
      }
    }
  }

  lemma DropProjected(ms: Markets, key: Keying, all: Index, xs: Markets, byExchange: Index, byMarket: Index, k: string)
    requires Projected(ms, key, all, xs, byExchange, byMarket) && Keyed(ms, key)
    requires k in ms && k == key(ms[k].exchange, ms[k].market)
    ensures Projected(ms - {k}, key, DropFrom(all, ms[k].exchange, k), xs - {k},
                      DropFrom(byExchange, ms[k].exchange, k), DropFrom(byMarket, ms[k].market, ms[k].exchange))
  {
    assert Keyed(xs, key);
    DropByExchange(ms, all, k, ms[k].exchange);
    ExecutableOfDrop(ms, k);
    DropByExchange(xs, byExchange, k, ms[k].exchange);
    DropByMarket(xs, byMarket, key, k, ms[k].exchange, ms[k].market);
  }
}
