/**
  The fee registry: dynamic fee evidence per exchange and market with an expiry, over a static table.
  Expired evidence is removed by whoever looks it up.
 */
module Fees {
  import opened Wrappers
  import opened Names

  datatype Source = StaticConfig | PublicApi | AccountApi

  /** Evidence as it arrives; a number that is null or not of the required kind is absent. */
  datatype RawEvidence = RawEvidence(
    exchange: string, market: Option<string>, makerPercent: Option<real>, takerPercent: Option<real>, source: Source,
    synchronizedAt: Option<int>, expiresAt: Option<int>)

  datatype Evidence = Evidence(
    exchange: string, market: Option<string>, makerPercent: real, takerPercent: real, source: Source,
    synchronizedAt: Option<int>, expiresAt: Option<int>)

  type Registry = map<string, Evidence>

  datatype Rates = Rates(maker: real, taker: real)

  predicate FeeSeparator(c: char) { IsSeparator(c) || c == ',' }

  /** The fee registry's normal form of a market name: it also drops commas. */
  function FeeMarket(market: string): string { Strip(NormMarket(market), FeeSeparator) }

  function MarketOf(market: Option<string>): string { if market.None? then "" else FeeMarket(market.value) }

  function StaticFees(exchange: string, market: string): Option<Rates> {
    if exchange == "coindcx" && market != "" then
      var percent := if EndsWith(market, "INR") then 0.5 * 1.18 else 0.17 * 1.18;
      Some(Rates(percent, percent))
    else if exchange == "coindcx" then Some(Rates(0.59, 0.59))
    else if exchange == "binance" || exchange == "bybit" || exchange == "kucoin" then Some(Rates(0.10, 0.10))
    else if exchange == "okx" then Some(Rates(0.08, 0.10))
    else if exchange == "gate" then Some(Rates(0.20, 0.20))
    else None
  }

  function StaticEvidence(exchange: string, market: string): Option<Evidence> {
    var fees := StaticFees(exchange, market);
    if fees.None? then None
    else Some(Evidence(exchange, None, fees.value.maker, fees.value.taker, StaticConfig, None, None))
  }

  // ---- the static table, in percent ----

  /** Known exchanges charge flat rates, CoinDCX by market with 18 percent tax on them; nobody else is in the table. */
  lemma StaticRates(exchange: string, market: string)
    ensures exchange == "binance" || exchange == "bybit" || exchange == "kucoin" ==>
              StaticFees(exchange, market) == Some(Rates(0.1, 0.1))
    ensures exchange == "okx" ==> StaticFees(exchange, market) == Some(Rates(0.08, 0.1))
    ensures exchange == "gate" ==> StaticFees(exchange, market) == Some(Rates(0.2, 0.2))
    ensures exchange == "coindcx" ==>
              StaticFees(exchange, market) == (if market == "" || EndsWith(market, "INR") then Some(Rates(0.59, 0.59))
                                               else Some(Rates(0.2006, 0.2006)))
    ensures StaticFees(exchange, market).Some? <==>
              exchange in {"binance", "bybit", "kucoin", "okx", "gate", "coindcx"}
  {
  }

  lemma StaticEvidenceIs(exchange: string, market: string)
    ensures StaticEvidence(exchange, market) ==
            match StaticFees(exchange, market)
            case None => None
            case Some(Rates(maker, taker)) => Some(Evidence(exchange, None, maker, taker, StaticConfig, None, None))
  {
  }

  /** Evidence is taken in exactly if it is the exchange's own, dynamic, in figures, and dated in order. */
  lemma NormalizedExactly(expected: string, raw: RawEvidence, now: int)
    ensures var r := Normalized(expected, raw, now);
            && (r.Ok? <==>
                  && NormExchange(raw.exchange) == expected
                  && raw.market.Some? && Strip(NormMarket(raw.market.value), FeeSeparator) != ""
                  && (raw.source == PublicApi || raw.source == AccountApi)
                  && raw.makerPercent.Some? && raw.makerPercent.value >= 0.0
                  && raw.takerPercent.Some? && raw.takerPercent.value >= 0.0
                  && raw.synchronizedAt.Some? && 0 < raw.synchronizedAt.value <= now
                  && raw.expiresAt.Some? && raw.expiresAt.value > raw.synchronizedAt.value)
            && (r.Ok? ==>
                  && r.value.exchange == expected
                  && r.value.market == Some(Strip(NormMarket(raw.market.value), FeeSeparator))
                  && Some(r.value.makerPercent) == raw.makerPercent && Some(r.value.takerPercent) == raw.takerPercent
                  && r.value.source == raw.source && r.value.synchronizedAt == raw.synchronizedAt
                  && r.value.expiresAt == raw.expiresAt)
  {
  }

  lemma FeeSeparators(c: char)
    ensures FeeSeparator(c) <==> c in " \t\n\U{B}\U{C}\r_-/,"
  {
  }

  // ---- the meaning of a lookup ----

  predicate Live(e: Evidence, now: int) { e.expiresAt.Some? ==> e.expiresAt.value >= now }

  /** The evidence in force at a moment. */
  function View(r: Registry, now: int): Registry {
    map k | k in r && Live(r[k], now) :: r[k]
  }

  /** What a lookup answers: the evidence in force for the market, or else the static table. */
  function Answer(view: Registry, exchange: string, market: string): Option<Evidence> {
    if exchange != "" && market != "" && Key(exchange, market) in view then Some(view[Key(exchange, market)])
    else StaticEvidence(exchange, market)
  }

  /** What a lookup leaves: the looked-up entry is gone if it had expired. */
  function AfterLookup(r: Registry, exchange: string, market: string, now: int): Registry {
    var key := Key(exchange, market);
    if exchange != "" && market != "" && key in r && !Live(r[key], now) then r - {key} else r
  }

  function TakerOf(e: Option<Evidence>): Option<real> { if e.None? then None else Some(e.value.takerPercent) }

  /** A lookup at `now` changes nothing that is in force at `now` or later. */
  lemma LookupKeepsView(r: Registry, exchange: string, market: string, now: int, later: int)
    requires now <= later
    ensures View(AfterLookup(r, exchange, market, now), later) == View(r, later)
  {
  }

  // ---- replacing an exchange's evidence ----

  function Normalized(expected: string, raw: RawEvidence, now: int): Result<Evidence> {
    var exchange, market := NormExchange(raw.exchange), MarketOf(raw.market);
    if exchange != expected || market == "" then Err
    else if raw.source == StaticConfig then Err
    else if raw.makerPercent.None? || raw.makerPercent.value < 0.0 || raw.takerPercent.None?
      || raw.takerPercent.value < 0.0
      || raw.synchronizedAt.None? || raw.synchronizedAt.value <= 0 || raw.synchronizedAt.value > now
      || raw.expiresAt.None? || raw.expiresAt.value <= raw.synchronizedAt.value
    then Err
    else Ok(Evidence(exchange, Some(market), raw.makerPercent.value, raw.takerPercent.value, raw.source,
                     raw.synchronizedAt, raw.expiresAt))
  }

  function NormalizeAll(expected: string, raws: seq<RawEvidence>, now: int): Result<seq<Evidence>> {
    if raws == [] then Ok([])
    else
      var before, last := NormalizeAll(expected, raws[..|raws| - 1], now), Normalized(expected, raws[|raws| - 1], now);
      if before.Err? || last.Err? then Err else Ok(before.value + [last.value])
  }

  function WithoutExchange(r: Registry, exchange: string): Registry {
    map k | k in r && r[k].exchange != exchange :: r[k]
  }

  function Stored(r: Registry, exchange: string, items: seq<Evidence>): Registry {
    if items == [] then r
    else
      var last := items[|items| - 1];
      Stored(r, exchange, items[..|items| - 1])[Key(exchange, last.market.GetOr("")) := last]
  }

  function Replaced(r: Registry, exchange: string, raws: seq<RawEvidence>, now: int): Option<Registry> {
    var x := NormExchange(exchange);
    var items := NormalizeAll(x, raws, now);
    if x == "" || items.Err? || items.value == [] then None
    else Some(Stored(WithoutExchange(r, x), x, items.value))
  }

  /** The last item for a market, if any. */
  function LastFor(items: seq<Evidence>, market: string): Option<Evidence> {
    if items == [] then None
    else if items[|items| - 1].market == Some(market) then Some(items[|items| - 1])
    else LastFor(items[..|items| - 1], market)
  }

  ghost predicate ItemsOf(items: seq<Evidence>, exchange: string) {
    forall i :: 0 <= i < |items| ==>
      items[i].exchange == exchange && items[i].market.Some? && items[i].market.value != ""
        && items[i].takerPercent >= 0.0
  }

  /** Entries sit under their own key and carry a non-negative rate. */
  ghost predicate WellKeyed(r: Registry) {
    forall k :: k in r ==> r[k].market.Some? && k == Key(r[k].exchange, r[k].market.value) && r[k].takerPercent >= 0.0
  }

  lemma {:induction false} NormalizedAreItems(expected: string, raws: seq<RawEvidence>, now: int)
    ensures NormalizeAll(expected, raws, now).Ok? ==>
              ItemsOf(NormalizeAll(expected, raws, now).value, expected)
                && |NormalizeAll(expected, raws, now).value| == |raws|
  {
    if raws != [] {
      NormalizedAreItems(expected, raws[..|raws| - 1], now);
    }
  }

  /** A list is taken in exactly if each item is, item by item in its order. */
  lemma {:induction false} AllOrNothing(expected: string, raws: seq<RawEvidence>, now: int)
    ensures NormalizeAll(expected, raws, now).Ok? <==>
            forall i :: 0 <= i < |raws| ==> Normalized(expected, raws[i], now).Ok?
    ensures NormalizeAll(expected, raws, now).Ok? ==>
              && |NormalizeAll(expected, raws, now).value| == |raws|
              && forall i :: 0 <= i < |raws| ==>
                   Normalized(expected, raws[i], now) == Ok(NormalizeAll(expected, raws, now).value[i])
  {
    if raws != [] {
      var n := |raws| - 1;
      AllOrNothing(expected, raws[..n], now);
      assert forall i :: 0 <= i < n ==> raws[..n][i] == raws[i];
    }
  }

  lemma {:induction false} SameExchangeKeys(exchange: string, m: string, n: string)
    ensures Key(exchange, m) == Key(exchange, n) <==> m == n
  {
    if Key(exchange, m) == Key(exchange, n) {
      assert m == Key(exchange, m)[|exchange| + 1..] && n == Key(exchange, n)[|exchange| + 1..];
    }
  }

  lemma {:induction false} StoredHolds(r: Registry, exchange: string, items: seq<Evidence>, market: string)
    requires ItemsOf(items, exchange)
    ensures var after := Stored(r, exchange, items);
            var key := Key(exchange, market);
            if LastFor(items, market).Some? then key in after && after[key] == LastFor(items, market).value
            else (key in after <==> key in r) && (key in r ==> after[key] == r[key])
  {
    if items != [] {
      var n := |items| - 1;
      StoredHolds(r, exchange, items[..n], market);
      SameExchangeKeys(exchange, items[n].market.value, market);
    }
  }

  lemma {:induction false} StoredElsewhere(r: Registry, exchange: string, items: seq<Evidence>, key: string)
    requires ItemsOf(items, exchange) && forall i :: 0 <= i < |items| ==> Key(exchange, items[i].market.value) != key
    ensures (key in Stored(r, exchange, items) <==> key in r)
            && (key in r ==> Stored(r, exchange, items)[key] == r[key])
  {
    if items != [] {
      StoredElsewhere(r, exchange, items[..|items| - 1], key);
    }
  }

  lemma {:induction false} StoredWellKeyed(r: Registry, exchange: string, items: seq<Evidence>)
    requires WellKeyed(r) && ItemsOf(items, exchange)
    ensures WellKeyed(Stored(r, exchange, items))
  {
    if items != [] {
      StoredWellKeyed(r, exchange, items[..|items| - 1]);
    }
  }

  /** After a replacement the exchange holds, for each market, the last item given for it and nothing else. */
  lemma {:induction false} ReplacedHoldsLast(r: Registry, exchange: string, raws: seq<RawEvidence>, now: int,
                                             market: string)
    requires WellKeyed(r) && Replaced(r, exchange, raws, now).Some?
    ensures var x := NormExchange(exchange);
            var after, items, key :=
              Replaced(r, exchange, raws, now).value, NormalizeAll(x, raws, now).value, Key(x, market);
            && WellKeyed(after)
            && (LastFor(items, market).Some? ==> key in after && after[key] == LastFor(items, market).value)
            && (LastFor(items, market).None? ==> key !in after || after[key].exchange != x)
  {
    var x := NormExchange(exchange);
    NormalizedAreItems(x, raws, now);
    var items := NormalizeAll(x, raws, now).value;
    StoredHolds(WithoutExchange(r, x), x, items, market);
    StoredWellKeyed(WithoutExchange(r, x), x, items);
  }

  /** Another exchange's entry survives a replacement exactly when no new item takes its key. */
  lemma {:induction false} OthersKeptExactly(r: Registry, exchange: string, raws: seq<RawEvidence>, now: int,
                                             key: string)
    requires Replaced(r, exchange, raws, now).Some? && key in r && r[key].exchange != NormExchange(exchange)
    ensures var x := NormExchange(exchange);
            var after, items := Replaced(r, exchange, raws, now).value, NormalizeAll(x, raws, now).value;
            (key in after && after[key] == r[key])
              <==> forall i :: 0 <= i < |items| ==> Key(x, items[i].market.GetOr("")) != key
  {
    var x := NormExchange(exchange);
    NormalizedAreItems(x, raws, now);
    var items := NormalizeAll(x, raws, now).value;
    if i :| 0 <= i < |items| && Key(x, items[i].market.GetOr("")) == key {
      var market := items[i].market.value;
      StoredHolds(WithoutExchange(r, x), x, items, market);
      LastForIs(items, market, i);
    } else {
      StoredElsewhere(WithoutExchange(r, x), x, items, key);
    }
  }

  lemma {:induction false} LastForIs(items: seq<Evidence>, market: string, i: nat)
    requires i < |items| && items[i].market == Some(market)
    ensures LastFor(items, market).Some? && LastFor(items, market).value in items
  {
    if items[|items| - 1].market != Some(market) {
      LastForIs(items[..|items| - 1], market, i);
    }
  }

  /** So with exchange names without a colon no other exchange is ever touched. */
  lemma OthersKept(r: Registry, exchange: string, raws: seq<RawEvidence>, now: int, key: string)
    requires WellKeyed(r) && Replaced(r, exchange, raws, now).Some? && key in r
             && r[key].exchange != NormExchange(exchange)
    requires ColonFree(NormExchange(exchange)) && ColonFree(r[key].exchange)
    ensures key in Replaced(r, exchange, raws, now).value && Replaced(r, exchange, raws, now).value[key] == r[key]
  {
    var x := NormExchange(exchange);
    NormalizedAreItems(x, raws, now);
    var items := NormalizeAll(x, raws, now).value;
    forall i | 0 <= i < |items| ensures Key(x, items[i].market.value) != key {
      if Key(x, items[i].market.value) == key {
        KeyInjective(x, items[i].market.value, r[key].exchange, r[key].market.value);
      }
    }
    OthersKeptExactly(r, exchange, raws, now, key);
  }

  // ---- eviction is not observable while the clock does not go back ----

  datatype Operation =
    | Lookup(exchange: string, market: Option<string>)
    | LookupTaker(exchange: string, market: Option<string>)
    | ListEvidence(only: Option<string>)
    | Replace(owner: string, raws: seq<RawEvidence>)
    | ClearFees(scope: Option<string>)

  datatype Output =
    Found(evidence: Option<Evidence>) | Rate(percent: Option<real>) | Listing(entries: Registry) | Done(ok: bool)

  function Cleared(r: Registry, scope: Option<string>): Registry {
    if scope.None? then map[] else WithoutExchange(r, NormExchange(scope.value))
  }

  function Listed(view: Registry, only: Option<string>): Registry {
    if only.None? then view else map k | k in view && view[k].exchange == NormExchange(only.value) :: view[k]
  }

  function OutputOf(r: Registry, op: Operation, now: int): Output {
    match op
    case Lookup(e, m) => Found(Answer(View(r, now), NormExchange(e), MarketOf(m)))
    case LookupTaker(e, m) => Rate(TakerOf(Answer(View(r, now), NormExchange(e), MarketOf(m))))
    case ListEvidence(only) => Listing(Listed(View(r, now), only))
    case Replace(owner, raws) => Done(Replaced(r, owner, raws, now).Some?)
    case ClearFees(_) => Done(true)
  }

  /** What the program does to the registry. */
  function Evicting(r: Registry, op: Operation, now: int): Registry {
    match op
    case Lookup(e, m) => AfterLookup(r, NormExchange(e), MarketOf(m), now)
    case LookupTaker(e, m) => AfterLookup(r, NormExchange(e), MarketOf(m), now)
    case ListEvidence(_) => View(r, now)
    case Replace(owner, raws) => Replaced(r, owner, raws, now).GetOr(r)
    case ClearFees(scope) => Cleared(r, scope)
  }

  /** The same without ever removing expired evidence on a lookup. */
  function Keeping(r: Registry, op: Operation, now: int): Registry {
    match op
    case Replace(owner, raws) => Replaced(r, owner, raws, now).GetOr(r)
    case ClearFees(scope) => Cleared(r, scope)
    case _ => r
  }

  datatype Timed = Timed(op: Operation, now: int)

  function Outputs(r: Registry, run: seq<Timed>, evicts: bool): seq<Output>
    decreases |run|
  {
    if run == [] then []
    else
      var t := run[0];
      [OutputOf(r, t.op, t.now)]
        + Outputs(if evicts then Evicting(r, t.op, t.now) else Keeping(r, t.op, t.now), run[1..], evicts)
  }

  /** A listing shows what is in force, all of it or one exchange's. */
  lemma ListedIs(view: Registry, only: Option<string>, key: string)
    ensures key in Listed(view, only)
            <==> key in view && (only.Some? ==> view[key].exchange == NormExchange(only.value))
    ensures key in Listed(view, only) ==> Listed(view, only)[key] == view[key]
  {
  }

  /** A run gives one output an operation, the first from the registry as it is. */
  lemma {:induction false} OutputsAreAll(r: Registry, run: seq<Timed>, evicts: bool)
    ensures |Outputs(r, run, evicts)| == |run|
    ensures run != [] ==> Outputs(r, run, evicts)[0] == OutputOf(r, run[0].op, run[0].now)
    decreases |run|
  {
    if run != [] {
      OutputsAreAll(if evicts then Evicting(r, run[0].op, run[0].now)
                    else Keeping(r, run[0].op, run[0].now), run[1..], evicts);
    }
  }

  ghost predicate ClockRuns(run: seq<Timed>) {
    forall i, j :: 0 <= i < j < |run| ==> run[i].now <= run[j].now
  }

  /** The smaller registry lacks only entries of the larger that have expired. */
  ghost predicate LacksExpired(small: Registry, large: Registry, now: int) {
    && (forall k :: k in small ==> k in large && small[k] == large[k])
    && (forall k :: k in large && k !in small ==> !Live(large[k], now))
  }

  lemma SameView(small: Registry, large: Registry, now: int)
    requires LacksExpired(small, large, now)
    ensures View(small, now) == View(large, now)
  {
  }

  lemma {:induction false} StoredLacks(small: Registry, large: Registry, exchange: string, items: seq<Evidence>,
                                       now: int)
    requires LacksExpired(small, large, now)
    ensures LacksExpired(Stored(small, exchange, items), Stored(large, exchange, items), now)
  {
    if items != [] {
      StoredLacks(small, large, exchange, items[..|items| - 1], now);
    }
  }

  lemma StepLacks(small: Registry, large: Registry, op: Operation, now: int)
    requires LacksExpired(small, large, now)
    ensures OutputOf(small, op, now) == OutputOf(large, op, now)
    ensures LacksExpired(Evicting(small, op, now), Keeping(large, op, now), now)
  {
    SameView(small, large, now);
    match op
    case Replace(owner, raws) =>
      var x := NormExchange(owner);
      var items := NormalizeAll(x, raws, now);
      if items.Ok? {
        StoredLacks(WithoutExchange(small, x), WithoutExchange(large, x), x, items.value, now);
      }
    case _ =>
  }

  lemma {:induction false} EvictionUnobserved(small: Registry, large: Registry, run: seq<Timed>)
    requires ClockRuns(run) && (run != [] ==> LacksExpired(small, large, run[0].now))
    ensures Outputs(small, run, true) == Outputs(large, run, false)
    decreases |run|
  {
    if run != [] {
      var t := run[0];
      StepLacks(small, large, t.op, t.now);
      EvictionUnobserved(Evicting(small, t.op, t.now), Keeping(large, t.op, t.now), run[1..]);
    }
  }

  /** Under a clock that does not go back, removing expired evidence on lookups changes no answer. */
  lemma {:induction false} LazyEvictionUnobservable(r: Registry, run: seq<Timed>)
    requires ClockRuns(run)
    ensures Outputs(r, run, true) == Outputs(r, run, false)
  {
    EvictionUnobserved(r, r, run);
  }

  /**
    Two lookups of one market: the second one answers differently for the first exactly when the
    entry had expired at the first time and is in force at the second, which takes a clock that goes
    back.
   */
  lemma EvictionSeenExactly(r: Registry, exchange: string, market: string, first: int, second: int)
    requires exchange != "" && market != "" && Key(exchange, market) in r
             && r[Key(exchange, market)].source != StaticConfig
    ensures Answer(View(AfterLookup(r, exchange, market, first), second), exchange, market)
            != Answer(View(r, second), exchange, market)
            <==> !Live(r[Key(exchange, market)], first) && Live(r[Key(exchange, market)], second)
    ensures !Live(r[Key(exchange, market)], first) && Live(r[Key(exchange, market)], second) ==> second < first
  {
  }

  // ---- the registry object ----

  class FeeRegistry {
    var evidence: Registry

    constructor ()
      ensures evidence == map[]
    {
      evidence := map[];
    }

    method GetExchangeFeeEvidence(exchange: string, market: Option<string>, now: int) returns (result: Option<Evidence>)
      modifies this
      ensures var x, m := NormExchange(exchange), MarketOf(market);
              var known := x != "" && m != "" && Key(x, m) in old(evidence);
              if known && (old(evidence)[Key(x, m)].expiresAt.None? || now <= old(evidence)[Key(x, m)].expiresAt.value)
              then result == Some(old(evidence)[Key(x, m)]) && evidence == old(evidence)
              else result == StaticEvidence(x, m) && evidence == if known then old(evidence) - {Key(x, m)}
                else old(evidence)
      ensures Found(result) == OutputOf(old(evidence), Lookup(exchange, market), now)
      ensures evidence == Evicting(old(evidence), Lookup(exchange, market), now)
    {
      var x, m := NormExchange(exchange), MarketOf(market);
      if x != "" && m != "" {
        var key := Key(x, m);
        if key in evidence {
          if evidence[key].expiresAt.None? || evidence[key].expiresAt.value >= now {
            return Some(evidence[key]);
          }
          evidence := evidence - {key};
        }
      }
      result := StaticEvidence(x, m);
    }

    /** The allocation-free form: the same rate, and the same registry afterwards. */
    method GetExchangeTakerFeePercent(exchange: string, market: Option<string>, now: int)
      returns (percent: Option<real>)
      modifies this
      ensures var x, m := NormExchange(exchange), MarketOf(market);
              var known := x != "" && m != "" && Key(x, m) in old(evidence);
              if known && (old(evidence)[Key(x, m)].expiresAt.None? || now <= old(evidence)[Key(x, m)].expiresAt.value)
              then percent == Some(old(evidence)[Key(x, m)].takerPercent)
              else percent.Some? == StaticFees(x, m).Some?
                   && (percent.Some? ==> percent.value == StaticFees(x, m).value.taker)
      ensures percent == TakerOf(OutputOf(old(evidence), Lookup(exchange, market), now).evidence)
      ensures evidence == Evicting(old(evidence), Lookup(exchange, market), now)
      ensures WellKeyed(old(evidence)) && percent.Some? ==> percent.value >= 0.0
    {
      var x, m := NormExchange(exchange), MarketOf(market);
      if x != "" && m != "" {
        var key := Key(x, m);
        if key in evidence {
          if evidence[key].expiresAt.None? || evidence[key].expiresAt.value >= now {
            return Some(evidence[key].takerPercent);
          }
          evidence := evidence - {key};
        }
      }
      var fees := StaticFees(x, m);
      percent := if fees.None? then None else Some(fees.value.taker);
    }

    method ClearDynamicFeeEvidence(scope: Option<string>)
      modifies this
      ensures evidence == Cleared(old(evidence), scope)
      ensures forall k :: k in evidence <==>
                k in old(evidence) && scope.Some? && old(evidence)[k].exchange != NormExchange(scope.value)
      ensures forall k :: k in evidence ==> evidence[k] == old(evidence)[k]
    {
      if scope.None? {
        evidence := map[];
        return;
      }
      var x := NormExchange(scope.value);
      var pending := evidence.Keys;
      while pending != {}
        invariant pending <= evidence.Keys <= old(evidence).Keys
        invariant forall k :: k in evidence ==> evidence[k] == old(evidence)[k]
        invariant forall k :: k in old(evidence) && k !in evidence ==> old(evidence)[k].exchange == x
        invariant forall k :: k in evidence && k !in pending ==> evidence[k].exchange != x
        decreases |pending|
      {
        var key :| key in pending;
        pending := pending - {key};
        if evidence[key].exchange == x {
          evidence := evidence - {key};
        }
      }
    }

    /** All or nothing: a bad item, or none at all, leaves the registry as it was. */
    method ReplaceExchangeMarketFeeEvidence(exchange: string, raws: seq<RawEvidence>, now: int) returns (ok: bool)
      modifies this
      ensures ok == Replaced(old(evidence), exchange, raws, now).Some?
      ensures ok <==> NormExchange(exchange) != "" && raws != []
                      && forall i :: 0 <= i < |raws| ==> Normalized(NormExchange(exchange), raws[i], now).Ok?
      ensures evidence == Evicting(old(evidence), Replace(exchange, raws), now)
      ensures WellKeyed(old(evidence)) ==> WellKeyed(evidence)
    {
      var x := NormExchange(exchange);
      if x == "" {
        return false;
      }
      NormalizedAreItems(x, raws, now);
      AllOrNothing(x, raws, now);
      var normalized := NormalizeEach(x, raws, now);
      if normalized.Err? || normalized.value == [] {
        return false;
      }
      NormExchangeFixed(exchange);
      ClearDynamicFeeEvidence(Some(x));
      if WellKeyed(evidence) {
        StoredWellKeyed(evidence, x, normalized.value);
      }
      StoreEach(x, normalized.value);
      return true;
    }

    method StoreEach(exchange: string, items: seq<Evidence>)
      modifies this
      ensures evidence == Stored(old(evidence), exchange, items)
    {
      for i := 0 to |items|
        invariant evidence == Stored(old(evidence), exchange, items[..i])
      {
        assert items[..i + 1][..i] == items[..i];
        evidence := evidence[Key(exchange, items[i].market.GetOr("")) := items[i]];
      }
      assert items[..|items|] == items;
    }
  }

  method NormalizeEach(expected: string, raws: seq<RawEvidence>, now: int) returns (result: Result<seq<Evidence>>)
    ensures result == NormalizeAll(expected, raws, now)
  {
    var items := [];
    for i := 0 to |raws|
      invariant NormalizeAll(expected, raws[..i], now) == Ok(items)
    {
      assert raws[..i + 1][..i] == raws[..i];
      var item := Normalized(expected, raws[i], now);
      if item.Err? {
        BadItemRefuses(expected, raws, now, i);
        return Err;
      }
      items := items + [item.value];
    }
    assert raws[..|raws|] == raws;
    return Ok(items);
  }

  lemma {:induction false} BadItemRefuses(expected: string, raws: seq<RawEvidence>, now: int, i: nat)
    requires i < |raws| && Normalized(expected, raws[i], now).Err?
    ensures NormalizeAll(expected, raws, now).Err?
  {
    if i < |raws| - 1 {
      BadItemRefuses(expected, raws[..|raws| - 1], now, i);
    }
  }
}
