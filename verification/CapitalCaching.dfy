/**
  The engine's cache of reference capitals over a run of requests: how old an answer can be, and that
  dropping expired entries from a crowded cache is never seen.
 */
module CapitalCaching {
  import opened Wrappers
  import opened PairScan
  import opened OpportunityRules

  datatype Request = Request(ports: Ports, pair: Pair, amount: real)

  ghost predicate ClockRuns(requests: seq<Request>) {
    forall i, j :: 0 <= i < j < |requests| ==> requests[i].ports.now <= requests[j].ports.now
  }

  function Asset(r: Request): Option<string> { SharedQuoteAsset(r.ports, r.pair) }

  function Respond(cache: CapitalCache, r: Request): (Option<real>, CapitalCache) {
    ReferenceCapital(r.ports, cache, r.pair, r.amount)
  }

  function CacheAfter(requests: seq<Request>, n: nat): CapitalCache
    requires n <= |requests|
  {
    if n == 0 then map[] else Respond(CacheAfter(requests, n - 1), requests[n - 1]).1
  }

  function ResponseTo(requests: seq<Request>, n: nat): Option<real>
    requires n < |requests|
  {
    Respond(CacheAfter(requests, n), requests[n]).0
  }

  /** What converting for the request gives, if it is asked for an asset at all. */
  function Converted(r: Request): Option<Conversion> {
    if Asset(r).None? || r.amount <= 0.0 then None else r.ports.convert(Asset(r).value, r.amount)
  }

  /** The entry is what converting for this request gave. */
  predicate MadeBy(r: Request, key: (string, real), entry: Capital) {
    && Asset(r) == Some(key.0) && r.amount == key.1 && Converted(r).Some? && Converted(r).value.quantity > 0.0
    && entry == Capital(Converted(r).value.quantity, r.ports.now, Converted(r).value.expiresAt)
  }

  /** A request that has to convert, and succeeds. */
  predicate Renews(cache: CapitalCache, r: Request) {
    && Asset(r).Some? && Asset(r).value != "INR" && !UsableCapital(cache, (Asset(r).value, r.amount), r.ports.now)
    && Converted(r).Some? && Converted(r).value.quantity > 0.0
  }

  function Made(r: Request): Capital
    requires Converted(r).Some?
  {
    Capital(Converted(r).value.quantity, r.ports.now, Converted(r).value.expiresAt)
  }

  /** The cache with what the request converted, before anything is dropped. */
  function Renewed(cache: CapitalCache, r: Request): CapitalCache {
    if Renews(cache, r) then cache[(Asset(r).value, r.amount) := Made(r)] else cache
  }

  lemma RespondIs(cache: CapitalCache, r: Request)
    ensures Respond(cache, r).1 == if Renews(cache, r) then Trimmed(Renewed(cache, r), r.ports.now) else cache
  {
  }

  /** One request: entries stay as they are or are made anew by it, and only expired ones are dropped. */
  lemma RespondTouches(cache: CapitalCache, r: Request)
    ensures var renewed, after := Renewed(cache, r), Respond(cache, r).1;
            && (forall k :: k in after ==> k in renewed && after[k] == renewed[k])
            && (forall k :: k in renewed && k !in after ==> renewed[k].expiresAt <= r.ports.now)
            && (forall k :: k in renewed ==> (k in cache && renewed[k] == cache[k]) || MadeBy(r, k, renewed[k]))
  {
    RespondIs(cache, r);
  }

  /** An answer in a foreign asset is the amount converted for it now, or a cached one still usable. */
  lemma RespondAnswers(cache: CapitalCache, r: Request)
    requires Respond(cache, r).0.Some? && Asset(r) != Some("INR")
    ensures Asset(r).Some?
    ensures var key, answer := (Asset(r).value, r.amount), Respond(cache, r).0.value;
            || (key in cache && cache[key].quoteCapital == answer && r.ports.now - cache[key].generatedAt <= 250
                && cache[key].expiresAt > r.ports.now)
            || (Converted(r).Some? && Converted(r).value.quantity == answer > 0.0)
  {
  }

  lemma {:induction false} EntryOrigin(requests: seq<Request>, n: nat, key: (string, real)) returns (j: nat)
    requires n <= |requests| && key in CacheAfter(requests, n)
    ensures j < n && MadeBy(requests[j], key, CacheAfter(requests, n)[key])
  {
    RespondTouches(CacheAfter(requests, n - 1), requests[n - 1]);
    if MadeBy(requests[n - 1], key, CacheAfter(requests, n)[key]) {
      j := n - 1;
    } else {
      j := EntryOrigin(requests, n - 1, key);
    }
  }

  /**
    Over any run, an answer in a foreign asset was converted for the same asset and amount, either by
    this very request or by an earlier one at most 250 ms before whose conversion has not expired.
   */
  lemma CapitalIsRecent(requests: seq<Request>, n: nat) returns (j: nat)
    requires n < |requests| && ResponseTo(requests, n).Some? && Asset(requests[n]) != Some("INR")
    ensures j <= n && Asset(requests[j]) == Asset(requests[n]) && requests[j].amount == requests[n].amount
    ensures Converted(requests[j]).Some? && Converted(requests[j]).value.quantity == ResponseTo(requests, n).value > 0.0
    ensures j < n ==>
              && requests[n].ports.now - requests[j].ports.now <= 250
              && Converted(requests[j]).value.expiresAt > requests[n].ports.now
  {
    var cache := CacheAfter(requests, n);
    RespondAnswers(cache, requests[n]);
    if Converted(requests[n]).Some? && Converted(requests[n]).value.quantity == ResponseTo(requests, n).value > 0.0 {
      j := n;
    } else {
      j := EntryOrigin(requests, n, (Asset(requests[n]).value, requests[n].amount));
    }
  }

  lemma UsableStays(cache: CapitalCache, r: Request, key: (string, real))
    requires UsableCapital(cache, key, r.ports.now)
    ensures key in Respond(cache, r).1 && Respond(cache, r).1[key] == cache[key]
  {
    RespondTouches(cache, r);
  }

  lemma MadeIsCached(cache: CapitalCache, r: Request)
    requires Renews(cache, r) && Made(r).expiresAt > r.ports.now
    ensures var key := (Asset(r).value, r.amount);
            key in Respond(cache, r).1 && Respond(cache, r).1[key] == Made(r)
  {
    RespondTouches(cache, r);
  }

  /** What request n converted stays cached for 250 ms, until it expires. */
  lemma {:induction false} EntryStays(requests: seq<Request>, n: nat, m: nat)
    requires n < m < |requests| && ClockRuns(requests) && Renews(CacheAfter(requests, n), requests[n])
    requires requests[m].ports.now - requests[n].ports.now <= 250
    requires Made(requests[n]).expiresAt > requests[m].ports.now
    ensures var cache, key := CacheAfter(requests, m), (Asset(requests[n]).value, requests[n].amount);
            key in cache && cache[key] == Made(requests[n])
  {
    var before, r := CacheAfter(requests, m - 1), requests[m - 1];
    assert requests[n].ports.now <= r.ports.now <= requests[m].ports.now;
    if n == m - 1 {
      MadeIsCached(before, r);
    } else {
      EntryStays(requests, n, m - 1);
      UsableStays(before, r, (Asset(requests[n]).value, requests[n].amount));
    }
  }

  /** So the same asset and amount asked again gets the same answer, whatever converting gives by then. */
  lemma CapitalRepeats(requests: seq<Request>, n: nat, m: nat)
    requires n < m < |requests| && ClockRuns(requests) && Renews(CacheAfter(requests, n), requests[n])
    requires Asset(requests[m]) == Asset(requests[n]) && requests[m].amount == requests[n].amount
    requires requests[m].ports.now - requests[n].ports.now <= 250
    requires Converted(requests[n]).value.expiresAt > requests[m].ports.now
    ensures ResponseTo(requests, n) == ResponseTo(requests, m) == Some(Converted(requests[n]).value.quantity)
  {
    EntryStays(requests, n, m);
  }

  // ---- dropping expired entries is never seen ----

  function Answers(cache: CapitalCache, requests: seq<Request>, drops: bool): seq<Option<real>>
    decreases |requests|
  {
    if requests == [] then []
    else
      var r := requests[0];
      [Respond(cache, r).0] + Answers(if drops then Respond(cache, r).1 else Renewed(cache, r), requests[1..], drops)
  }

  lemma AnswersStep(requests: seq<Request>, n: nat)
    requires n < |requests|
    ensures Answers(CacheAfter(requests, n), requests[n..], true)
         == [ResponseTo(requests, n)] + Answers(CacheAfter(requests, n + 1), requests[n + 1..], true)
  {
    assert requests[n..][0] == requests[n] && requests[n..][1..] == requests[n + 1..];
  }

  lemma ConsAt<T>(x: T, rest: seq<T>, i: nat)
    requires i < |rest| + 1
    ensures ([x] + rest)[i] == if i == 0 then x else rest[i - 1]
  {
  }

  lemma {:induction false} AnswerAt(requests: seq<Request>, n: nat, i: nat)
    requires n <= i <= |requests|
    ensures var answers := Answers(CacheAfter(requests, n), requests[n..], true);
            |answers| == |requests| - n && (i < |requests| ==> answers[i - n] == ResponseTo(requests, i))
    decreases |requests| - n
  {
    if n < |requests| {
      AnswersStep(requests, n);
      AnswerAt(requests, n + 1, Max(n + 1, i));
      if i < |requests| {
        ConsAt(ResponseTo(requests, n), Answers(CacheAfter(requests, n + 1), requests[n + 1..], true), i - n);
      }
    }
  }

  /** They are the responses of the run, each to its own request. */
  lemma AnswersAreAll(requests: seq<Request>)
    ensures var answers := Answers(map[], requests, true);
            |answers| == |requests| && forall i :: 0 <= i < |requests| ==> answers[i] == ResponseTo(requests, i)
  {
    assert requests[0..] == requests;
    AnswerAt(requests, 0, 0);
    forall i | 0 <= i < |requests| ensures Answers(map[], requests, true)[i] == ResponseTo(requests, i) {
      AnswerAt(requests, 0, i);
    }
  }

  /** The smaller cache lacks only entries of the larger that have expired. */
  ghost predicate LacksExpired(small: CapitalCache, large: CapitalCache, now: int) {
    && (forall k :: k in small ==> k in large && small[k] == large[k])
    && (forall k :: k in large && k !in small ==> large[k].expiresAt <= now)
  }

  lemma RespondAlike(small: CapitalCache, large: CapitalCache, r: Request)
    requires LacksExpired(small, large, r.ports.now)
    ensures Respond(small, r).0 == Respond(large, r).0
    ensures LacksExpired(Respond(small, r).1, Renewed(large, r), r.ports.now)
  {
    RespondTouches(small, r);
    RenewAlike(small, large, r);
  }

  lemma RenewAlike(small: CapitalCache, large: CapitalCache, r: Request)
    requires LacksExpired(small, large, r.ports.now)
    ensures Respond(small, r).0 == Respond(large, r).0
    ensures LacksExpired(Renewed(small, r), Renewed(large, r), r.ports.now)
  {
    if Asset(r).Some? {
      var key := (Asset(r).value, r.amount);
      assert UsableCapital(small, key, r.ports.now) == UsableCapital(large, key, r.ports.now);
      assert key in small ==> small[key] == large[key];
    }
  }

  lemma {:induction false} DroppingUnseen(small: CapitalCache, large: CapitalCache, requests: seq<Request>)
    requires ClockRuns(requests) && (requests != [] ==> LacksExpired(small, large, requests[0].ports.now))
    ensures Answers(small, requests, true) == Answers(large, requests, false)
    decreases |requests|
  {
    if requests != [] {
      var r := requests[0];
      RespondAlike(small, large, r);
      DroppingUnseen(Respond(small, r).1, Renewed(large, r), requests[1..]);
    }
  }

  /** Under a clock that does not go back, the answers are those of a cache that drops nothing. */
  lemma DroppingIsUnobservable(requests: seq<Request>)
    requires ClockRuns(requests)
    ensures Answers(map[], requests, true) == Answers(map[], requests, false)
  {
    DroppingUnseen(map[], map[], requests);
  }
}
