/**
  Timing calibrations: records proposed from a ready review, approved for a while and revoked, kept
  in an append-only log from which the current records are rebuilt.
 */
module Calibration {
  import opened Wrappers
  import opened Names
  import opened InsertionMap
  import opened PilotRoute
  import opened Headroom

  datatype Status = Proposed | Approved | Revoked

  /** What a proposal fixes for good. The facts stand for the evidence hash that digests them. */
  datatype Terms = Terms(
    routeKey: string, market: string, buyExchange: string, sellExchange: string, continuous: bool,
    maximumBookAgeMs: int, facts: Facts, evidenceGeneratedAt: int, proposedAt: int)

  datatype Record = Record(
    id: string, terms: Terms, status: Status, approvedAt: Option<int>, expiresAt: Option<int>, revokedAt: Option<int>)

  const MAXIMUM_APPROVAL_DURATION_MS := 86400000

  function Phrase(id: string): string { "APPROVE " + id }

  function Rank(s: Status): nat {
    match s
    case Proposed => 0
    case Approved => 1
    case Revoked => 2
  }

  /** What the constructor rebuilds: the last record of each id, ids in the order they first appear. */
  function Replay(log: seq<Record>): Entries<Record> {
    if log == [] then []
    else Insert(Replay(log[..|log| - 1]), log[|log| - 1].id, log[|log| - 1])
  }

  /** What may be logged for an id whose last record is `previous`. */
  ghost predicate Follows(previous: Option<Record>, r: Record) {
    match previous
    case None =>
      && r.status == Proposed && r.approvedAt.None? && r.expiresAt.None? && r.revokedAt.None?
      && Headroom.Ready(r.terms.facts) && Ttl(Budget(r.terms.facts)) == Some(r.terms.maximumBookAgeMs)
    case Some(p) =>
      || (p.status == Proposed && r.approvedAt.Some? && LastsFor(r)
          && r == ApprovedAs(p, r.approvedAt.value, Duration(r)))
      || (p.status == Approved && r.revokedAt.Some? && r == RevokedAs(p, r.revokedAt.value))
  }

  /** How long an approved record holds: what its own service was configured with. */
  function Duration(r: Record): int { r.expiresAt.GetOr(0) - r.approvedAt.GetOr(0) }

  predicate LastsFor(r: Record) { r.expiresAt.Some? && 0 < Duration(r) <= MAXIMUM_APPROVAL_DURATION_MS }

  function ApprovedAs(p: Record, at: int, duration: int): Record {
    p.(status := Approved, approvedAt := Some(at), expiresAt := Some(at + duration))
  }

  function RevokedAs(p: Record, at: int): Record { p.(status := Revoked, revokedAt := Some(at)) }

  ghost predicate LegalAt(log: seq<Record>, i: int)
    requires 0 <= i < |log|
  {
    Follows(Find(Replay(log[..i]), log[i].id), log[i])
  }

  ghost predicate Legal(log: seq<Record>) {
    forall i :: 0 <= i < |log| ==> LegalAt(log, i)
  }

  lemma {:induction false} ReplayPush(log: seq<Record>, r: Record)
    ensures Replay(log + [r]) == Insert(Replay(log), r.id, r)
  {
    assert (log + [r])[..|log|] == log;
  }

  lemma {:induction false} LegalPush(log: seq<Record>, r: Record)
    requires Legal(log) && Follows(Find(Replay(log), r.id), r)
    ensures Legal(log + [r])
  {
    var longer := log + [r];
    forall i | 0 <= i < |longer| ensures LegalAt(longer, i) {
      assert longer[..i] == log[..i];
      assert log[..|log|] == log;
      assert i < |log| ==> LegalAt(log, i);
    }
  }

  // ---- what a legal log says about each id ----

  /** `later` has the id, the terms and the approval of `r`, and is no less far along. */
  ghost predicate CarriesOn(r: Record, later: Record) {
    && later.id == r.id && later.terms == r.terms && Rank(later.status) >= Rank(r.status)
    && (r.approvedAt.Some? ==> later.approvedAt == r.approvedAt && later.expiresAt == r.expiresAt)
  }

  /** Approval times are set by the approval. */
  ghost predicate Timed(r: Record) { r.approvedAt.Some? ==> r.status != Proposed }

  lemma NextCarriesOn(r: Record, current: Record, next: Record)
    requires CarriesOn(r, current) && Timed(current) && Follows(Some(current), next)
    ensures CarriesOn(r, next) && Timed(next) && Rank(next.status) > Rank(r.status)
  {
  }

  /** The record current after a prefix carries on from every record of its id in that prefix. */
  lemma {:induction false} CurrentCarriesOn(log: seq<Record>, i: nat, j: nat)
    requires Legal(log) && i < j <= |log|
    ensures var current := Find(Replay(log[..j]), log[i].id);
            current.Some? && CarriesOn(log[i], current.value) && Timed(current.value)
  {
    var last := log[j - 1];
    assert log[..j][..j - 1] == log[..j - 1] && LegalAt(log, j - 1);
    FindInsert(Replay(log[..j - 1]), last.id, last, log[i].id);
    if i < j - 1 {
      CurrentCarriesOn(log, i, j - 1);
      if last.id == log[i].id {
        NextCarriesOn(log[i], Find(Replay(log[..j - 1]), last.id).value, last);
      }
    } else if j > 1 && Find(Replay(log[..j - 1]), last.id).Some? {
      TimedCurrent(log, j - 1, last.id);
    }
  }

  lemma {:induction false} TimedCurrent(log: seq<Record>, j: nat, id: string)
    requires Legal(log) && j <= |log|
    ensures var current := Find(Replay(log[..j]), id); current.Some? ==> Timed(current.value)
  {
    if j > 0 {
      assert log[..j][..j - 1] == log[..j - 1] && LegalAt(log, j - 1);
      FindInsert(Replay(log[..j - 1]), log[j - 1].id, log[j - 1], id);
      TimedCurrent(log, j - 1, id);
      TimedCurrent(log, j - 1, log[j - 1].id);
    }
  }

  /**
    Records of one id only move forward, from proposed through approved to revoked, and change nothing
    but their status and its times.
   */
  lemma StatusOnlyAdvances(log: seq<Record>, i: nat, j: nat)
    requires Legal(log) && i < j < |log| && log[i].id == log[j].id
    ensures Rank(log[i].status) < Rank(log[j].status) && CarriesOn(log[i], log[j])
  {
    CurrentCarriesOn(log, i, j);
    assert LegalAt(log, j);
    NextCarriesOn(log[i], Find(Replay(log[..j]), log[j].id).value, log[j]);
  }

  /** Once revoked, an id is revoked in every later state. */
  lemma {:induction false} RevokedForGood(log: seq<Record>, i: nat)
    requires Legal(log) && i < |log| && log[i].status == Revoked
    ensures Find(Replay(log), log[i].id).Some? && Find(Replay(log), log[i].id).value.status == Revoked
  {
    CurrentCarriesOn(log, i, |log|);
    assert log[..|log|] == log;
  }

  ghost predicate RecordSound(r: Record) {
    && Headroom.Ready(r.terms.facts) && Ttl(Budget(r.terms.facts)) == Some(r.terms.maximumBookAgeMs)
    && (r.status != Proposed ==> r.approvedAt.Some? && LastsFor(r))
    && (r.status == Revoked <==> r.revokedAt.Some?)
    && (r.status == Proposed ==> r.approvedAt.None?)
  }

  /** The map holds each id once, under itself, whatever was logged. */
  lemma {:induction false} ReplayKeys(log: seq<Record>)
    ensures Distinct(Replay(log))
    ensures forall i :: 0 <= i < |Replay(log)| ==> Replay(log)[i].0 == Replay(log)[i].1.id
  {
    if log != [] {
      var before, r := Replay(log[..|log| - 1]), log[|log| - 1];
      ReplayKeys(log[..|log| - 1]);
      InsertKeys(before, r.id, r);
      forall i | 0 <= i < |Replay(log)| ensures Replay(log)[i].0 == Replay(log)[i].1.id {
        InsertAt(before, r.id, r, i);
      }
    }
  }

  lemma LegalBefore(log: seq<Record>, n: nat)
    requires Legal(log) && n <= |log|
    ensures Legal(log[..n])
  {
    forall i | 0 <= i < n ensures LegalAt(log[..n], i) {
      assert log[..n][..i] == log[..i] && LegalAt(log, i);
    }
  }

  lemma {:induction false} ReplayedAreSound(log: seq<Record>)
    requires Legal(log)
    ensures forall i :: 0 <= i < |Replay(log)| ==> RecordSound(Replay(log)[i].1)
  {
    if log != [] {
      var n := |log| - 1;
      var before, r := Replay(log[..n]), log[n];
      LegalBefore(log, n);
      ReplayedAreSound(log[..n]);
      ReplayKeys(log[..n]);
      assert LegalAt(log, n);
      FindIsIn(before, r.id);
      NextIsSound(Find(before, r.id), r);
      forall i | 0 <= i < |Replay(log)| ensures RecordSound(Replay(log)[i].1) {
        InsertAt(before, r.id, r, i);
      }
    }
  }

  lemma NextIsSound(previous: Option<Record>, r: Record)
    requires Follows(previous, r) && (previous.Some? ==> RecordSound(previous.value))
    ensures RecordSound(r)
  {
  }

  lemma {:induction false} KeyIsId(log: seq<Record>, id: string)
    ensures Find(Replay(log), id).Some? ==> Find(Replay(log), id).value.id == id
  {
    ReplayKeys(log);
    FindIsIn(Replay(log), id);
  }

  // ---- the approved calibration of a route ----

  predicate Current(r: Record, market: string, buy: string, sell: string, now: int) {
    && r.status == Approved && r.expiresAt.Some? && r.expiresAt.value >= now
    && r.terms.market == market && r.terms.buyExchange == buy && r.terms.sellExchange == sell
  }

  function ApprovedAt(r: Record): int { r.approvedAt.GetOr(0) }

  /** `filter(...).sort(newest approval first)[0]` */
  function Newest(s: Entries<Record>, market: string, buy: string, sell: string, now: int): (r: Option<nat>)
    ensures r.None? ==> forall i :: 0 <= i < |s| ==> !Current(s[i].1, market, buy, sell, now)
    ensures r.Some? ==> r.value < |s| && Current(s[r.value].1, market, buy, sell, now)
    ensures r.Some? ==> forall i :: 0 <= i < |s| && Current(s[i].1, market, buy, sell, now) ==>
                          ApprovedAt(s[i].1) < ApprovedAt(s[r.value].1)
                            || (ApprovedAt(s[i].1) == ApprovedAt(s[r.value].1) && r.value <= i)
  {
    if s == [] then None
    else
      var n := |s| - 1;
      var best := Newest(s[..n], market, buy, sell, now);
      if Current(s[n].1, market, buy, sell, now) && (best.None? || ApprovedAt(s[n].1) > ApprovedAt(s[best.value].1))
      then Some(n) else best
  }

  // ---- the service ----

  class CalibrationService {
    const duration: int
    const digest: (string, Facts, int) -> string
    var log: seq<Record>
    var latest: Entries<Record>

    ghost predicate Valid()
      reads this
    {
      0 < duration <= MAXIMUM_APPROVAL_DURATION_MS && latest == Replay(log)
    }

    /** Opens the service on whatever was stored, under whatever durations its records were approved. */
    constructor (stored: seq<Record>, duration: int, digest: (string, Facts, int) -> string)
      requires 0 < duration <= 24 * 60 * 60 * 1000
      ensures Valid() && log == stored && this.duration == duration && this.digest == digest
    {
      this.duration, this.digest := duration, digest;
      log, latest := stored, [];
      new;
      for i := 0 to |stored|
        invariant log == stored && latest == Replay(stored[..i]) && this.duration == duration && this.digest == digest
      {
        assert stored[..i + 1][..i] == stored[..i];
        latest := Insert(latest, stored[i].id, stored[i]);
      }
      assert stored[..|stored|] == stored;
    }

    /** Appends and remembers a record; when the append fails nothing changes. */
    method Persist(record: Record, appendWorks: bool) returns (result: Result<Record>)
      requires Valid() && Follows(Find(latest, record.id), record)
      modifies this
      ensures Valid() && (Legal(old(log)) ==> Legal(log))
      ensures log == if appendWorks then old(log) + [record] else old(log)
      ensures result == if appendWorks then Ok(record) else Err
    {
      if !appendWorks {
        return Err;
      }
      ReplayPush(log, record);
      if Legal(log) {
        LegalPush(log, record);
      }
      log := log + [record];
      latest := Insert(latest, record.id, record);
      return Ok(record);
    }

    function IdOf(routeKey: string, facts: Facts, now: int): string { "timing-" + digest(routeKey, facts, now) }

    /**
      A proposal is made from a ready review and from nothing else; evidence already proposed gives
      back its record and logs nothing.
     */
    method Propose(routeKey: string, market: string, buyExchange: string, sellExchange: string, facts: Facts,
                   continuous: bool, evidenceGeneratedAt: int, now: int, appendWorks: bool)
      returns (result: Result<Record>)
      requires Valid()
      modifies this
      ensures Valid() && (Legal(old(log)) ==> Legal(log))
      ensures var known := Find(old(latest), IdOf(routeKey, facts, now));
              && (result.Ok? <==> ValidTime(now) && Headroom.Ready(facts) && (known.Some? || appendWorks))
              && log == old(log) + (if result.Ok? && known.None? then [result.value] else [])
              && (result.Ok? && known.Some? ==> result.value == known.value)
              && (result.Ok? && known.None? ==>
                    result.value == Record(IdOf(routeKey, facts, now),
                      Terms(routeKey, market, buyExchange, sellExchange, continuous, Ttl(Budget(facts)).GetOr(0), facts,
                            evidenceGeneratedAt, now),
                      Proposed, None, None, None))
      ensures result.Ok? ==> Find(latest, "timing-" + digest(routeKey, facts, now)) == Some(result.value)
    {
      if !ValidTime(now) || facts.timing.None? || !facts.exactPilot {
        return Err;
      }
      if facts.pilot.None? || !PilotReady(facts.pilot.value, facts.minimumGenerations, facts.minimumSpanMs)
         || !facts.pilotIntact {
        return Err;
      }
      if !facts.timing.value.publicReady || !facts.timingIntact {
        return Err;
      }
      var review := ReviewHeadroom(facts);
      if !review.ready || review.maximumBookAgeMs.None? {
        return Err;
      }
      var id := IdOf(routeKey, facts, now);
      var existing := Find(latest, id);
      if existing.Some? {
        return Ok(existing.value);
      }
      var terms := Terms(routeKey, market, buyExchange, sellExchange, continuous, review.maximumBookAgeMs.value, facts,
                         evidenceGeneratedAt, now);
      var record := Record(id, terms, Proposed, None, None, None);
      FindInsert(latest, id, record, id);
      result := Persist(record, appendWorks);
    }

    /** Approval needs a proposed record and its exact phrase, and ends after the configured duration. */
    method Approve(idValue: string, phrase: string, now: int, appendWorks: bool) returns (result: Result<Record>)
      requires Valid()
      modifies this
      ensures Valid() && (Legal(old(log)) ==> Legal(log))
      ensures var current := Find(old(latest), Trim(idValue));
              && (result.Ok? <==> ValidTime(now) && current.Some? && current.value.status == Proposed
                                  && Trim(phrase) == "APPROVE " + current.value.id && appendWorks)
              && (result.Ok? ==>
                    result.value
                    == current.value.(status := Approved, approvedAt := Some(now), expiresAt := Some(now + duration)))
      ensures log == old(log) + if result.Ok? then [result.value] else []
    {
      if !ValidTime(now) {
        return Err;
      }
      var id := Trim(idValue);
      var current := Find(latest, id);
      if current.None? || current.value.status != Proposed {
        return Err;
      }
      if Trim(phrase) != Phrase(current.value.id) {
        return Err;
      }
      KeyIsId(log, id);
      result := Persist(ApprovedAs(current.value, now, duration), appendWorks);
    }

    method Revoke(idValue: string, now: int, appendWorks: bool) returns (result: Result<Record>)
      requires Valid()
      modifies this
      ensures Valid() && (Legal(old(log)) ==> Legal(log))
      ensures var current := Find(old(latest), Trim(idValue));
              && (result.Ok? <==> ValidTime(now) && current.Some? && current.value.status == Approved && appendWorks)
              && (result.Ok? ==> result.value == current.value.(status := Revoked, revokedAt := Some(now)))
      ensures log == old(log) + if result.Ok? then [result.value] else []
    {
      if !ValidTime(now) {
        return Err;
      }
      var id := Trim(idValue);
      var current := Find(latest, id);
      if current.None? || current.value.status != Approved {
        return Err;
      }
      KeyIsId(log, id);
      result := Persist(RevokedAs(current.value, now), appendWorks);
    }

    /**
      The calibration in force for a route: the newest approved record not yet expired. Where the
      stored records were written by such services, it was approved no longer ago than the duration its
      own service was configured with, at most a day, never revoked and from a ready review.
     */
    method GetApprovedRouteCalibration(marketName: string, buyName: string, sellName: string, now: int)
      returns (result: Result<Option<Record>>)
      requires Valid()
      ensures result.Err? <==> now <= 0 || now > MAX_SAFE_INTEGER
      ensures var market, buy, sell :=
                Strip(NormMarket(marketName), NotAlphanumeric), NormExchange(buyName), NormExchange(sellName);
              result == Ok(None) <==> ValidTime(now) && forall i :: 0 <= i < |latest| ==>
                !(latest[i].1.status == Approved && latest[i].1.expiresAt.Some? && now <= latest[i].1.expiresAt.value
                  && latest[i].1.terms.market == market
                  && latest[i].1.terms.buyExchange == buy && latest[i].1.terms.sellExchange == sell)
      ensures result.Ok? && result.value.Some? ==>
                var r := result.value.value;
                && r.status == Approved && r.expiresAt.Some? && now <= r.expiresAt.value
                && r.terms.market == Strip(NormMarket(marketName), NotAlphanumeric)
                && r.terms.buyExchange == NormExchange(buyName) && r.terms.sellExchange == NormExchange(sellName)
                && Find(latest, r.id) == Some(r)
                && forall i ::
                     0 <= i < |latest| && latest[i].1.status == Approved && latest[i].1.expiresAt.Some?
                     && now <= latest[i].1.expiresAt.value && latest[i].1.terms.market == r.terms.market
                     && latest[i].1.terms.buyExchange == r.terms.buyExchange
                     && latest[i].1.terms.sellExchange == r.terms.sellExchange ==>
                       latest[i].1.approvedAt.GetOr(0) <= r.approvedAt.GetOr(0)
      ensures result.Ok? && result.value.Some? && Legal(log) ==>
                var r := result.value.value;
                && RecordSound(r) && r.revokedAt.None? && r.approvedAt.Some?
                && now - r.approvedAt.value <= r.expiresAt.value - r.approvedAt.value <= 24 * 60 * 60 * 1000
    {
      if !ValidTime(now) {
        return Err;
      }
      var market, buy, sell :=
        Strip(NormMarket(marketName), NotAlphanumeric), NormExchange(buyName), NormExchange(sellName);
      var newest := Newest(latest, market, buy, sell, now);
      ReplayKeys(log);
      if Legal(log) {
        ReplayedAreSound(log);
      }
      if newest.None? {
        return Ok(None);
      }
      FindAt(latest, newest.value);
      return Ok(Some(latest[newest.value].1));
    }
  }
}
