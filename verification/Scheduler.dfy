/**
  The event-driven scan scheduler: microtask, event timer, interval timer, re-entrant updates and
  the in-progress flag, as steps under a clock that never goes back.

  `Step` is one handler; a run is a sequence of handlers. A scan is split into its start and its
  finish, so that the updates it causes itself can arrive in between.
 */
module Scheduler {
  import opened Wrappers

  datatype Trigger = Startup | Timer | MarketData | Manual

  datatype Config = Config(intervalMs: int, runImmediately: bool, eventDriven: bool, minimumGapMs: int)

  predicate ValidConfig(c: Config) { c.intervalMs >= 1000 && c.minimumGapMs >= 10 }

  lemma ConfigExactly(c: Config)
    ensures ValidConfig(c) <==> c.intervalMs >= 1000 && c.minimumGapMs >= 10
  {
  }

  datatype State = State(
    running: bool,
    subscribed: bool,
    inProgress: bool,
    pending: bool,            // an update arrived while a scan was in progress
    microtask: bool,          // the flag; `queued` counts the callbacks really in the queue
    queued: nat,
    timerDue: Option<int>,    // the armed event timer, if any
    lastStartedAt: Option<int>)

  const INITIAL := State(false, false, false, false, false, 0, None, None)

  datatype Event =
    | Start(at: int)
    | Stop(at: int)
    | Update(admitted: bool, receivedAt: int, at: int)  // the handler reads the clock twice
    | Microtask(at: int)
    | EventTimer(at: int)
    | Interval(at: int)
    | RunNow(at: int)
    | Finish(at: int)

  // ---- handlers ----

  function Begin(s: State, trigger: Trigger, at: int): State {
    if !s.running then s
    else if s.inProgress then (if trigger.MarketData? then s.(pending := true) else s)
    else s.(inProgress := true, lastStartedAt := Some(at))
  }

  function Schedule(c: Config, s: State, now: int): State {
    if !s.running || s.timerDue.Some? || s.microtask then s
    else
      var earliest := if s.lastStartedAt.None? then now else s.lastStartedAt.value + c.minimumGapMs;
      var delay := Max(0, earliest - now);
      if delay == 0 then s.(microtask := true, queued := s.queued + 1)
      else s.(timerDue := Some(now + delay))
  }

  function OnUpdate(c: Config, s: State, admitted: bool, receivedAt: int, at: int): State {
    if !s.subscribed || !s.running || !admitted then s
    else if s.inProgress then s.(pending := true)
    else if s.microtask then s
    else if s.timerDue.Some? then
      if receivedAt >= s.timerDue.value then Schedule(c, s.(timerDue := None), at) else s
    else Schedule(c, s, at)
  }

  function Step(c: Config, s: State, e: Event): State {
    match e
    case Start(at) =>
      if s.running then s
      else
        var s' := s.(running := true, subscribed := c.eventDriven);
        if c.runImmediately then Begin(s', Startup, at) else s'
    case Stop(at) =>
      s.(running := false, subscribed := false, pending := false, microtask := false, timerDue := None)
    case Update(admitted, receivedAt, at) => OnUpdate(c, s, admitted, receivedAt, at)
    case Microtask(at) =>
      if s.queued == 0 then s
      else Begin(s.(microtask := false, queued := s.queued - 1), MarketData, at)
    case EventTimer(at) => Begin(s.(timerDue := None), MarketData, at)
    case Interval(at) => Begin(s, Timer, at)
    case RunNow(at) => Begin(s, Manual, at)
    case Finish(at) =>
      var s' := s.(inProgress := false);
      if s'.pending then Schedule(c, s'.(pending := false), at) else s'
  }

  /** Which scan, if any, this handler starts. */
  function Starts(c: Config, s: State, e: Event): Option<Trigger> {
    if s.inProgress then None
    else
      match e
      case Start(_) => if !s.running && c.runImmediately then Some(Startup) else None
      case Microtask(_) => if s.running && s.queued > 0 then Some(MarketData) else None
      case EventTimer(_) => if s.running then Some(MarketData) else None
      case Interval(_) => if s.running then Some(Timer) else None
      case RunNow(_) => if s.running then Some(Manual) else None
      case _ => None
  }

  /** The handler can run now, at a time the clock allows. */
  predicate Enabled(s: State, clock: int, e: Event) {
    && clock <= e.at
    && match e
       case Update(_, receivedAt, at) => clock <= receivedAt <= at
       case Microtask(_) => s.queued > 0
       case EventTimer(at) => s.timerDue.Some? && s.timerDue.value <= at
       case Interval(_) => s.running
       case Finish(_) => s.inProgress
       case _ => true
  }

  predicate Legal(c: Config, s: State, clock: int, es: seq<Event>)
    decreases |es|
  {
    es == [] || (Enabled(s, clock, es[0]) && Legal(c, Step(c, s, es[0]), es[0].at, es[1..]))
  }

  function RunAll(c: Config, s: State, es: seq<Event>): State
    decreases |es|
  {
    if es == [] then s else RunAll(c, Step(c, s, es[0]), es[1..])
  }

  predicate AnyScanStarts(c: Config, s: State, es: seq<Event>)
    decreases |es|
  {
    es != [] && (Starts(c, s, es[0]).Some? || AnyScanStarts(c, Step(c, s, es[0]), es[1..]))
  }

  predicate NeverStops(es: seq<Event>) { forall i :: 0 <= i < |es| ==> !es[i].Stop? }

  // ---- what every reachable state satisfies ----

  predicate Inv(s: State) {
    && (s.microtask ==> s.running && s.queued > 0)
    && (s.timerDue.Some? ==> s.running)
    && !(s.microtask && s.timerDue.Some?)
    && (s.pending ==> s.inProgress && s.running)
    && (s.subscribed ==> s.running)
  }

  /** The microtask flag and the event timer are never both set, over every run. */
  lemma {:induction false} RunKeepsInv(c: Config, s: State, es: seq<Event>)
    requires Inv(s)
    ensures Inv(RunAll(c, s, es))
    decreases |es|
  {
    if es != [] {
      RunKeepsInv(c, Step(c, s, es[0]), es[1..]);
    }
  }

  // ---- what starts a scan ----

  /**
    A handler starts a scan exactly when it leaves one in progress that was not, and then the scan's time
    is its own; any other handler leaves the time of the last start alone. A stopped runner starts none,
    except by being started.
   */
  lemma StartsAreScans(c: Config, s: State, clock: int, e: Event)
    requires Inv(s) && Enabled(s, clock, e)
    ensures Starts(c, s, e).Some? <==> !s.inProgress && Step(c, s, e).inProgress
    ensures Step(c, s, e).lastStartedAt == if Starts(c, s, e).Some? then Some(e.at) else s.lastStartedAt
    ensures Starts(c, s, e).Some? && !s.running ==> e.Start? && c.runImmediately
    ensures s.inProgress && !Step(c, s, e).inProgress ==> e.Finish?
  {
  }

  /** Idle and running, each trigger starts its scan; `running` and the subscription follow start and stop alone. */
  lemma TriggersStartScans(c: Config, s: State, clock: int, e: Event)
    requires Inv(s) && Enabled(s, clock, e)
    ensures s.running && !s.inProgress ==>
              (Starts(c, s, e) == if e.Microtask? || e.EventTimer? then Some(MarketData)
                                  else if e.Interval? then Some(Timer)
                                  else if e.RunNow? then Some(Manual)
                                  else None)
    ensures !s.running && !s.inProgress && e.Start? && c.runImmediately ==> Starts(c, s, e) == Some(Startup)
    ensures Step(c, s, e).running == if e.Start? then true else if e.Stop? then false else s.running
    ensures Step(c, s, e).subscribed
         == if e.Start? && !s.running then c.eventDriven else if e.Stop? then false else s.subscribed
  {
  }

  /** A wake-up is taken over at the earliest time the gap allows: at once, or by a timer for exactly then. */
  lemma WakeupIsTimed(c: Config, s: State, clock: int, e: Event)
    requires Inv(s) && Enabled(s, clock, e) && !Armed(s) && Armed(Step(c, s, e)) && !Step(c, s, e).inProgress
    ensures (e.Update? && e.admitted && s.subscribed) || (e.Finish? && s.pending)
    ensures var due := if s.lastStartedAt.None? then e.at else s.lastStartedAt.value + c.minimumGapMs;
            && Step(c, s, e).microtask == (due <= e.at)
            && Step(c, s, e).timerDue == (if due <= e.at then None else Some(due))
            && Step(c, s, e).queued == s.queued + (if due <= e.at then 1 else 0)
  {
  }

  /**
    An admitted update outside a scan: nothing where a callback is queued or the timer is not yet due,
    otherwise the wake-up at the earliest time the gap allows.
   */
  lemma UpdateOutsideScan(c: Config, s: State, receivedAt: int, at: int)
    requires Inv(s) && s.subscribed && !s.inProgress
    ensures var earliest := if s.lastStartedAt.None? then at else s.lastStartedAt.value + c.minimumGapMs;
            Step(c, s, Update(true, receivedAt, at)) ==
            if s.microtask || (s.timerDue.Some? && receivedAt < s.timerDue.value) then s
            else if earliest <= at then s.(timerDue := None, microtask := true, queued := s.queued + 1)
            else s.(timerDue := Some(earliest))
  {
  }

  /** During a scan an admitted update and the two event callbacks leave a scan owed, the other triggers nothing. */
  lemma BusyScannerOwes(c: Config, s: State, clock: int, e: Event)
    requires Inv(s) && s.inProgress && s.subscribed && Enabled(s, clock, e)
    ensures Step(c, s, e).pending == if e.Stop? || e.Finish? then false
                                     else s.pending || (e.Update? && e.admitted) || e.Microtask? || e.EventTimer?
    ensures e.Interval? || e.RunNow? || e.Start? ==> Step(c, s, e) == s
    ensures e.Update? ==> Step(c, s, e) == s.(pending := s.pending || e.admitted)
  {
  }

  /** An update the scanner is not subscribed to, or does not admit, changes nothing. */
  lemma IgnoredUpdate(c: Config, s: State, admitted: bool, receivedAt: int, at: int)
    requires Inv(s) && (!s.subscribed || !admitted)
    ensures Step(c, s, Update(admitted, receivedAt, at)) == s
  {
  }

  /** Stopping forgets everything owed; only a callback already queued and a scan in progress remain. */
  lemma StoppedIsQuiet(c: Config, s: State, at: int)
    requires Inv(s)
    ensures Step(c, s, Stop(at)) == State(false, false, s.inProgress, false, false, s.queued, None, s.lastStartedAt)
  {
  }

  // ---- no lost wake-up ----

  /** A scan is coming: queued, timed, or owed by the scan in progress. */
  predicate Armed(s: State) {
    s.running && (s.microtask || s.timerDue.Some? || (s.inProgress && s.pending))
  }

  lemma {:induction false} ArmedUntilScan(c: Config, s: State, clock: int, es: seq<Event>)
    requires Inv(s) && Armed(s) && Legal(c, s, clock, es) && NeverStops(es)
    requires !AnyScanStarts(c, s, es)
    ensures Armed(RunAll(c, s, es))
    decreases |es|
  {
    if es != [] {
      var s' := Step(c, s, es[0]);
      assert Armed(s');
      assert !AnyScanStarts(c, s', es[1..]);
      ArmedUntilScan(c, s', es[0].at, es[1..]);
    }
  }

  /** After an admitted update a scan is coming in every later state, until one starts or `stop` runs. */
  lemma {:induction false} NoLostWakeup(c: Config, s: State, clock: int, update: Event, later: seq<Event>)
    requires Inv(s) && s.subscribed && update.Update? && update.admitted
    requires Legal(c, s, clock, [update] + later) && NeverStops(later)
    requires !AnyScanStarts(c, Step(c, s, update), later)
    ensures Armed(RunAll(c, s, [update] + later))
  {
    var es := [update] + later;
    assert es[0] == update && es[1..] == later;
    ArmedUntilScan(c, Step(c, s, update), update.at, later);
  }

  /** What is coming can come: at most a finish and one callback away from a market-data scan. */
  lemma ArmedLeadsToScan(c: Config, s: State, clock: int) returns (finish: seq<Event>, callback: Event)
    requires Inv(s) && Armed(s)
    ensures |finish| <= 1 && Legal(c, s, clock, finish + [callback])
    ensures Starts(c, RunAll(c, s, finish), callback) == Some(MarketData)
  {
    finish := if s.inProgress then [Finish(clock)] else [];
    var s' := RunAll(c, s, finish);
    assert s' == if s.inProgress then RunAll(c, Step(c, s, Finish(clock)), []) else s;
    callback := if s'.microtask then Microtask(clock) else EventTimer(Max(clock, s'.timerDue.value));
    var es := finish + [callback];
    assert Legal(c, s', clock, [callback]);
    if s.inProgress {
      assert es[0] == Finish(clock) && es[1..] == [callback];
    } else {
      assert es == [callback];
    }
  }

  // ---- spacing of market-data scans ----

  /** Start times of the market-data scans of a run. */
  function MarketScans(c: Config, s: State, es: seq<Event>): seq<int>
    decreases |es|
  {
    if es == [] then []
    else
      (if Starts(c, s, es[0]) == Some(MarketData) then [es[0].at] else [])
      + MarketScans(c, Step(c, s, es[0]), es[1..])
  }

  predicate WellSpaced(c: Config, times: seq<int>) {
    forall i, j :: 0 <= i < j < |times| ==> times[j] - times[i] >= c.minimumGapMs
  }

  /** No callback from before the last `stop` is still in the queue. */
  predicate NoStaleCallback(s: State) { s.queued == if s.microtask then 1 else 0 }

  /** The next market-data scan cannot start before `m` plus the gap. */
  predicate Spaced(c: Config, s: State, clock: int, m: int) {
    && NoStaleCallback(s) && m <= clock
    && s.lastStartedAt.Some? && s.lastStartedAt.value >= m
    && (s.microtask ==> clock >= m + c.minimumGapMs)
    && (s.timerDue.Some? ==> s.timerDue.value >= m + c.minimumGapMs)
  }

  lemma SpacedStep(c: Config, s: State, clock: int, m: int, e: Event)
    requires Inv(s) && Spaced(c, s, clock, m) && Enabled(s, clock, e) && !e.Stop?
    ensures if Starts(c, s, e) == Some(MarketData)
            then e.at >= m + c.minimumGapMs && Spaced(c, Step(c, s, e), e.at, e.at)
            else Spaced(c, Step(c, s, e), e.at, m)
  {
  }

  lemma {:induction false} SpacedRun(c: Config, s: State, clock: int, m: int, es: seq<Event>)
    requires ValidConfig(c)
    requires Inv(s) && Spaced(c, s, clock, m) && Legal(c, s, clock, es) && NeverStops(es)
    ensures WellSpaced(c, [m] + MarketScans(c, s, es))
    decreases |es|
  {
    if es != [] {
      SpacedStep(c, s, clock, m, es[0]);
      var next := Step(c, s, es[0]);
      var rest := MarketScans(c, next, es[1..]);
      if Starts(c, s, es[0]) == Some(MarketData) {
        SpacedRun(c, next, es[0].at, es[0].at, es[1..]);
        var times := [m] + ([es[0].at] + rest);
        assert times[1..] == [es[0].at] + rest;
        assert [m] + MarketScans(c, s, es) == times;
        FirstGap(c, m, es[0].at, rest);
      } else {
        SpacedRun(c, next, es[0].at, m, es[1..]);
        assert MarketScans(c, s, es) == rest;
      }
    }
  }

  lemma FirstGap(c: Config, m: int, first: int, rest: seq<int>)
    requires WellSpaced(c, [first] + rest) && first >= m + c.minimumGapMs && ValidConfig(c)
    ensures WellSpaced(c, [m] + ([first] + rest))
  {
    var tail := [first] + rest;
    var all := [m] + tail;
    assert all[0] == m && forall i :: 0 < i < |all| ==> all[i] == tail[i - 1];
    forall i, j | 0 <= i < j < |all| ensures all[j] - all[i] >= c.minimumGapMs {
      if i == 0 && j > 1 {
        assert tail[j - 1] - tail[0] >= c.minimumGapMs;
      }
    }
  }

  /** Within one period, with no callback left over, any two market-data scans are a gap apart. */
  lemma {:induction false} CleanRunsWellSpaced(c: Config, s: State, clock: int, es: seq<Event>)
    requires ValidConfig(c)
    requires Inv(s) && s.running && NoStaleCallback(s) && Legal(c, s, clock, es) && NeverStops(es)
    ensures WellSpaced(c, MarketScans(c, s, es))
    decreases |es|
  {
    if es != [] {
      var next := Step(c, s, es[0]);
      if Starts(c, s, es[0]) == Some(MarketData) {
        SpacedRun(c, next, es[0].at, es[0].at, es[1..]);
      } else {
        CleanRunsWellSpaced(c, next, es[0].at, es[1..]);
        assert MarketScans(c, s, es) == MarketScans(c, next, es[1..]);
      }
    }
  }

  lemma {:induction false} MarketScansCons(c: Config, s: State, clock: int, e: Event, es: seq<Event>)
    ensures MarketScans(c, s, [e] + es)
         == (if Starts(c, s, e) == Some(MarketData) then [e.at] else []) + MarketScans(c, Step(c, s, e), es)
    ensures Legal(c, s, clock, [e] + es) <==> Enabled(s, clock, e) && Legal(c, Step(c, s, e), e.at, es)
  {
    assert ([e] + es)[1..] == es;
  }

  /** A scan at `t` from a leftover callback, its finish, and another at `t` from what was armed. */
  lemma TwoScansAtOnce(c: Config, s: State, clock: int) returns (es: seq<Event>)
    requires ValidConfig(c)
    requires Inv(s) && s.running && !s.inProgress && !NoStaleCallback(s) && (s.microtask || s.timerDue.Some?)
    ensures Legal(c, s, clock, es) && NeverStops(es) && !WellSpaced(c, MarketScans(c, s, es))
  {
    var t := if s.microtask then clock else Max(clock, s.timerDue.value);
    var second := if s.microtask then Microtask(t) else EventTimer(t);
    var s1 := Step(c, s, Microtask(t));
    var s2 := Step(c, s1, Finish(t));
    MarketScansCons(c, s2, t, second, []);
    MarketScansCons(c, s1, t, Finish(t), [second]);
    MarketScansCons(c, s, clock, Microtask(t), [Finish(t)] + [second]);
    es := [Microtask(t)] + ([Finish(t)] + [second]);
    assert MarketScans(c, s, es) == [t] + ([] + ([t] + []));
    assert MarketScans(c, s, es)[1] - MarketScans(c, s, es)[0] == 0;
  }

  /** The same after an update has armed something, and after the scan in progress has finished. */
  lemma StaleCallbackBreaksSpacing(c: Config, s: State, clock: int) returns (es: seq<Event>)
    requires ValidConfig(c)
    requires Inv(s) && s.subscribed && !NoStaleCallback(s)
    ensures Legal(c, s, clock, es) && NeverStops(es) && !WellSpaced(c, MarketScans(c, s, es))
  {
    var first := if s.inProgress then Finish(clock) else Update(true, clock, clock);
    var s1 := Step(c, s, first);
    if !s1.inProgress && (s1.microtask || s1.timerDue.Some?) {
      var rest := TwoScansAtOnce(c, s1, clock);
      MarketScansCons(c, s, clock, first, rest);
      es := [first] + rest;
      assert MarketScans(c, s, es) == MarketScans(c, s1, rest);
    } else {
      var update := Update(true, clock, clock);
      var s2 := Step(c, s1, update);
      var rest := TwoScansAtOnce(c, s2, clock);
      MarketScansCons(c, s1, clock, update, rest);
      MarketScansCons(c, s, clock, first, [update] + rest);
      es := [first] + ([update] + rest);
      assert MarketScans(c, s, es) == MarketScans(c, s2, rest);
    }
  }

  /**
    The minimum interval between market-data scans is kept on every run of a period exactly when
    the period begins with no microtask of an earlier period still queued.
   */
  lemma SpacingExactlyWhenClean(c: Config, s: State, clock: int)
    requires ValidConfig(c) && Inv(s) && s.subscribed
    ensures (forall es :: Legal(c, s, clock, es) && NeverStops(es) ==> WellSpaced(c, MarketScans(c, s, es)))
            <==> NoStaleCallback(s)
  {
    if NoStaleCallback(s) {
      forall es | Legal(c, s, clock, es) && NeverStops(es) ensures WellSpaced(c, MarketScans(c, s, es)) {
        CleanRunsWellSpaced(c, s, clock, es);
      }
    } else {
      var es := StaleCallbackBreaksSpacing(c, s, clock);
    }
  }

  lemma {:induction false} RunAllCons(c: Config, s: State, clock: int, e: Event, es: seq<Event>)
    ensures RunAll(c, s, [e] + es) == RunAll(c, Step(c, s, e), es)
    ensures Legal(c, s, clock, [e] + es) <==> Enabled(s, clock, e) && Legal(c, Step(c, s, e), e.at, es)
  {
    assert ([e] + es)[1..] == es;
  }

  /** An update, a stop and a start before the queued microtask has run. */
  lemma LeftBehind(c: Config, s: State, clock: int, at: int) returns (es: seq<Event>)
    requires Inv(s) && s.subscribed && !s.inProgress && !s.microtask && s.timerDue.None? && c.eventDriven
    requires clock <= at && (s.lastStartedAt.Some? ==> s.lastStartedAt.value + c.minimumGapMs <= at)
    ensures Legal(c, s, clock, es) && RunAll(c, s, es).subscribed && !NoStaleCallback(RunAll(c, s, es))
  {
    var s1 := Step(c, s, Update(true, at, at));
    var s2 := Step(c, s1, Stop(at));
    RunAllCons(c, s2, at, Start(at), []);
    RunAllCons(c, s1, at, Stop(at), [Start(at)]);
    RunAllCons(c, s, clock, Update(true, at, at), [Stop(at)] + [Start(at)]);
    es := [Update(true, at, at)] + ([Stop(at)] + [Start(at)]);
  }

  /** Such a start is reached in every event-driven configuration, scanning at start or not. */
  lemma {:induction false} StaleCallbackExample(c: Config) returns (es: seq<Event>)
    requires ValidConfig(c) && c.eventDriven
    ensures Legal(c, INITIAL, 0, es)
    ensures var s := RunAll(c, INITIAL, es); s.running && s.subscribed && !NoStaleCallback(s)
  {
    var s1 := Step(c, INITIAL, Start(0));
    if c.runImmediately {
      var rest := LeftBehind(c, Step(c, s1, Finish(0)), 0, c.minimumGapMs);
      RunAllCons(c, s1, 0, Finish(0), rest);
      RunAllCons(c, INITIAL, 0, Start(0), [Finish(0)] + rest);
      es := [Start(0)] + ([Finish(0)] + rest);
    } else {
      var rest := LeftBehind(c, s1, 0, c.minimumGapMs);
      RunAllCons(c, INITIAL, 0, Start(0), rest);
      es := [Start(0)] + rest;
    }
    RunKeepsInv(c, INITIAL, es);
  }

  // ---- bounded delay ----

  /** The clock is past the last start, and the timer was armed for the gap after a start. */
  predicate TimesOk(c: Config, s: State, clock: int) {
    && (s.lastStartedAt.Some? ==> s.lastStartedAt.value <= clock)
    && (s.timerDue.Some? ==> s.lastStartedAt.Some? && s.timerDue.value <= s.lastStartedAt.value + c.minimumGapMs)
  }

  lemma {:induction false} RunKeepsTimes(c: Config, s: State, clock: int, es: seq<Event>)
    requires ValidConfig(c) && TimesOk(c, s, clock) && Legal(c, s, clock, es)
    ensures TimesOk(c, RunAll(c, s, es), if es == [] then clock else es[|es| - 1].at)
    decreases |es|
  {
    if es != [] {
      RunKeepsTimes(c, Step(c, s, es[0]), es[0].at, es[1..]);
    }
  }

  /** No scan has started since, and one is queued or timed for `deadline` at the latest. */
  predicate DueBy(c: Config, s: State, deadline: int) {
    && s.running && !s.inProgress
    && (s.microtask || (s.timerDue.Some? && s.timerDue.value <= deadline))
    && (s.lastStartedAt.Some? ==> s.lastStartedAt.value + c.minimumGapMs <= deadline)
  }

  lemma {:induction false} DueUntilScan(c: Config, s: State, clock: int, deadline: int, es: seq<Event>)
    requires Inv(s) && DueBy(c, s, deadline) && Legal(c, s, clock, es) && NeverStops(es)
    requires !AnyScanStarts(c, s, es)
    ensures DueBy(c, RunAll(c, s, es), deadline)
    decreases |es|
  {
    if es != [] {
      var s' := Step(c, s, es[0]);
      assert DueBy(c, s', deadline);
      assert !AnyScanStarts(c, s', es[1..]);
      DueUntilScan(c, s', es[0].at, deadline, es[1..]);
    }
  }

  /** An update admitted at r outside a scan has its scan due at r plus the gap at the latest, from then on. */
  lemma {:induction false} UpdateDueInTime(c: Config, s: State, clock: int, update: Event, later: seq<Event>)
    requires ValidConfig(c) && Inv(s) && TimesOk(c, s, clock)
    requires s.subscribed && !s.inProgress && update.Update? && update.admitted
    requires Legal(c, s, clock, [update] + later) && NeverStops(later)
    requires !AnyScanStarts(c, Step(c, s, update), later)
    ensures DueBy(c, RunAll(c, s, [update] + later), update.receivedAt + c.minimumGapMs)
  {
    var es := [update] + later;
    assert es[0] == update && es[1..] == later;
    DueUntilScan(c, Step(c, s, update), update.at, update.receivedAt + c.minimumGapMs, later);
  }

  /** One admitted while a scan was in progress is due a gap after that scan's start, once it finishes. */
  lemma {:induction false} PendingDueAfterFinish(c: Config, s: State, clock: int, finish: Event, later: seq<Event>)
    requires ValidConfig(c) && Inv(s) && TimesOk(c, s, clock)
    requires s.inProgress && s.pending && s.lastStartedAt.Some? && finish.Finish?
    requires Legal(c, s, clock, [finish] + later) && NeverStops(later)
    requires !AnyScanStarts(c, Step(c, s, finish), later)
    ensures DueBy(c, RunAll(c, s, [finish] + later), s.lastStartedAt.value + c.minimumGapMs)
  {
    var es := [finish] + later;
    assert es[0] == finish && es[1..] == later;
    DueUntilScan(c, Step(c, s, finish), finish.at, s.lastStartedAt.value + c.minimumGapMs, later);
  }

  // ---- the object ----

  class OpportunityDiagnosticsRunner {
    const config: Config
    var running: bool
    var subscribed: bool
    var evaluationInProgress: bool
    var pendingEventEvaluation: bool
    var eventMicrotaskPending: bool
    var queuedMicrotasks: nat
    var eventTimerDueAt: Option<int>
    var lastStartedAt: Option<int>

    ghost function View(): State
      reads this
    {
      State(running, subscribed, evaluationInProgress, pendingEventEvaluation,
            eventMicrotaskPending, queuedMicrotasks, eventTimerDueAt, lastStartedAt)
    }

    constructor (config: Config)
      requires ValidConfig(config)
      ensures this.config == config && View() == INITIAL && Inv(View())
      ensures View() == State(false, false, false, false, false, 0, None, None)
    {
      this.config := config;
      running, subscribed, evaluationInProgress, pendingEventEvaluation := false, false, false, false;
      eventMicrotaskPending, queuedMicrotasks, eventTimerDueAt, lastStartedAt := false, 0, None, None;
    }

    method BeginEvaluation(trigger: Trigger, now: int)
      modifies this
      ensures View() == Begin(old(View()), trigger, now)
    {
      if !running {
        return;
      }
      if evaluationInProgress {
        if trigger == MarketData {
          pendingEventEvaluation := true;
        }
        return;
      }
      evaluationInProgress := true;
      lastStartedAt := Some(now);
    }

    method FinishEvaluation(now: int)
      modifies this
      ensures View() == Step(config, old(View()), Finish(now))
    {
      evaluationInProgress := false;
      if pendingEventEvaluation {
        pendingEventEvaluation := false;
        ScheduleEventEvaluation(now);
      }
    }

    method ScheduleEventEvaluation(now: int)
      modifies this
      ensures View() == Schedule(config, old(View()), now)
    {
      if !running || eventTimerDueAt.Some? || eventMicrotaskPending {
        return;
      }
      var earliestNextStartAt := if lastStartedAt.None? then now else lastStartedAt.value + config.minimumGapMs;
      var delayMs := Max(0, earliestNextStartAt - now);
      if delayMs == 0 {
        eventMicrotaskPending := true;
        queuedMicrotasks := queuedMicrotasks + 1;
        return;
      }
      eventTimerDueAt := Some(now + delayMs);
    }

    method HandleExecutableUpdate(admitted: bool, receivedAt: int, now: int)
      modifies this
      ensures View() == Step(config, old(View()), Update(admitted, receivedAt, now))
    {
      if !subscribed || !running || !admitted {
        return;
      }
      if evaluationInProgress {
        pendingEventEvaluation := true;
        return;
      }
      if eventMicrotaskPending {
        return;
      }
      if eventTimerDueAt.Some? {
        if receivedAt >= eventTimerDueAt.value {
          eventTimerDueAt := None;
          ScheduleEventEvaluation(now);
        }
        return;
      }
      ScheduleEventEvaluation(now);
    }

    method RunMicrotask(now: int)
      requires queuedMicrotasks > 0
      modifies this
      ensures View() == Step(config, old(View()), Microtask(now))
    {
      queuedMicrotasks := queuedMicrotasks - 1;
      eventMicrotaskPending := false;
      if running {
        BeginEvaluation(MarketData, now);
      }
    }

    method FireEventTimer(now: int)
      modifies this
      ensures View() == Step(config, old(View()), EventTimer(now))
    {
      eventTimerDueAt := None;
      BeginEvaluation(MarketData, now);
    }

    method StartRunner(now: int)
      modifies this
      ensures View() == Step(config, old(View()), Start(now))
    {
      if running {
        return;
      }
      running := true;
      subscribed := config.eventDriven;
      if config.runImmediately {
        BeginEvaluation(Startup, now);
      }
    }

    method StopRunner(now: int)
      modifies this
      ensures View() == Step(config, old(View()), Stop(now))
    {
      eventTimerDueAt := None;
      eventMicrotaskPending := false;
      subscribed := false;
      pendingEventEvaluation := false;
      running := false;
    }
  }
}
