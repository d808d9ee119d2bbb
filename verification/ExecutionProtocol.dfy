/**
  The two-leg execution protocol: the effects the coordinator has on its ports, in order, as an
  automaton, and what every accepted journal of effects guarantees.
 */
module ExecutionProtocol {
  import opened Wrappers

  datatype Side = Buy | Sell

  datatype Order = Order(exchange: string, market: string, side: Side, quantity: real, price: real)

  datatype LastLook = LastLook(
    approved: bool, timeInForceSelected: bool, buyLimit: Option<real>, sellLimit: Option<real>,
    buyExchange: string, sellExchange: string)

  datatype Authority = Authority(exactQuantity: Option<real>, capitalPerLegInr: real)

  datatype LegResult = LegResult(filledStatus: bool, filledQuantity: Option<real>)

  datatype SessionState = Prepared | Dispatching | SessionCompleted | SessionRecovery | SessionExposed | SessionFailed

  datatype TwoLeg = TwoLeg(
    state: SessionState, possibleExposure: bool, buy: Option<LegResult>, sell: Option<LegResult>,
    buyDispatchedAt: Option<int>, sellDispatchedAt: Option<int>)

  /** What the two-leg service does: return a result, or reject, possibly with the value `null`. */
  datatype Outcome = Returned(legs: TwoLeg) | Threw(nullValue: bool)

  /** What a quote-asset hold is computed from; its amount is `OrderTimeSafety.QuoteHold` of the three. */
  datatype HoldTerms = HoldTerms(quantity: real, limitPrice: real, feePercent: real)

  datatype Status = Blocked | Completed | PossibleExposure | RecoveryRequired | PartiallyCompleted | Failed

  datatype Check =
    OpportunityClean | BuyAdapter | SellAdapter | LiveConfirmation | AuthorityNamed | BuyConnected | SellConnected

  /** The checks made before any adapter is asked for its status. */
  const EARLY_CHECKS: set<Check> := {OpportunityClean, BuyAdapter, SellAdapter, LiveConfirmation, AuthorityNamed}
  const ALL_CHECKS: set<Check> := EARLY_CHECKS + {BuyConnected, SellConnected}

  datatype Effect =
    | Checked(check: Check, ok: bool)
    | Consumed(authority: Option<Authority>)
    | Looked(quantity: real, report: LastLook)
    | Observed(ok: bool)
    | FeeRead(percent: Option<real>)
    | Reserved(capital: real, quoteExchange: string, quoteHold: HoldTerms, baseExchange: string, baseHold: real,
               granted: Option<string>)
    | Bound(ok: bool)
    | Dispatched(buy: Order, sell: Order, outcome: Outcome)
    | Staged(venue: string, side: Side, quantity: real, price: real, ok: bool)
    | Committed(reservation: string)
    | Released(reservation: string)
    | PnLRecorded(status: Status)
    | Finalized(status: Status, ok: bool)

  // ---- what an outcome means ----

  function Fill(leg: Option<LegResult>): real {
    if leg.Some? && leg.value.filledQuantity.Some? && leg.value.filledQuantity.value >= 0.0
    then leg.value.filledQuantity.value else 0.0
  }

  function BuyFill(o: Outcome): real { if o.Returned? then Fill(o.legs.buy) else 0.0 }

  function SellFill(o: Outcome): real { if o.Returned? then Fill(o.legs.sell) else 0.0 }

  predicate AnyFill(o: Outcome) { BuyFill(o) > 0.0 || SellFill(o) > 0.0 }

  predicate Residual(o: Outcome) { BuyFill(o) != SellFill(o) }

  /** The outcome on the exchanges may be other than what was returned. */
  predicate Uncertain(o: Outcome) { if o.Threw? then !o.nullValue else o.legs.possibleExposure }

  predicate Held(o: Outcome) { Residual(o) || Uncertain(o) }

  predicate BothFilled(o: Outcome) {
    && o.Returned? && o.legs.state.SessionCompleted?
    && o.legs.buy.Some? && o.legs.buy.value.filledStatus
    && o.legs.sell.Some? && o.legs.sell.value.filledStatus
    && !Held(o)
  }

  function StatusOf(o: Outcome): Status {
    if BothFilled(o) then Completed
    else if Uncertain(o) then PossibleExposure
    else if Residual(o) then RecoveryRequired
    else if AnyFill(o) then PartiallyCompleted
    else Failed
  }

  /** An order that brings the net base position of the two legs back to zero, where the excess filled. */
  predicate Flattens(o: Outcome, report: LastLook, venue: string, side: Side, quantity: real, price: real) {
    && quantity > 0.0 && Some(price) == (if BuyFill(o) > SellFill(o) then report.sellLimit else report.buyLimit)
    && BuyFill(o) - SellFill(o) + (if side.Buy? then quantity else -quantity) == 0.0
    && venue == if BuyFill(o) > SellFill(o) then report.buyExchange else report.sellExchange
  }

  /** What a leg is reported to have filled, whatever its status: nothing where no proper quantity is given. */
  predicate ReportsFill(leg: Option<LegResult>, q: real) {
    || (leg.Some? && leg.value.filledQuantity == Some(q) && q >= 0.0)
    || (q == 0.0 && (leg.None? || leg.value.filledQuantity.None? || leg.value.filledQuantity.value < 0.0))
  }

  // ---- the automaton ----

  /** The opportunity, as far as the protocol depends on it. */
  datatype Deal = Deal(market: string, buyExchange: string, sellExchange: string, availableQuantity: real)

  datatype Phase =
    | Checking(passed: set<Check>, failed: bool)
    | Refused
    | Authorized(authority: Authority)
    | Approving(quantity: real, report: LastLook, capital: real)
    | Costing(quantity: real, report: LastLook, capital: real, fee: Option<real>)
    | Holding(quantity: real, report: LastLook, reservation: string)
    | Unbound(reservation: string)
    | Ready(quantity: real, report: LastLook, reservation: string)
    | Stopping(returned: bool)                        // blocked; `returned`: a hold was taken and given back
    | Sent(report: LastLook, outcome: Outcome, reservation: string, staged: bool)
    | Settled(outcome: Outcome, staged: bool)
    | Recorded(outcome: Outcome, staged: bool)
    | BlockedDone(returned: bool)
    | SentDone(outcome: Outcome, staged: bool)
    | Bad

  predicate WithinDepth(d: Deal, a: Authority) {
    a.exactQuantity.Some? && 0.0 < a.exactQuantity.value <= d.availableQuantity + 0.000000000001
  }

  predicate Usable(report: LastLook) {
    report.approved && report.timeInForceSelected && report.buyLimit.Some? && report.sellLimit.Some?
  }

  function Next(d: Deal, ph: Phase, e: Effect): Phase {
    match ph
    case Checking(passed, failed) =>
      if e.Checked? && (e.check in EARLY_CHECKS || EARLY_CHECKS <= passed)
         then Checking(if e.ok then passed + {e.check} else passed, failed || !e.ok)
      else if e.Consumed? && !failed && passed == ALL_CHECKS then
        (if e.authority.Some? then Authorized(e.authority.value) else Refused)
      else Bad
    case Authorized(a) =>
      if e.Looked? && WithinDepth(d, a) && a.exactQuantity == Some(e.quantity)
         then Approving(e.quantity, e.report, a.capitalPerLegInr)
      else if e.Finalized? && e.status.Blocked? && !WithinDepth(d, a) then BlockedDone(false)
      else Bad
    case Approving(q, report, capital) =>
      if e.Observed? then ph
      else if e.FeeRead? && Usable(report) then Costing(q, report, capital, e.percent)
      else if e.Finalized? && e.status.Blocked? then BlockedDone(false)
      else Bad
    case Costing(q, report, capital, fee) =>
      if e.Reserved? && fee.Some? && fee.value >= 0.0 && Usable(report)
         && e.capital == capital
         && e.quoteExchange == d.buyExchange && e.quoteHold == HoldTerms(q, report.buyLimit.value, fee.value)
         && e.baseExchange == d.sellExchange && e.baseHold == q
      then (if e.granted.Some? then Holding(q, report, e.granted.value) else Stopping(false))
      else if e.Finalized? && e.status.Blocked? then BlockedDone(false)
      else Bad
    case Holding(q, report, r) =>
      if e.Bound? then (if e.ok then Ready(q, report, r) else Unbound(r)) else Bad
    case Unbound(r) =>
      if e == Released(r) then Stopping(true) else Bad
    case Stopping(returned) =>
      if e.Finalized? && e.status.Blocked? then BlockedDone(returned) else Bad
    case Ready(q, report, r) =>
      if e.Dispatched? && Usable(report)
         && e.buy == Order(d.buyExchange, d.market, Buy, q, report.buyLimit.value)
         && e.sell == Order(d.sellExchange, d.market, Sell, q, report.sellLimit.value)
      then Sent(report, e.outcome, r, false) else Bad
    case Sent(report, o, r, staged) =>
      if e.Observed? && !staged then ph
      else if e.Staged? && !staged && Flattens(o, report, e.venue, e.side, e.quantity, e.price)
        then Sent(report, o, r, true)
      else if e == Committed(r) && !Held(o) && AnyFill(o) then Settled(o, staged)
      else if e == Released(r) && !Held(o) && !AnyFill(o) then Settled(o, staged)
      else if e.PnLRecorded? && e.status == StatusOf(o) && Held(o) then Recorded(o, staged)
      else Bad
    case Settled(o, staged) =>
      if e.PnLRecorded? && e.status == StatusOf(o) then Recorded(o, staged) else Bad
    case Recorded(o, staged) =>
      if e.Finalized? && e.status == StatusOf(o) then SentDone(o, staged) else Bad
    case _ => Bad
  }

  ghost predicate Follows(d: Deal, journal: seq<Effect>, phases: seq<Phase>, i: nat)
    requires |phases| == |journal| + 1 && i < |journal|
  {
    phases[i + 1] == Next(d, phases[i], journal[i]) && !phases[i + 1].Bad?
  }

  /** A journal the automaton accepts, with the phase before and after every effect. */
  ghost predicate Accepted(d: Deal, journal: seq<Effect>, phases: seq<Phase>) {
    && |phases| == |journal| + 1 && phases[0] == Checking({}, false)
    && forall i :: 0 <= i < |journal| ==> Follows(d, journal, phases, i)
  }

  function Last(phases: seq<Phase>): Phase
    requires phases != []
  {
    phases[|phases| - 1]
  }

  lemma Extend(d: Deal, journal: seq<Effect>, phases: seq<Phase>, e: Effect)
    requires Accepted(d, journal, phases) && !Next(d, Last(phases), e).Bad?
    ensures Accepted(d, journal + [e], phases + [Next(d, Last(phases), e)])
  {
    var journal', phases' := journal + [e], phases + [Next(d, Last(phases), e)];
    forall i | 0 <= i < |journal'| ensures Follows(d, journal', phases', i) {
      assert i < |journal| ==> Follows(d, journal, phases, i);
    }
  }

  /** A finished execution: blocked before any authority was spent, refused one, or finalized. */
  predicate Finished(ph: Phase) {
    (ph.Checking? && ph.failed) || ph.Refused? || ph.BlockedDone? || ph.SentDone?
  }

  // ---- where a phase comes from ----

  lemma {:induction false} CheckingMeans(d: Deal, journal: seq<Effect>, phases: seq<Phase>, n: nat)
    requires Accepted(d, journal, phases) && n <= |journal| && phases[n].Checking?
    ensures forall k :: k in phases[n].passed ==> Checked(k, true) in journal[..n]
    ensures forall i :: 0 <= i < n ==> journal[i].Checked?
    ensures !phases[n].failed ==> forall i :: 0 <= i < n ==> journal[i].ok
  {
    if n > 0 {
      assert Follows(d, journal, phases, n - 1);
      CheckingMeans(d, journal, phases, n - 1);
      assert journal[..n] == journal[..n - 1] + [journal[n - 1]];
    }
  }

  lemma EveryCheck(check: Check)
    ensures check in ALL_CHECKS
    ensures check in EARLY_CHECKS <==> check != BuyConnected && check != SellConnected
  {
    match check
    case OpportunityClean => case BuyAdapter => case SellAdapter => case LiveConfirmation =>
    case AuthorityNamed => case BuyConnected => case SellConnected =>
  }

  /** An adapter is asked for its status only after every other check has passed. */
  lemma ConnectionsReadLast(d: Deal, journal: seq<Effect>, phases: seq<Phase>, i: nat)
    requires Accepted(d, journal, phases) && i < |journal| && journal[i].Checked?
    requires journal[i].check == BuyConnected || journal[i].check == SellConnected
    ensures forall check: Check :: check != BuyConnected && check != SellConnected ==>
            Checked(check, true) in journal[..i]
  {
    assert Follows(d, journal, phases, i);
    assert phases[i].Checking? && EARLY_CHECKS <= phases[i].passed;
    CheckingMeans(d, journal, phases, i);
    forall check: Check | check != BuyConnected && check != SellConnected ensures Checked(check, true) in journal[..i] {
      EveryCheck(check);
    }
  }

  lemma {:induction false} LookedAt(d: Deal, journal: seq<Effect>, phases: seq<Phase>, n: nat) returns (l: nat)
    requires Accepted(d, journal, phases) && n <= |journal| && phases[n].Approving?
    ensures 1 <= l < n && journal[l] == Looked(phases[n].quantity, phases[n].report)
    ensures var ph := phases[l];
            && ph.Authorized? && WithinDepth(d, ph.authority)
            && ph.authority.exactQuantity == Some(phases[n].quantity)
            && ph.authority.capitalPerLegInr == phases[n].capital
  {
    assert Follows(d, journal, phases, n - 1);
    if phases[n - 1].Approving? {
      l := LookedAt(d, journal, phases, n - 1);
    } else {
      l := n - 1;
    }
  }

  /** The three effects right before a pair is ready to go. */
  lemma HoldBehindReady(d: Deal, journal: seq<Effect>, phases: seq<Phase>, n: nat)
    requires Accepted(d, journal, phases) && n <= |journal| && phases[n].Ready?
    ensures n >= 4 && journal[n - 1] == Bound(true)
    ensures var ph, before := phases[n], phases[n - 3];
            && before.Approving? && before.quantity == ph.quantity && before.report == ph.report && Usable(ph.report)
            && var e, fee := journal[n - 2], journal[n - 3];
               && fee.FeeRead? && fee.percent.Some? && fee.percent.value >= 0.0
               && e == Reserved(before.capital, d.buyExchange,
                                HoldTerms(ph.quantity, ph.report.buyLimit.value, fee.percent.value),
                                d.sellExchange, ph.quantity, Some(ph.reservation))
  {
    assert Follows(d, journal, phases, n - 1);
    assert phases[n - 1].Holding?;
    assert Follows(d, journal, phases, n - 2);
    assert phases[n - 2].Costing?;
    assert Follows(d, journal, phases, n - 3);
  }

  lemma AuthorityBehindLook(d: Deal, journal: seq<Effect>, phases: seq<Phase>, n: nat)
    requires Accepted(d, journal, phases) && 1 <= n <= |journal| && phases[n].Authorized?
    ensures journal[n - 1] == Consumed(Some(phases[n].authority))
    ensures forall k :: k in ALL_CHECKS ==> Checked(k, true) in journal[..n - 1]
    ensures forall i :: 0 <= i < n - 1 ==> journal[i].Checked? && journal[i].ok
  {
    assert Follows(d, journal, phases, n - 1);
    CheckingMeans(d, journal, phases, n - 1);
  }

  /**
    No order leaves before, in this order: every check passed and none failed, the authority was
    consumed for a positive quantity within depth, the last look approved it with both limits, a
    fee was read, both holds were approved for that quantity at the buy limit and fee, and the
    pair was bound. The orders carry that quantity and those limits.
   */
  lemma DispatchIsLicensed(d: Deal, journal: seq<Effect>, phases: seq<Phase>, i: nat)
    returns (c: nat, l: nat, f: nat, r: nat, b: nat)
    requires Accepted(d, journal, phases) && i < |journal| && journal[i].Dispatched?
    ensures c < l < f < r < b < i
    ensures forall k: Check :: Checked(k, true) in journal[..c]
    ensures forall j :: 0 <= j < c ==> journal[j].Checked? && journal[j].ok
    ensures journal[c].Consumed? && journal[c].authority.Some? && WithinDepth(d, journal[c].authority.value)
    ensures var q := journal[c].authority.value.exactQuantity.value;
            && journal[l].Looked? && journal[l].quantity == q && Usable(journal[l].report)
            && journal[f].FeeRead? && journal[f].percent.Some? && journal[f].percent.value >= 0.0
            && var report, fee := journal[l].report, journal[f].percent.value;
               && journal[r].Reserved? && journal[r].granted.Some?
               && journal[r].capital == journal[c].authority.value.capitalPerLegInr
               && journal[r].quoteExchange == d.buyExchange && journal[r].baseExchange == d.sellExchange
               && journal[r].quoteHold == HoldTerms(q, report.buyLimit.value, fee) && journal[r].baseHold == q
               && journal[b] == Bound(true)
               && journal[i].buy == Order(d.buyExchange, d.market, Buy, q, report.buyLimit.value)
               && journal[i].sell == Order(d.sellExchange, d.market, Sell, q, report.sellLimit.value)
  {
    assert Follows(d, journal, phases, i);
    HoldBehindReady(d, journal, phases, i);
    b, r, f := i - 1, i - 2, i - 3;
    l := LookedAt(d, journal, phases, f);
    c := l - 1;
    AuthorityBehindLook(d, journal, phases, l);
    forall k: Check ensures Checked(k, true) in journal[..c] {
      EveryCheck(k);
    }
  }

  // ---- counting ----

  datatype Tally =
    Tally(consumed: nat, held: nat, dispatched: nat, staged: nat, committed: nat, released: nat, recorded: nat,
          finalized: nat)

  function Add(t: Tally, e: Effect): Tally {
    match e
    case Consumed(authority) => if authority.Some? then t.(consumed := t.consumed + 1) else t
    case Reserved(_, _, _, _, _, granted) => if granted.Some? then t.(held := t.held + 1) else t
    case Dispatched(_, _, _) => t.(dispatched := t.dispatched + 1)
    case Staged(_, _, _, _, _) => t.(staged := t.staged + 1)
    case Committed(_) => t.(committed := t.committed + 1)
    case Released(_) => t.(released := t.released + 1)
    case PnLRecorded(_) => t.(recorded := t.recorded + 1)
    case Finalized(_, _) => t.(finalized := t.finalized + 1)
    case _ => t
  }

  function CountTo(journal: seq<Effect>, n: nat): Tally
    requires n <= |journal|
  {
    if n == 0 then Tally(0, 0, 0, 0, 0, 0, 0, 0) else Add(CountTo(journal, n - 1), journal[n - 1])
  }

  function Count(journal: seq<Effect>): Tally { CountTo(journal, |journal|) }

  function Expected(ph: Phase): Tally {
    match ph
    case Checking(_, _) => Tally(0, 0, 0, 0, 0, 0, 0, 0)
    case Refused => Tally(0, 0, 0, 0, 0, 0, 0, 0)
    case Authorized(_) => Tally(1, 0, 0, 0, 0, 0, 0, 0)
    case Approving(_, _, _) => Tally(1, 0, 0, 0, 0, 0, 0, 0)
    case Costing(_, _, _, _) => Tally(1, 0, 0, 0, 0, 0, 0, 0)
    case Holding(_, _, _) => Tally(1, 1, 0, 0, 0, 0, 0, 0)
    case Unbound(_) => Tally(1, 1, 0, 0, 0, 0, 0, 0)
    case Ready(_, _, _) => Tally(1, 1, 0, 0, 0, 0, 0, 0)
    case Stopping(ret) => Tally(1, One(ret), 0, 0, 0, One(ret), 0, 0)
    case BlockedDone(ret) => Tally(1, One(ret), 0, 0, 0, One(ret), 0, 1)
    case Sent(_, _, _, staged) => Tally(1, 1, 1, One(staged), 0, 0, 0, 0)
    case Settled(o, staged) => Tally(1, 1, 1, One(staged), One(AnyFill(o)), One(!AnyFill(o)), 0, 0)
    case Recorded(o, staged) => Tally(1, 1, 1, One(staged), One(!Held(o) && AnyFill(o)), One(!Held(o) && !AnyFill(o)),
                                      1, 0)
    case SentDone(o, staged) => Tally(1, 1, 1, One(staged), One(!Held(o) && AnyFill(o)), One(!Held(o) && !AnyFill(o)),
                                      1, 1)
    case Bad => Tally(0, 0, 0, 0, 0, 0, 0, 0)
  }

  ghost predicate SettledOpen(ph: Phase) { ph.Settled? ==> !Held(ph.outcome) }

  lemma AddAfterDispatch(d: Deal, ph: Phase, e: Effect)
    requires ph.Sent? || ph.Settled? || ph.Recorded?
    requires SettledOpen(ph) && !Next(d, ph, e).Bad?
    ensures Add(Expected(ph), e) == Expected(Next(d, ph, e)) && SettledOpen(Next(d, ph, e))
  {
  }

  lemma AddBeforeDispatch(d: Deal, ph: Phase, e: Effect)
    requires !ph.Sent? && !ph.Settled? && !ph.Recorded?
    requires !Next(d, ph, e).Bad?
    ensures Add(Expected(ph), e) == Expected(Next(d, ph, e)) && SettledOpen(Next(d, ph, e))
  {
  }

  lemma {:induction false} CountFollowsPhase(d: Deal, journal: seq<Effect>, phases: seq<Phase>, n: nat)
    requires Accepted(d, journal, phases) && n <= |journal|
    ensures CountTo(journal, n) == Expected(phases[n]) && SettledOpen(phases[n])
  {
    if n > 0 {
      CountFollowsPhase(d, journal, phases, n - 1);
      assert Follows(d, journal, phases, n - 1);
      if phases[n - 1].Sent? || phases[n - 1].Settled? || phases[n - 1].Recorded? {
        AddAfterDispatch(d, phases[n - 1], journal[n - 1]);
      } else {
        AddBeforeDispatch(d, phases[n - 1], journal[n - 1]);
      }
    }
  }

  /**
    Over every finished execution: at most one dispatch; one finalize exactly when the authority
    was consumed; a hold stays open exactly when the outcome is one to be held, and otherwise
    exactly one of commit (some fill) and release (none) closes it.
   */
  lemma OutcomeDecidesCapital(d: Deal, journal: seq<Effect>, phases: seq<Phase>)
    requires Accepted(d, journal, phases) && Finished(Last(phases))
    ensures var t, ph := Count(journal), Last(phases);
            && t.dispatched <= 1 && t.finalized == t.consumed <= 1 && t.committed + t.released <= t.held <= 1
            && (t.dispatched == 1 <==> ph.SentDone?) && (t.consumed == 1 <==> ph.BlockedDone? || ph.SentDone?)
            && (ph.SentDone? ==> t.staged == One(ph.staged))
            && (t.dispatched == 0 ==> t.committed == 0 && t.released == t.held)
            && (ph.SentDone? ==>
                  && (t.committed + t.released == 0 <==> StatusOf(ph.outcome) in {PossibleExposure, RecoveryRequired})
                  && (t.committed == 1 <==> !Held(ph.outcome) && AnyFill(ph.outcome))
                  && (t.released == 1 <==> !Held(ph.outcome) && !AnyFill(ph.outcome)))
  {
    CountFollowsPhase(d, journal, phases, |journal|);
    if Last(phases).SentDone? {
      HeldByStatus(Last(phases).outcome);
    }
  }

  lemma HeldByStatus(o: Outcome)
    ensures Held(o) <==> StatusOf(o) in {PossibleExposure, RecoveryRequired}
  {
  }

  lemma {:induction false} StagedCounted(journal: seq<Effect>, i: nat, n: nat)
    requires i < n <= |journal| && journal[i].Staged?
    ensures CountTo(journal, n).staged > CountTo(journal, i).staged
  {
    if n > i + 1 {
      StagedCounted(journal, i, n - 1);
    }
  }

  /** A staged recovery order leaves no base position, only unequal fills get one, and only one. */
  lemma StagedOrderFlattens(d: Deal, journal: seq<Effect>, phases: seq<Phase>, i: nat)
    requires Accepted(d, journal, phases) && i < |journal| && journal[i].Staged?
    ensures phases[i].Sent? && Residual(phases[i].outcome)
    ensures Flattens(phases[i].outcome, phases[i].report, journal[i].venue, journal[i].side, journal[i].quantity,
                     journal[i].price)
    ensures forall j :: 0 <= j < |journal| && journal[j].Staged? ==> j == i
  {
    assert Follows(d, journal, phases, i);
    CountFollowsPhase(d, journal, phases, |journal|);
    forall j | 0 <= j < |journal| && journal[j].Staged? ensures j == i {
      if j < i {
        StagedCounted(journal, j, i);
        StagedCounted(journal, i, |journal|);
      } else if j > i {
        StagedCounted(journal, i, j);
        StagedCounted(journal, j, |journal|);
      }
    }
  }

  /** With a bought and b sold, the order trades the difference back on the venue of the excess, at the other limit. */
  lemma StagedOrderIs(d: Deal, journal: seq<Effect>, phases: seq<Phase>, i: nat, a: real, b: real)
    requires Accepted(d, journal, phases) && i < |journal| && journal[i].Staged?
    requires phases[i].Sent? && phases[i].outcome.Returned?
    requires ReportsFill(phases[i].outcome.legs.buy, a) && ReportsFill(phases[i].outcome.legs.sell, b)
    ensures var e, report := journal[i], phases[i].report;
            if a > b then e.venue == report.buyExchange && e.side == Sell && e.quantity == a - b
               && Some(e.price) == report.sellLimit
            else b > a && e.venue == report.sellExchange && e.side == Buy && e.quantity == b - a
                 && Some(e.price) == report.buyLimit
  {
    assert Follows(d, journal, phases, i);
  }

  lemma {:induction false} CountedIsThere(journal: seq<Effect>, n: nat)
    requires n <= |journal|
    ensures CountTo(journal, n).committed > 0 <==> exists i :: 0 <= i < n && journal[i].Committed?
    ensures CountTo(journal, n).released > 0 <==> exists i :: 0 <= i < n && journal[i].Released?
    ensures CountTo(journal, n).dispatched > 0 <==> exists i :: 0 <= i < n && journal[i].Dispatched?
    ensures CountTo(journal, n).finalized > 0 <==> exists i :: 0 <= i < n && journal[i].Finalized?
  {
    if n > 0 {
      CountedIsThere(journal, n - 1);
    }
  }

  /**
    What the raw fields of a returned outcome decide, with a bought and b sold: the holds are committed for
    equal fills, released for none, and otherwise, or under possible exposure, left alone.
   */
  lemma ReportedFillsDecide(d: Deal, journal: seq<Effect>, phases: seq<Phase>, a: real, b: real)
    requires Accepted(d, journal, phases) && Last(phases).SentDone? && Last(phases).outcome.Returned?
    requires var legs := Last(phases).outcome.legs; ReportsFill(legs.buy, a) && ReportsFill(legs.sell, b)
    ensures var exposure := Last(phases).outcome.legs.possibleExposure;
            && ((exists i :: 0 <= i < |journal| && journal[i].Committed?) <==> a == b && a > 0.0 && !exposure)
            && ((exists i :: 0 <= i < |journal| && journal[i].Released?) <==> a == b && a == 0.0 && !exposure)
  {
    CountFollowsPhase(d, journal, phases, |journal|);
    CountedIsThere(journal, |journal|);
  }

  /** After a rejected dispatch nothing is committed, and the holds are released only for `null`. */
  lemma RejectedDispatchSettles(d: Deal, journal: seq<Effect>, phases: seq<Phase>)
    requires Accepted(d, journal, phases) && Last(phases).SentDone? && Last(phases).outcome.Threw?
    ensures Count(journal).committed == 0
    ensures Count(journal).released == One(Last(phases).outcome.nullValue)
  {
    CountFollowsPhase(d, journal, phases, |journal|);
  }

  /** A rejected dispatch keeps the holds exactly when the value it rejects with is not `null`. */
  lemma ThrownDispatchHeld(o: Outcome)
    requires o.Threw?
    ensures Held(o) <==> !o.nullValue
    ensures StatusOf(o) == if o.nullValue then Failed else PossibleExposure
  {
  }
}
