/**
  The coordinator with its real last look: the answer of that port is the report of the order-time
  evaluation of the authorized quantity.
 */
module ApprovedExecution {
  import opened Wrappers
  import opened Names
  import opened ExecutionProtocol
  import Coordinator
  import OrderTimeSafety

  /** What the coordinator reads of a report. */
  function LookOf(report: OrderTimeSafety.Report, buyExchange: string, sellExchange: string): LastLook {
    LastLook(report.approved, report.timeInForceSelected, report.buyLimitPrice, report.sellLimitPrice,
             buyExchange, sellExchange)
  }

  /** Only an approved report is usable, and its limits are those of the evaluated books. */
  ghost predicate LooksAt(look: LastLook, i: OrderTimeSafety.Input, p: OrderTimeSafety.Policy,
                          c: OrderTimeSafety.Config) {
    && (Usable(look) <==> OrderTimeSafety.Approvable(i, p, c))
    && (Usable(look) ==>
          look.buyLimit == Some(OrderTimeSafety.BuyLimit(i)) && look.sellLimit == Some(OrderTimeSafety.SellLimit(i)))
  }

  /** Under such a look, unequal fills of a sent pair can always be evened out: the price is there. */
  lemma ResidualIsStageable(o: Outcome, look: LastLook, i: OrderTimeSafety.Input, p: OrderTimeSafety.Policy,
                            c: OrderTimeSafety.Config)
    requires LooksAt(look, i, p, c) && Usable(look)
    ensures Coordinator.Stageable(o, look) <==> Residual(o)
  {
    OrderTimeSafety.ApprovedLimitsPositive(i, p, c);
  }

  /** The orders of a dispatch are those of an approved evaluation: its quantity, and its two limits. */
  ghost predicate AsApproved(e: Effect, i: OrderTimeSafety.Input, p: OrderTimeSafety.Policy,
                             c: OrderTimeSafety.Config) {
    e.Dispatched? ==>
      && OrderTimeSafety.Approvable(i, p, c)
      && e.buy.quantity == e.sell.quantity == i.quantity.value
      && e.buy.price == OrderTimeSafety.BuyLimit(i) && e.sell.price == OrderTimeSafety.SellLimit(i)
  }

  lemma DispatchIsApproved(x: Coordinator.Context, journal: seq<Effect>, phases: seq<Phase>, n: nat,
                           i: OrderTimeSafety.Input, p: OrderTimeSafety.Policy, c: OrderTimeSafety.Config)
    requires Coordinator.Keeps(x, journal, phases) && n < |journal|
    requires LooksAt(x.ports.lastLook, i, p, c)
    requires x.ports.authority.Some? ==> i.quantity == x.ports.authority.value.exactQuantity
    ensures AsApproved(journal[n], i, p, c)
  {
    if journal[n].Dispatched? {
      var a, l, f, r, b := DispatchIsLicensed(x.deal, journal, phases, n);
      assert Coordinator.Answered(x, journal[a]) && Coordinator.Answered(x, journal[l]);
    }
  }

  /** The order that evens out a bought and b sold: the excess, sold or bought on the venue that has it. */
  ghost predicate Recovers(o: Coordinator.Opportunity, a: real, b: real, e: Effect)
    requires e.Staged?
  {
    || (a > b && e.venue == NormExchange(o.buyExchange) && e.side == Sell && e.quantity == a - b)
    || (b > a && e.venue == NormExchange(o.sellExchange) && e.side == Buy && e.quantity == b - a)
  }

  /**
    One execution with the order-time evaluation as its last look. Orders are sent only for an input
    every gate approves, at the evaluated quantity and limits, and a residual of a sent pair is staged,
    on the venue with the excess, exactly when the recovery port works.
   */
  method ExecuteApproved(ports: Coordinator.Ports, o: Coordinator.Opportunity, actionAuthorityId: string,
                         i: OrderTimeSafety.Input, p: OrderTimeSafety.Policy, c: OrderTimeSafety.Config)
    returns (result: Coordinator.ExecutionResult, journal: seq<Effect>)
    requires ports.authority.Some? ==> i.quantity == ports.authority.value.exactQuantity
    ensures !result.status.Blocked? ==> OrderTimeSafety.Approvable(i, p, c) && Count(journal).dispatched == 1
    ensures result.status.Blocked? ==> Count(journal).dispatched == 0
    ensures forall n :: 0 <= n < |journal| ==> AsApproved(journal[n], i, p, c)
    ensures forall n, a, b ::
              (0 <= n < |journal| && journal[n].Staged? && ports.outcome.Returned?
               && ReportsFill(ports.outcome.legs.buy, a) && ReportsFill(ports.outcome.legs.sell, b)) ==>
                Recovers(o, a, b, journal[n])
    ensures result.recoveryIntentStaged <==> !result.status.Blocked? && Residual(ports.outcome) && ports.stageSucceeds
  {
    var report := OrderTimeSafety.Evaluate(i, p, c);
    var look := LookOf(report, NormExchange(o.buyExchange), NormExchange(o.sellExchange));
    var coordinator := new Coordinator.ArbitrageExecutionCoordinator(ports.(lastLook := look));
    ghost var phases;
    result, journal, phases := coordinator.Execute(o, actionAuthorityId);
    ghost var x := Coordinator.ContextOf(o, coordinator.ports, actionAuthorityId);
    forall n | 0 <= n < |journal| ensures AsApproved(journal[n], i, p, c) {
      DispatchIsApproved(x, journal, phases, n, i, p, c);
    }
    forall n, a, b | 0 <= n < |journal| && journal[n].Staged? && ports.outcome.Returned?
                     && ReportsFill(ports.outcome.legs.buy, a) && ReportsFill(ports.outcome.legs.sell, b)
      ensures Recovers(o, a, b, journal[n])
    {
      Coordinator.RecoveryOrderIs(x, journal, phases, n, a, b);
    }
    if Usable(look) {
      ResidualIsStageable(ports.outcome, look, i, p, c);
    }
  }
}
