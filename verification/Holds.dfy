/** The wallet holds of an execution against the orders it sends: what was reserved pays for every fill. */
module Holds {
  import opened Wrappers
  import opened DepthWalk
  import opened OrderTimeSafety
  import opened ExecutionProtocol

  function HoldAmount(terms: HoldTerms): real { QuoteHold(terms.quantity, terms.limitPrice, terms.feePercent) }

  /** The hold on the quote asset pays for any fills of the buy order with their taker fee. */
  ghost predicate PaysForBuy(terms: HoldTerms, buy: Order) {
    forall fills :: RespectsLimit(Asks, fills, buy.price) && Quantity(fills) <= buy.quantity ==>
      Pays(HoldAmount(terms), fills, terms.feePercent)
  }

  /**
    In every accepted journal a dispatch is preceded by the reservation that pays for it: on the buy
    exchange a hold for every list of fills within the buy order, at the taker fee read before, and on
    the sell exchange a hold of the whole quantity sold. The buy limit is positive in an approved report.
   */
  lemma DispatchIsPaidFor(d: Deal, journal: seq<Effect>, phases: seq<Phase>, i: nat) returns (f: nat, r: nat)
    requires Accepted(d, journal, phases) && i < |journal| && journal[i].Dispatched? && journal[i].buy.price >= 0.0
    ensures f < r < i && journal[f].FeeRead? && journal[r].Reserved? && journal[r].granted.Some?
    ensures journal[f].percent == Some(journal[r].quoteHold.feePercent)
    ensures journal[r].quoteExchange == journal[i].buy.exchange && PaysForBuy(journal[r].quoteHold, journal[i].buy)
    ensures journal[r].baseExchange == journal[i].sell.exchange && journal[r].baseHold == journal[i].sell.quantity
  {
    var c, l, b;
    c, l, f, r, b := DispatchIsLicensed(d, journal, phases, i);
    var terms := journal[r].quoteHold;
    forall fills | RespectsLimit(Asks, fills, journal[i].buy.price) && Quantity(fills) <= journal[i].buy.quantity
      ensures Pays(HoldAmount(terms), fills, terms.feePercent)
    {
      HoldCoversLimitFills(fills, terms.quantity, terms.limitPrice, terms.feePercent);
    }
  }
}
