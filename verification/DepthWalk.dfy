/**
  Walking an order book: the fills a quantity takes from a list of levels, their quantity and cost,
  the worst price consumed, and the two loops that compute them.
 */
module DepthWalk {
  import opened Wrappers

  datatype Level = Level(price: real, quantity: real)

  /** Asks are bought best (lowest) first, bids are sold into best (highest) first. */
  datatype Side = Asks | Bids

  predicate AtOrBetter(side: Side, a: real, b: real) { if side.Asks? then a <= b else a >= b }

  predicate Better(side: Side, a: real, b: real) { if side.Asks? then a < b else a > b }

  predicate LevelOk(level: Level) { level.price > 0.0 && level.quantity > 0.0 }

  predicate AllOk(levels: seq<Level>) { forall i :: 0 <= i < |levels| ==> LevelOk(levels[i]) }

  predicate BestFirst(side: Side, levels: seq<Level>) {
    forall i, j :: 0 <= i < j < |levels| ==> AtOrBetter(side, levels[i].price, levels[j].price)
  }

  function Tolerance(quantity: real): real { MaxReal(0.000000000001, quantity * 0.000000001) }

  // ---- specification ----

  /** What is consumed, level by level; fills are levels too. */
  function Walk(levels: seq<Level>, remaining: real): seq<Level>
    decreases |levels|
  {
    if levels == [] || remaining <= 0.0 then []
    else
      var taken := MinReal(remaining, levels[0].quantity);
      [Level(levels[0].price, taken)] + Walk(levels[1..], remaining - taken)
  }

  /** Every level the walk looks at is positive. */
  predicate Walkable(levels: seq<Level>, remaining: real)
    decreases |levels|
  {
    levels == [] || remaining <= 0.0 ||
    (LevelOk(levels[0]) && Walkable(levels[1..], remaining - MinReal(remaining, levels[0].quantity)))
  }

  function Quantity(fills: seq<Level>): real {
    if fills == [] then 0.0 else Quantity(fills[..|fills| - 1]) + fills[|fills| - 1].quantity
  }

  function Cost(fills: seq<Level>): real {
    if fills == [] then 0.0 else Cost(fills[..|fills| - 1]) + Value(fills[|fills| - 1])
  }

  function Value(fill: Level): real { fill.quantity * fill.price }

  function LastPrice(fills: seq<Level>): Option<real> {
    if fills == [] then None else Some(fills[|fills| - 1].price)
  }

  function WorstConsumed(levels: seq<Level>, quantity: real): Option<real> {
    var fills := Walk(levels, quantity);
    if quantity - Quantity(fills) <= Tolerance(quantity) then LastPrice(fills) else None
  }

  /** Total quantity of the levels at least as good as a limit. */
  function DepthAtOrBetter(side: Side, levels: seq<Level>, limit: real): real {
    if levels == [] then 0.0
    else
      (if AtOrBetter(side, levels[0].price, limit) then levels[0].quantity else 0.0)
      + DepthAtOrBetter(side, levels[1..], limit)
  }

  function DepthBetter(side: Side, levels: seq<Level>, limit: real): real {
    if levels == [] then 0.0
    else
      (if Better(side, levels[0].price, limit) then levels[0].quantity else 0.0)
      + DepthBetter(side, levels[1..], limit)
  }

  function Depth(levels: seq<Level>): real {
    if levels == [] then 0.0 else levels[0].quantity + Depth(levels[1..])
  }

  // ---- sums ----

  lemma {:induction false} QuantityCons(fill: Level, fills: seq<Level>)
    ensures Quantity([fill] + fills) == fill.quantity + Quantity(fills)
    ensures Cost([fill] + fills) == Value(fill) + Cost(fills)
    decreases |fills|
  {
    var all := [fill] + fills;
    if fills == [] {
      assert all[..|all| - 1] == [];
    } else {
      assert all[..|all| - 1] == [fill] + fills[..|fills| - 1];
      QuantityCons(fill, fills[..|fills| - 1]);
    }
  }

  lemma {:induction false} QuantitySnoc(fills: seq<Level>, fill: Level)
    ensures Quantity(fills + [fill]) == Quantity(fills) + fill.quantity
    ensures Cost(fills + [fill]) == Cost(fills) + Value(fill)
  {
    assert (fills + [fill])[..|fills|] == fills;
  }

  // ---- what a walk takes ----

  /** The walk fills the quantity, or the whole book if that is less. */
  lemma {:induction false} WalkFillsWhatItCan(levels: seq<Level>, quantity: real)
    requires AllOk(levels) && quantity >= 0.0
    ensures Walkable(levels, quantity)
    ensures Quantity(Walk(levels, quantity)) == MinReal(quantity, Depth(levels))
    ensures Depth(levels) >= 0.0
    decreases |levels|
  {
    if levels != [] {
      var taken := MinReal(quantity, levels[0].quantity);
      WalkFillsWhatItCan(levels[1..], quantity - taken);
      if quantity > 0.0 {
        QuantityCons(Level(levels[0].price, taken), Walk(levels[1..], quantity - taken));
      }
    }
  }

  /** Fills are positive, and on a best-first book none is worse than the last. */
  lemma {:induction false} WalkFillsWithinLast(side: Side, levels: seq<Level>, quantity: real)
    requires AllOk(levels) && BestFirst(side, levels)
    ensures var fills := Walk(levels, quantity);
            && (forall i :: 0 <= i < |fills| ==>
                  LevelOk(fills[i]) && AtOrBetter(side, fills[i].price, fills[|fills| - 1].price))
            && |fills| <= |levels|
            && (forall i :: 0 <= i < |fills| ==> fills[i].price == levels[i].price)
    decreases |levels|
  {
    if levels != [] && quantity > 0.0 {
      var taken := MinReal(quantity, levels[0].quantity);
      WalkFillsWithinLast(side, levels[1..], quantity - taken);
    }
  }

  lemma {:induction false} NothingBetterThanHead(side: Side, levels: seq<Level>, limit: real)
    requires forall i :: 0 <= i < |levels| ==> AtOrBetter(side, limit, levels[i].price)
    ensures DepthBetter(side, levels, limit) == 0.0
    decreases |levels|
  {
    if levels != [] {
      NothingBetterThanHead(side, levels[1..], limit);
    }
  }

  lemma {:induction false} DepthNonNegative(side: Side, levels: seq<Level>, limit: real)
    requires AllOk(levels)
    ensures DepthAtOrBetter(side, levels, limit) >= 0.0
    decreases |levels|
  {
    if levels != [] {
      DepthNonNegative(side, levels[1..], limit);
    }
  }

  lemma {:induction false} LastFillIsTightest(side: Side, levels: seq<Level>, quantity: real)
    requires AllOk(levels) && BestFirst(side, levels) && quantity > 0.0 && levels != []
    ensures var fills := Walk(levels, quantity);
            fills != [] &&
            var limit := fills[|fills| - 1].price;
            && DepthAtOrBetter(side, levels, limit) >= Quantity(fills)
            && DepthBetter(side, levels, limit) < quantity
    decreases |levels|
  {
    var taken := MinReal(quantity, levels[0].quantity);
    var rest := Walk(levels[1..], quantity - taken);
    QuantityCons(Level(levels[0].price, taken), rest);
    WalkFillsWithinLast(side, levels, quantity);
    if quantity > levels[0].quantity && |levels| > 1 {
      LastFillIsTightest(side, levels[1..], quantity - taken);
    } else {
      assert rest == [];
      NothingBetterThanHead(side, levels, levels[0].price);
      DepthNonNegative(side, levels[1..], levels[0].price);
    }
  }

  /**
    On a best-first book of positive levels a limit comes back exactly when the depth covers the
    quantity up to the tolerance. The limit is the tightest: the depth at or better than it gives
    all that can be filled, the depth strictly better does not reach the quantity.
   */
  lemma {:induction false} WorstConsumedExact(side: Side, levels: seq<Level>, quantity: real)
    requires AllOk(levels) && BestFirst(side, levels) && quantity > 0.0
    ensures WorstConsumed(levels, quantity).Some? <==> levels != [] && Depth(levels) >= quantity - Tolerance(quantity)
    ensures WorstConsumed(levels, quantity).Some? ==>
              var limit := WorstConsumed(levels, quantity).value;
              && DepthAtOrBetter(side, levels, limit) >= MinReal(quantity, Depth(levels))
              && DepthBetter(side, levels, limit) < quantity
  {
    WalkFillsWhatItCan(levels, quantity);
    if levels != [] {
      LastFillIsTightest(side, levels, quantity);
    }
  }

  // ---- how much depth a limit and an approval need, in figures ----

  /** All of the quantity but its 1e-9 part, or but 1e-12 of a small one. */
  predicate Covers(depth: real, quantity: real) {
    depth >= (if quantity >= 0.001 then quantity - quantity / 1000000000.0 else quantity - 0.000000000001)
  }

  /** A limit comes back exactly when the depth covers the quantity. */
  lemma LimitNeedsDepth(levels: seq<Level>, quantity: real)
    requires AllOk(levels) && quantity > 0.0
    ensures WorstConsumed(levels, quantity).Some? <==> levels != [] && Covers(Depth(levels), quantity)
  {
    WalkFillsWhatItCan(levels, quantity);
    ToleranceIs(quantity);
  }

  lemma ToleranceIs(quantity: real)
    requires quantity > 0.0
    ensures Tolerance(quantity) == if quantity >= 0.001 then quantity / 1000000000.0 else 0.000000000001
  {
  }

  /** The levels a walk consumes are good ones, and hold what it fills. */
  lemma {:induction false} WalkedLevels(levels: seq<Level>, quantity: real)
    requires Walkable(levels, quantity)
    ensures var n := |Walk(levels, quantity)|;
            n <= |levels| && AllOk(levels[..n]) && Quantity(Walk(levels, quantity)) <= Depth(levels[..n])
    decreases |levels|
  {
    if levels != [] && quantity > 0.0 {
      var taken := MinReal(quantity, levels[0].quantity);
      var rest := Walk(levels[1..], quantity - taken);
      WalkedLevels(levels[1..], quantity - taken);
      QuantityCons(Level(levels[0].price, taken), rest);
      assert levels[..|rest| + 1][1..] == levels[1..][..|rest|];
    }
  }

  // ---- the loops ----

  /** A step of either loop moves one fill from the rest of the walk to the part already made. */
  lemma WalkStep(levels: seq<Level>, quantity: real, i: nat, remaining: real, fills: seq<Level>)
    requires i < |levels| && remaining > 0.0
    requires Walk(levels, quantity) == fills + Walk(levels[i..], remaining)
    ensures var fill := Level(levels[i].price, MinReal(remaining, levels[i].quantity));
            && Walk(levels, quantity) == (fills + [fill]) + Walk(levels[i + 1..], remaining - fill.quantity)
            && (Walkable(levels[i..], remaining)
                <==> LevelOk(levels[i]) && Walkable(levels[i + 1..], remaining - fill.quantity))
            && Quantity(fills + [fill]) == Quantity(fills) + fill.quantity
            && Cost(fills + [fill]) == Cost(fills) + Value(fill)
  {
    assert levels[i..][1..] == levels[i + 1..];
    var fill := Level(levels[i].price, MinReal(remaining, levels[i].quantity));
    QuantitySnoc(fills, fill);
    assert fills + ([fill] + Walk(levels[i + 1..], remaining - fill.quantity))
        == (fills + [fill]) + Walk(levels[i + 1..], remaining - fill.quantity);
  }

  lemma {:induction false} WalkDone(levels: seq<Level>, quantity: real, i: nat, remaining: real, fills: seq<Level>)
    requires i <= |levels| && (i == |levels| || remaining <= 0.0)
    requires Walk(levels, quantity) == fills + Walk(levels[i..], remaining)
    ensures Walk(levels, quantity) == fills && Walkable(levels[i..], remaining)
  {
    assert Walk(levels[i..], remaining) == [];
    assert fills + [] == fills;
  }

  method ResolveWorstConsumedPrice(levels: seq<Level>, requestedQuantity: real) returns (r: Result<Option<real>>)
    ensures r.Err? <==> !Walkable(levels, requestedQuantity)
    ensures r.Ok? ==> r.value == WorstConsumed(levels, requestedQuantity)
  {
    var remaining := requestedQuantity;
    var worstPrice := None;
    ghost var fills: seq<Level> := [];
    var i := 0;
    assert levels[0..] == levels;
    while i < |levels| && remaining > 0.0
      invariant 0 <= i <= |levels|
      invariant Walk(levels, requestedQuantity) == fills + Walk(levels[i..], remaining)
      invariant Walkable(levels, requestedQuantity) <==> Walkable(levels[i..], remaining)
      invariant remaining == requestedQuantity - Quantity(fills)
      invariant worstPrice == LastPrice(fills)
    {
      var level := levels[i];
      WalkStep(levels, requestedQuantity, i, remaining, fills);
      if level.price <= 0.0 || level.quantity <= 0.0 {
        return Err;
      }
      var consumed := MinReal(remaining, level.quantity);
      if consumed > 0.0 {
        worstPrice := Some(level.price);
        remaining := remaining - consumed;
        fills := fills + [Level(level.price, consumed)];
      }
      i := i + 1;
    }
    WalkDone(levels, requestedQuantity, i, remaining, fills);
    return Ok(if remaining <= Tolerance(requestedQuantity) then worstPrice else None);
  }

  datatype Vwap = Vwap(filledQuantity: real, totalCost: real, averagePrice: real, unfilledQuantity: real)

  function Average(total: real, quantity: real): real {
    if quantity > 0.0 then total / quantity else 0.0
  }

  method CalculateVwap(levels: seq<Level>, requestedQuantity: real) returns (r: Result<Vwap>)
    ensures r.Err? <==> requestedQuantity <= 0.0 || !Walkable(levels, requestedQuantity)
    ensures r.Ok? ==>
              var fills := Walk(levels, requestedQuantity);
              r.value == Vwap(Quantity(fills), Cost(fills), Average(Cost(fills), Quantity(fills)),
                              requestedQuantity - Quantity(fills))
  {
    if requestedQuantity <= 0.0 {
      return Err;
    }
    var remaining, filledQuantity, totalCost := requestedQuantity, 0.0, 0.0;
    ghost var fills: seq<Level> := [];
    var i := 0;
    assert levels[0..] == levels;
    while i < |levels| && remaining > 0.0
      invariant 0 <= i <= |levels|
      invariant Walk(levels, requestedQuantity) == fills + Walk(levels[i..], remaining)
      invariant Walkable(levels, requestedQuantity) <==> Walkable(levels[i..], remaining)
      invariant filledQuantity == Quantity(fills) && totalCost == Cost(fills)
      invariant remaining == requestedQuantity - filledQuantity
    {
      var level := levels[i];
      WalkStep(levels, requestedQuantity, i, remaining, fills);
      if level.price <= 0.0 || level.quantity <= 0.0 {
        return Err;
      }
      var fillQuantity := MinReal(remaining, level.quantity);
      totalCost := totalCost + Value(Level(level.price, fillQuantity));
      filledQuantity := filledQuantity + fillQuantity;
      remaining := remaining - fillQuantity;
      fills := fills + [Level(level.price, fillQuantity)];
      i := i + 1;
    }
    WalkDone(levels, requestedQuantity, i, remaining, fills);
    return Ok(Vwap(filledQuantity, totalCost, Average(totalCost, filledQuantity), remaining));
  }
}
