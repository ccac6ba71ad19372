/** The structural position limits (qtrader/compliance/position_limiter.py). */
module PositionLimiter {
  import opened Base
  import opened MapSums

  datatype Config = Config(symbolLimit: real, aggregateLimit: real)

  datatype Side = Buy | Sell

  datatype Order = Order(symbol: string, side: Side, size: real)

  datatype Decision = Allowed | SymbolBreach | AggregateBreach

  type Positions = map<string, real>

  ghost function Sizes(positions: Positions): map<string, real> {
    map s | s in positions :: Abs(positions[s])
  }

  /** Account-wide exposure: the sum of absolute positions. */
  ghost function Exposure(positions: Positions): real {
    Sum(Sizes(positions))
  }

  function Target(order: Order, current: real): real {
    current + (if order.side == Buy then order.size else -order.size)
  }

  /** The book after the order fills completely. */
  function Filled(positions: Positions, order: Order): Positions {
    positions[order.symbol := Target(order, Get(positions, order.symbol, 0.0))]
  }

  lemma ExposureAfterFill(positions: Positions, order: Order)
    ensures var current := Get(positions, order.symbol, 0.0);
            Exposure(Filled(positions, order)) == Exposure(positions) - Abs(current) + Abs(Target(order, current))
  {
    var target := Target(order, Get(positions, order.symbol, 0.0));
    assert Sizes(Filled(positions, order)) == Sizes(positions)[order.symbol := Abs(target)];
    SumUpdate(Sizes(positions), order.symbol, Abs(target));
    assert Get(Sizes(positions), order.symbol, 0.0) == Abs(Get(positions, order.symbol, 0.0));
  }

  /** What a decision should mean, in terms of the book a fill would lead to. */
  ghost predicate Meant(cfg: Config, order: Order, positions: Positions, d: Decision) {
    var current, after := Get(positions, order.symbol, 0.0), Filled(positions, order);
    var reduces := Abs(after[order.symbol]) < Abs(current);
    match d
    case Allowed => reduces || (Abs(after[order.symbol]) <= cfg.symbolLimit && Exposure(after) <= cfg.aggregateLimit)
    case SymbolBreach => !reduces && Abs(after[order.symbol]) > cfg.symbolLimit
    case AggregateBreach =>
      !reduces && Abs(after[order.symbol]) <= cfg.symbolLimit && Exposure(after) > cfg.aggregateLimit
  }

  /** The gate as the caller meets it: the current position is reported apart from the book. */
  ghost function Decide(cfg: Config, order: Order, reported: real, positions: Positions): Decision {
    var target := Target(order, reported);
    if Abs(target) < Abs(reported) then Allowed
    else if Abs(target) > cfg.symbolLimit then SymbolBreach
    else if Exposure(positions) - Abs(reported) + Abs(target) > cfg.aggregateLimit then AggregateBreach
    else Allowed
  }

  /** When the reported position is the book's own, the gate decides as the resulting book calls for. */
  lemma FaithfulGate(cfg: Config, order: Order, positions: Positions, d: Decision)
    ensures Decide(cfg, order, Get(positions, order.symbol, 0.0), positions) == d <==> Meant(cfg, order, positions, d)
  {
    hide Exposure;
    ExposureAfterFill(positions, order);
  }

  /**
   How far a false report can go: whatever is reported, a fill of an allowed order leaves the account
   within its limit, or within its present exposure, up to twice the error of the report.
   */
  lemma FalseReportBound(cfg: Config, order: Order, reported: real, positions: Positions)
    requires Decide(cfg, order, reported, positions) == Allowed
    ensures Exposure(Filled(positions, order))
         <= Max(Exposure(positions), cfg.aggregateLimit) + 2.0 * Abs(Get(positions, order.symbol, 0.0) - reported)
  {
    hide Exposure;
    ExposureAfterFill(positions, order);
  }

  class Limiter {
    const config: Config
    var blockedOrders: nat
    var breachedSymbols: set<string>

    constructor (config: Config)
      ensures this.config == config && blockedOrders == 0 && breachedSymbols == {}
    {
      this.config := config;
      blockedOrders, breachedSymbols := 0, {};
    }

    /** `sum(abs(v) for v in all_positions.values())` */
    method Aggregate(positions: Positions) returns (total: real)
      ensures total == Exposure(positions)
    {
      hide Sizes, Restrict;
      ghost var sizes := Sizes(positions);
      SizeAt(positions);
      SumRestrictEnds(sizes);
      total := 0.0;
      var rest := positions.Keys;
      while rest != {}
        invariant rest <= positions.Keys
        invariant total + Sum(Restrict(sizes, rest)) == Sum(sizes)
        decreases rest
      {
        var symbol :| symbol in rest;
        SumRestrict(sizes, rest, symbol);
        total := total + Abs(positions[symbol]);
        rest := rest - {symbol};
      }
    }

    /** `validate_order`; the source returns whether the decision is `Allowed` and logs which breach it is. */
    method ValidateOrder(order: Order, currentPos: real, allPositions: Positions) returns (decision: Decision)
      modifies this
      ensures decision == Decide(config, order, currentPos, allPositions)
      ensures decision == Allowed ==> blockedOrders == old(blockedOrders) && breachedSymbols == old(breachedSymbols)
      ensures decision != Allowed ==> blockedOrders == old(blockedOrders) + 1
      ensures decision != Allowed ==> breachedSymbols == old(breachedSymbols) + {order.symbol}
    {
      hide Exposure;
      var delta := if order.side == Buy then order.size else -order.size;
      var targetSymbolPos := currentPos + delta;
      if Abs(targetSymbolPos) < Abs(currentPos) {
        return Allowed;
      }
      if Abs(targetSymbolPos) > config.symbolLimit {
        RecordViolation(order.symbol);
        return SymbolBreach;
      }
      var currentAggregate := Aggregate(allPositions);
      var targetAggregate := currentAggregate - Abs(currentPos) + Abs(targetSymbolPos);
      if targetAggregate > config.aggregateLimit {
        RecordViolation(order.symbol);
        return AggregateBreach;
      }
      decision := Allowed;
    }

    method RecordViolation(symbol: string)
      modifies this
      ensures blockedOrders == old(blockedOrders) + 1 && breachedSymbols == old(breachedSymbols) + {symbol}
    {
      blockedOrders := blockedOrders + 1;
      breachedSymbols := breachedSymbols + {symbol};
    }
  }

  lemma SizeAt(positions: Positions)
    ensures Sizes(positions).Keys == positions.Keys
    ensures forall s :: s in positions ==> Sizes(positions)[s] == Abs(positions[s])
  {
  }

  // ---- Runs in which approved orders fill ---------------------------------------------------

  ghost function Run(cfg: Config, positions: Positions, orders: seq<Order>): Positions {
    if orders == [] then positions
    else
      var before := Run(cfg, positions, orders[..|orders| - 1]);
      var order := orders[|orders| - 1];
      if Decide(cfg, order, Get(before, order.symbol, 0.0), before) == Allowed then Filled(before, order) else before
  }

  /** What the allowed ones among these orders bought of a symbol, net of what they sold of it. */
  ghost function NetAllowed(cfg: Config, positions: Positions, orders: seq<Order>, s: string): real {
    if orders == [] then 0.0
    else
      var shorter, o := orders[..|orders| - 1], orders[|orders| - 1];
      var before := Run(cfg, positions, shorter);
      NetAllowed(cfg, positions, shorter, s)
        + (if o.symbol != s || Decide(cfg, o, Get(before, s, 0.0), before) != Allowed then 0.0
           else if o.side == Buy then o.size else -o.size)
  }

  /** Positions are what they were plus what the allowed orders bought, net; nothing else moves them. */
  lemma {:induction false} PositionsAreNet(cfg: Config, positions: Positions, orders: seq<Order>, s: string)
    ensures Get(Run(cfg, positions, orders), s, 0.0) == Get(positions, s, 0.0) + NetAllowed(cfg, positions, orders, s)
  {
    hide Exposure, Decide;
    if orders != [] {
      PositionsAreNet(cfg, positions, orders[..|orders| - 1], s);
    }
  }

  /**
   The decision in numbers, for an order in a symbol of which `held` is held and reported, and a book
   of exposure `total`: what is asked of the position `after` the fill.
   */
  lemma AllowedInNumbers(cfg: Config, order: Order, positions: Positions, held: real, after: real)
    requires held == Get(positions, order.symbol, 0.0)
    requires after == (if order.side == Buy then held + order.size else held - order.size)
    ensures Decide(cfg, order, held, positions) == Allowed
       <==> || Abs(after) < Abs(held)
            || (Abs(after) <= cfg.symbolLimit && Sum(Sizes(positions)) + Abs(after) - Abs(held) <= cfg.aggregateLimit)
  {
  }

  ghost predicate SymbolsWithin(cfg: Config, positions: Positions) {
    forall s :: s in positions ==> Abs(positions[s]) <= cfg.symbolLimit
  }

  function Excess(amount: real, limit: real): real {
    Max(amount - limit, 0.0)
  }

  lemma FillNeverWorsens(cfg: Config, positions: Positions, order: Order, s: string)
    requires Meant(cfg, order, positions, Allowed)
    ensures var after := Filled(positions, order);
            && Excess(Exposure(after), cfg.aggregateLimit) <= Excess(Exposure(positions), cfg.aggregateLimit)
            && Excess(Abs(Get(after, s, 0.0)), cfg.symbolLimit) <= Excess(Abs(Get(positions, s, 0.0)), cfg.symbolLimit)
  {
    hide Exposure;
    ExposureAfterFill(positions, order);
  }

  /** From any book, no excess over a limit ever grows: not of one symbol, not of the account. */
  lemma {:induction false} ExcessNeverGrows(cfg: Config, positions: Positions, orders: seq<Order>, s: string)
    ensures var after := Run(cfg, positions, orders);
            && Excess(Exposure(after), cfg.aggregateLimit) <= Excess(Exposure(positions), cfg.aggregateLimit)
            && Excess(Abs(Get(after, s, 0.0)), cfg.symbolLimit) <= Excess(Abs(Get(positions, s, 0.0)), cfg.symbolLimit)
  {
    hide Meant, Decide, Exposure, Filled;
    if orders != [] {
      var shorter, order := orders[..|orders| - 1], orders[|orders| - 1];
      ExcessNeverGrows(cfg, positions, shorter, s);
      FaithfulGate(cfg, order, Run(cfg, positions, shorter), Allowed);
      if Meant(cfg, order, Run(cfg, positions, shorter), Allowed) {
        FillNeverWorsens(cfg, Run(cfg, positions, shorter), order, s);
      }
    }
  }

  /** Limits that hold, hold forever. */
  lemma LimitsHoldForever(cfg: Config, positions: Positions, orders: seq<Order>)
    requires SymbolsWithin(cfg, positions) && Exposure(positions) <= cfg.aggregateLimit && cfg.symbolLimit >= 0.0
    ensures SymbolsWithin(cfg, Run(cfg, positions, orders))
    ensures Exposure(Run(cfg, positions, orders)) <= cfg.aggregateLimit
  {
    hide Run, Exposure;
    ExcessNeverGrows(cfg, positions, orders, "");
    forall s | s in Run(cfg, positions, orders)
      ensures Abs(Run(cfg, positions, orders)[s]) <= cfg.symbolLimit
    {
      ExcessNeverGrows(cfg, positions, orders, s);
    }
  }
}
