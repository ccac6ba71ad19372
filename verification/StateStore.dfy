/** The central state store and its published snapshots (qtrader/core/state_store.py). */
module StateStore {
  import opened Base
  import opened Products
  import opened Replication

  datatype Limits = Limits(maxEquityPoints: nat, maxActiveOrders: nat, maxPositions: nat)

  datatype State = State(version: nat, positions: map<string, Position>, orders: map<string, Order>,
                         equityCurve: seq<(real, real)>, portfolioValue: real)

  const EMPTY := State(0, map[], map[], [], 0.0)

  function SnapshotOf(s: State): Snapshot {
    Snapshot(s.version, s.positions, s.orders, s.portfolioValue)
  }

  /**
   The writes. The last two raise the version without publishing: the setters of risk state, risk
   metrics, multiplier and signal time, and `update_performance_metrics`.
   */
  datatype Write =
    | SetPosition(position: Position)
    | UpdatePosition(symbol: string, delta: real, price: real)
    | SetPortfolioValue(value: real)
    | AppendEquity(time: real, value: real)
    | SetOrder(order: Order)
    | RemoveOrder(id: string)
    | SetRisk
    | UpdatePerformance(quantity: real, price: real)

  predicate Publishes(w: Write) {
    !w.SetRisk? && !w.UpdatePerformance?
  }

  /** At capacity even an update of a known position or order is refused. */
  predicate Accepts(limits: Limits, s: State, w: Write) {
    match w
    case SetPosition(_) => |s.positions| < limits.maxPositions
    case SetOrder(_) => |s.orders| < limits.maxActiveOrders
    case _ => true
  }

  function MovedPosition(p: Position, delta: real, price: real): Position
    requires p.quantity + delta != 0.0
  {
    var quantity := p.quantity + delta;
    var totalCost := Times(p.averagePrice, Abs(p.quantity)) + Times(price, Abs(delta));
    p.(quantity := quantity, averagePrice := Over(totalCost, Abs(quantity)))
  }

  function PositionsAfter(positions: map<string, Position>, symbol: string, delta: real, price: real)
    : map<string, Position>
  {
    if symbol in positions then
      if positions[symbol].quantity + delta == 0.0 then positions - {symbol}
      else positions[symbol := MovedPosition(positions[symbol], delta, price)]
    else if delta != 0.0 then positions[symbol := Position(symbol, delta, price, 0.0)]
    else positions
  }

  function OrdersWithout(orders: map<string, Order>, id: string): map<string, Order> {
    orders - {id}
  }

  function Perform(limits: Limits, s: State, w: Write): State {
    if !Accepts(limits, s, w) then s
    else
      var t := s.(version := s.version + 1);
      match w
      case SetPosition(p) => t.(positions := s.positions[p.symbol := p])
      case UpdatePosition(symbol, delta, price) => t.(positions := PositionsAfter(s.positions, symbol, delta, price))
      case SetPortfolioValue(value) => t.(portfolioValue := value)
      case AppendEquity(time, value) =>
        t.(equityCurve := LastN(s.equityCurve + [(time, value)], limits.maxEquityPoints))
      case SetOrder(o) => t.(orders := s.orders[o.id := o])
      case RemoveOrder(id) => t.(orders := OrdersWithout(s.orders, id))
      case SetRisk => t
      case UpdatePerformance(quantity, price) =>
        t.(portfolioValue := s.portfolioValue + Times(price, Abs(quantity)) * 0.0001)
  }

  /** The body of `update_position` on the position map. */
  method MoveOne(positions: map<string, Position>, symbol: string, delta: real, price: real)
    returns (after: map<string, Position>)
    ensures after == PositionsAfter(positions, symbol, delta, price)
  {
    hide Times, Over;
    after := positions;
    if symbol in positions {
      var existing := positions[symbol];
      var newQty := existing.quantity + delta;
      if newQty == 0.0 {
        after := positions - {symbol};
      } else {
        var totalCost := Times(existing.averagePrice, Abs(existing.quantity)) + Times(price, Abs(delta));
        after := positions[symbol := existing.(quantity := newQty, averagePrice := Over(totalCost, Abs(newQty)))];
      }
    } else if delta != 0.0 {
      after := positions[symbol := Position(symbol, delta, price, 0.0)];
    }
  }

  /**
   `update_position` carries the cost of the position - quantity times average price, plus the
   traded quantity times its price - exactly when the trade adds to the position. A reduction adds
   its cost as well, so the average comes out too high.
   */
  lemma AverageCarriesCostExactly(p: Position, delta: real, price: real)
    requires p.averagePrice > 0.0 && price > 0.0
    requires p.quantity != 0.0 && delta != 0.0 && p.quantity + delta != 0.0
    ensures Times(p.quantity + delta, MovedPosition(p, delta, price).averagePrice)
            == Times(p.quantity, p.averagePrice) + Times(delta, price)
       <==> (p.quantity > 0.0 <==> delta > 0.0)
  {
    hide Times, Over;
    var after := MovedPosition(p, delta, price);
    TimesOver(Times(p.averagePrice, Abs(p.quantity)) + Times(price, Abs(delta)), Abs(after.quantity));
    SignedCost(after.quantity, after.averagePrice);
    SignedCost(p.quantity, p.averagePrice);
    SignedCost(delta, price);
  }

  /** Selling half of a position at its own cost of 100 raises its average price to 300. */
  lemma ReductionRaisesAverage()
    ensures MovedPosition(Position("BTC", 10.0, 100.0, 0.0), -5.0, 100.0).averagePrice == 300.0
  {
    assert Times(100.0, 10.0) + Times(100.0, 5.0) == 1500.0;
    OverUnique(1500.0, 5.0, 300.0);
  }

  lemma SignedCost(quantity: real, price: real)
    ensures Times(quantity, price)
         == (if quantity >= 0.0 then Times(price, Abs(quantity)) else -Times(price, Abs(quantity)))
    ensures Times(price, Abs(quantity)) == Times(Abs(quantity), price)
    ensures price > 0.0 && quantity != 0.0 ==> Times(price, Abs(quantity)) > 0.0
  {
    hide Times;
    TimesSwap(quantity, price);
    TimesSwap(Abs(quantity), price);
    TimesNegate(price, -quantity);
    TimesSign(price, Abs(quantity));
  }

  class Store {
    const limits: Limits
    var version: nat
    var positions: map<string, Position>
    var orders: map<string, Order>
    var equityCurve: seq<(real, real)>
    var portfolioValue: real
    var replicator: StateReplicator?

    function Value(): State
      reads this
    {
      State(version, positions, orders, equityCurve, portfolioValue)
    }

    constructor (limits: Limits, replicator: StateReplicator?)
      ensures this.limits == limits && this.replicator == replicator && Value() == EMPTY
    {
      this.limits, this.replicator := limits, replicator;
      version, positions, orders, equityCurve, portfolioValue := 0, map[], map[], [], 0.0;
    }

    /** `_publish_if_primary` */
    method PublishIfPrimary(now: real)
      modifies replicator
      ensures replicator != null ==>
                && replicator.role == old(replicator.role)
                && replicator.published
                     == old(replicator.published) + (if replicator.role == Primary then [SnapshotOf(Value())] else [])
    {
      if replicator != null && replicator.role == Primary {
        var checksum := replicator.PublishState(Snapshot(version, positions, orders, portfolioValue), now);
      }
    }

    method SetPosition(position: Position, now: real)
      modifies this`positions, this`version, replicator
      ensures Value() == Perform(limits, old(Value()), Write.SetPosition(position))
      ensures replicator != null ==>
                replicator.published
                == old(replicator.published)
                   + Announced(limits, old(Value()), Write.SetPosition(position), old(replicator.role))
    {
      hide Times, Over, MovedPosition, PositionsAfter, OrdersWithout, LastN;
      if |positions| >= limits.maxPositions {
        return;
      }
      positions := positions[position.symbol := position];
      version := version + 1;
      PublishIfPrimary(now);
    }

    method UpdatePosition(symbol: string, delta: real, price: real, now: real)
      modifies this`positions, this`version, replicator
      ensures Value() == Perform(limits, old(Value()), Write.UpdatePosition(symbol, delta, price))
      ensures replicator != null ==>
                replicator.published
                == old(replicator.published)
                   + Announced(limits, old(Value()), Write.UpdatePosition(symbol, delta, price), old(replicator.role))
    {
      hide Times, Over, MovedPosition, PositionsAfter, OrdersWithout, LastN;
      positions := MoveOne(positions, symbol, delta, price);
      version := version + 1;
      PublishIfPrimary(now);
    }

    method AppendToEquityCurve(time: real, value: real, now: real)
      modifies this`equityCurve, this`version, replicator
      ensures Value() == Perform(limits, old(Value()), AppendEquity(time, value))
      ensures replicator != null ==>
                replicator.published
                == old(replicator.published)
                   + Announced(limits, old(Value()), AppendEquity(time, value), old(replicator.role))
    {
      hide Times, Over, MovedPosition, PositionsAfter;
      equityCurve := equityCurve + [(time, value)];
      if |equityCurve| > limits.maxEquityPoints {
        equityCurve := equityCurve[|equityCurve| - limits.maxEquityPoints..];
      }
      version := version + 1;
      PublishIfPrimary(now);
    }

    method SetOrder(order: Order, now: real)
      modifies this`orders, this`version, replicator
      ensures Value() == Perform(limits, old(Value()), Write.SetOrder(order))
      ensures replicator != null ==>
                replicator.published
                == old(replicator.published)
                   + Announced(limits, old(Value()), Write.SetOrder(order), old(replicator.role))
    {
      hide Times, Over, MovedPosition, PositionsAfter, OrdersWithout, LastN;
      if |orders| >= limits.maxActiveOrders {
        return;
      }
      orders := orders[order.id := order];
      version := version + 1;
      PublishIfPrimary(now);
    }

    method RemoveOrder(id: string, now: real)
      modifies this`orders, this`version, replicator
      ensures Value() == Perform(limits, old(Value()), Write.RemoveOrder(id))
      ensures replicator != null ==>
                replicator.published
                == old(replicator.published)
                   + Announced(limits, old(Value()), Write.RemoveOrder(id), old(replicator.role))
    {
      hide Times, Over, MovedPosition, PositionsAfter, OrdersWithout, LastN;
      orders := OrdersWithout(orders, id);
      version := version + 1;
      PublishIfPrimary(now);
    }

    method SetPortfolioValue(value: real, now: real)
      modifies this`portfolioValue, this`version, replicator
      ensures Value() == Perform(limits, old(Value()), Write.SetPortfolioValue(value))
      ensures replicator != null ==>
                replicator.published
                == old(replicator.published)
                   + Announced(limits, old(Value()), Write.SetPortfolioValue(value), old(replicator.role))
    {
      hide Times, Over, MovedPosition, PositionsAfter, OrdersWithout, LastN;
      portfolioValue := value;
      version := version + 1;
      PublishIfPrimary(now);
    }

    /** The setters of risk state, risk metrics, multiplier and signal time: a new version, no snapshot. */
    method WriteRisk()
      modifies this`version
      ensures Value() == Perform(limits, old(Value()), SetRisk)
    {
      version := version + 1;
    }

    /** `update_performance_metrics` adds one basis point of the traded value, and publishes nothing. */
    method UpdatePerformanceMetrics(quantity: real, price: real)
      modifies this`portfolioValue, this`version
      ensures Value() == Perform(limits, old(Value()), UpdatePerformance(quantity, price))
    {
      hide Times, Over, MovedPosition, PositionsAfter, OrdersWithout, LastN;
      portfolioValue := portfolioValue + Times(price, Abs(quantity)) * 0.0001;
      version := version + 1;
    }
  }

  /** The snapshot a write announces: one if it is accepted, publishing and done by a primary. */
  ghost function Announced(limits: Limits, s: State, w: Write, role: Role): seq<Snapshot> {
    if role == Primary && Publishes(w) && Accepts(limits, s, w) then [SnapshotOf(Perform(limits, s, w))] else []
  }

  // ---- Runs ---------------------------------------------------------------------------------

  /** A write, by a node that at that moment has the given role. */
  datatype Action = Action(write: Write, role: Role)

  function Run(limits: Limits, actions: seq<Action>): State {
    if actions == [] then EMPTY
    else Perform(limits, Run(limits, actions[..|actions| - 1]), actions[|actions| - 1].write)
  }

  ghost function PublishedBy(limits: Limits, actions: seq<Action>): seq<Snapshot> {
    if actions == [] then []
    else
      var shorter, a := actions[..|actions| - 1], actions[|actions| - 1];
      PublishedBy(limits, shorter) + Announced(limits, Run(limits, shorter), a.write, a.role)
  }

  ghost function AcceptedWrites(limits: Limits, actions: seq<Action>): nat {
    if actions == [] then 0
    else
      var shorter, a := actions[..|actions| - 1], actions[|actions| - 1];
      AcceptedWrites(limits, shorter) + (if Accepts(limits, Run(limits, shorter), a.write) then 1 else 0)
  }

  ghost function PublishingWrites(limits: Limits, actions: seq<Action>): nat {
    if actions == [] then 0
    else
      var shorter, a := actions[..|actions| - 1], actions[|actions| - 1];
      var announced := a.role == Primary && Publishes(a.write) && Accepts(limits, Run(limits, shorter), a.write);
      PublishingWrites(limits, shorter) + (if announced then 1 else 0)
  }

  lemma PerformVersion(limits: Limits, s: State, w: Write)
    ensures Perform(limits, s, w).version == s.version + (if Accepts(limits, s, w) then 1 else 0)
  {
  }

  /**
   Published versions strictly increase, one for each accepted publishing write of a primary, and
   never exceed the store's own version, which counts the accepted writes.
   */
  lemma {:induction false} PublishedVersionsIncrease(limits: Limits, actions: seq<Action>)
    ensures VersionsIncrease(PublishedBy(limits, actions))
    ensures forall i :: 0 <= i < |PublishedBy(limits, actions)| ==>
              PublishedBy(limits, actions)[i].version <= Run(limits, actions).version
    ensures Run(limits, actions).version == AcceptedWrites(limits, actions)
    ensures |PublishedBy(limits, actions)| == PublishingWrites(limits, actions)
  {
    hide Perform, Accepts;
    if actions != [] {
      var shorter, a := actions[..|actions| - 1], actions[|actions| - 1];
      PublishedVersionsIncrease(limits, shorter);
      PerformVersion(limits, Run(limits, shorter), a.write);
    }
  }

  /** A standby fed by this store over an unreliable channel applies strictly increasing versions. */
  lemma StandbyNeverGoesBack(limits: Limits, actions: seq<Action>, digest: Snapshot -> nat, arrivals: seq<Arrival>,
                             k: nat, l: nat)
    requires InOrderChannel(digest, PublishedBy(limits, actions), arrivals)
    requires CollisionFree(digest, PublishedBy(limits, actions), arrivals)
    requires k < l < |Applied(digest, arrivals)|
    ensures Applied(digest, arrivals)[k].body.version < Applied(digest, arrivals)[l].body.version
  {
    PublishedVersionsIncrease(limits, actions);
    StandbyVersionsIncrease(digest, PublishedBy(limits, actions), arrivals, k, l);
  }

  // ---- What the store holds -----------------------------------------------------------------

  /** The quantity the accepted writes leave of a symbol: the last one set, plus the deltas since. */
  ghost function QuantityOf(limits: Limits, actions: seq<Action>, symbol: string): real {
    if actions == [] then 0.0
    else
      var shorter, w := actions[..|actions| - 1], actions[|actions| - 1].write;
      var before := QuantityOf(limits, shorter, symbol);
      match w
      case SetPosition(p) =>
        if p.symbol == symbol && |Run(limits, shorter).positions| < limits.maxPositions then p.quantity else before
      case UpdatePosition(other, delta, _) => if other == symbol then before + delta else before
      case _ => before
  }

  function Held(s: State, symbol: string): real {
    if symbol in s.positions then s.positions[symbol].quantity else 0.0
  }

  lemma QuantityStep(limits: Limits, s: State, w: Write, symbol: string)
    ensures Held(Perform(limits, s, w), symbol)
         == match w
            case SetPosition(p) =>
              if p.symbol == symbol && |s.positions| < limits.maxPositions then p.quantity else Held(s, symbol)
            case UpdatePosition(other, delta, _) =>
              if other == symbol then Held(s, symbol) + delta else Held(s, symbol)
            case _ => Held(s, symbol)
  {
    hide Times, Over, LastN, OrdersWithout;
  }

  /** In every run the quantity held of a symbol is the last one set, plus the deltas since. */
  lemma {:induction false} QuantitiesAreExact(limits: Limits, actions: seq<Action>, symbol: string)
    ensures Held(Run(limits, actions), symbol) == QuantityOf(limits, actions, symbol)
  {
    hide Perform, Held;
    if actions == [] {
      assert Held(EMPTY, symbol) == 0.0 by { NothingHeld(symbol); }
    } else {
      var n := |actions| - 1;
      QuantitiesAreExact(limits, actions[..n], symbol);
      QuantityStep(limits, Run(limits, actions[..n]), actions[n].write, symbol);
    }
  }

  lemma NothingHeld(symbol: string)
    ensures Held(EMPTY, symbol) == 0.0 && OrderIn(EMPTY, symbol) == None
  {
  }

  /** An update touches its own symbol only; it opens at the price it names and closes at quantity 0. */
  lemma UpdateTouchesOneSymbol(positions: map<string, Position>, symbol: string, delta: real, price: real,
                               other: string)
    ensures var after := PositionsAfter(positions, symbol, delta, price);
            && (other != symbol ==> (other in after <==> other in positions))
            && (other != symbol && other in positions ==> after[other] == positions[other])
            && (symbol !in positions && delta != 0.0 ==> after[symbol] == Position(symbol, delta, price, 0.0))
            && (symbol in positions && positions[symbol].quantity == -delta ==> symbol !in after)
            && (symbol in positions && positions[symbol].quantity != -delta ==>
                  symbol in after && after[symbol].marketValue == positions[symbol].marketValue
                  && after[symbol].symbol == positions[symbol].symbol)
  {
    hide Times, Over;
  }

  /** A position that is set is stored as it is, at its own symbol only, unless the store is full. */
  lemma SetStoresThePosition(limits: Limits, s: State, p: Position, symbol: string)
    ensures var after := Perform(limits, s, SetPosition(p)).positions;
            if |s.positions| >= limits.maxPositions then after == s.positions
            else p.symbol in after && after[p.symbol] == p
                 && (symbol != p.symbol ==> (symbol in after <==> symbol in s.positions))
                 && (symbol != p.symbol && symbol in after ==> after[symbol] == s.positions[symbol])
  {
    hide Times, Over, PositionsAfter, LastN;
  }

  /** The last accepted word on an order: the order as set, or nothing once removed. */
  ghost function OrderOf(limits: Limits, actions: seq<Action>, id: string): Option<Order> {
    if actions == [] then None
    else
      var shorter, w := actions[..|actions| - 1], actions[|actions| - 1].write;
      match w
      case SetOrder(o) =>
        if o.id == id && |Run(limits, shorter).orders| < limits.maxActiveOrders then Some(o)
        else OrderOf(limits, shorter, id)
      case RemoveOrder(gone) => if gone == id then None else OrderOf(limits, shorter, id)
      case _ => OrderOf(limits, shorter, id)
  }

  function OrderIn(s: State, id: string): Option<Order> {
    if id in s.orders then Some(s.orders[id]) else None
  }

  lemma OrderStep(limits: Limits, s: State, w: Write, id: string)
    ensures OrderIn(Perform(limits, s, w), id)
         == match w
            case SetOrder(o) => if o.id == id && |s.orders| < limits.maxActiveOrders then Some(o) else OrderIn(s, id)
            case RemoveOrder(gone) => if gone == id then None else OrderIn(s, id)
            case _ => OrderIn(s, id)
  {
    hide Times, Over, PositionsAfter, LastN;
  }

  /** In every run an order is active exactly as the last accepted word on it says. */
  lemma {:induction false} OrdersAreExact(limits: Limits, actions: seq<Action>, id: string)
    ensures OrderIn(Run(limits, actions), id) == OrderOf(limits, actions, id)
  {
    hide Perform, OrderIn;
    if actions == [] {
      NothingHeld(id);
    } else {
      var n := |actions| - 1;
      OrdersAreExact(limits, actions[..n], id);
      OrderStep(limits, Run(limits, actions[..n]), actions[n].write, id);
    }
  }

  /** All equity points ever appended. */
  ghost function Appended(actions: seq<Action>): seq<(real, real)> {
    if actions == [] then []
    else
      var w := actions[|actions| - 1].write;
      Appended(actions[..|actions| - 1]) + (if w.AppendEquity? then [(w.time, w.value)] else [])
  }

  /** The equity curve is the latest points, as many as the limit allows. */
  lemma {:induction false} CurveIsLatest(limits: Limits, actions: seq<Action>)
    ensures Run(limits, actions).equityCurve == LastN(Appended(actions), limits.maxEquityPoints)
  {
    hide Times, Over, PositionsAfter;
    if actions != [] {
      var shorter, w := actions[..|actions| - 1], actions[|actions| - 1].write;
      CurveIsLatest(limits, shorter);
      if w.AppendEquity? {
        LastNOfLastN(Appended(shorter), limits.maxEquityPoints, (w.time, w.value));
      } else {
        assert Appended(shorter) + [] == Appended(shorter);
      }
    }
  }

  lemma LastNOfLastN<T>(s: seq<T>, n: nat, x: T)
    ensures LastN(LastN(s, n) + [x], n) == LastN(s + [x], n)
  {
  }

  /** The portfolio value: the last one set, plus a basis point of everything traded since. */
  ghost function ValueOf(actions: seq<Action>): real {
    if actions == [] then 0.0
    else
      match actions[|actions| - 1].write
      case SetPortfolioValue(value) => value
      case UpdatePerformance(quantity, price) =>
        ValueOf(actions[..|actions| - 1]) + 0.0001 * Times(price, if quantity >= 0.0 then quantity else -quantity)
      case _ => ValueOf(actions[..|actions| - 1])
  }

  lemma {:induction false} PortfolioValueIsExact(limits: Limits, actions: seq<Action>)
    ensures Run(limits, actions).portfolioValue == ValueOf(actions)
  {
    hide Times, Over, PositionsAfter, LastN;
    if actions != [] {
      PortfolioValueIsExact(limits, actions[..|actions| - 1]);
    }
  }

  /** The writes that tell a standby: positions, orders, equity and portfolio value, but not risk or performance. */
  predicate Tells(w: Write) {
    w.SetPosition? || w.UpdatePosition? || w.SetOrder? || w.RemoveOrder? || w.AppendEquity? || w.SetPortfolioValue?
  }

  /** After an accepted telling write of a primary the latest snapshot is the store as it stands. */
  lemma SnapshotIsTheStore(limits: Limits, actions: seq<Action>)
    requires actions != [] && actions[|actions| - 1].role == Primary && Tells(actions[|actions| - 1].write)
    requires Run(limits, actions).version > Run(limits, actions[..|actions| - 1]).version
    ensures var published, state := PublishedBy(limits, actions), Run(limits, actions);
            && published != []
            && var latest := published[|published| - 1];
               && latest.version == state.version && latest.positions == state.positions
               && latest.orders == state.orders && latest.portfolioValue == state.portfolioValue
  {
    hide Times, Over, PositionsAfter, LastN, OrdersWithout;
  }

  /** No other action publishes anything. */
  lemma OthersPublishNothing(limits: Limits, actions: seq<Action>)
    requires actions != []
    requires !Tells(actions[|actions| - 1].write) || actions[|actions| - 1].role != Primary
    ensures PublishedBy(limits, actions) == PublishedBy(limits, actions[..|actions| - 1])
  {
    hide Perform, Run;
    assert PublishedBy(limits, actions[..|actions| - 1]) + [] == PublishedBy(limits, actions[..|actions| - 1]);
  }

  // ---- Retention limits ---------------------------------------------------------------------

  ghost predicate OrdersAndCurveBounded(limits: Limits, s: State) {
    |s.orders| <= limits.maxActiveOrders && |s.equityCurve| <= limits.maxEquityPoints
  }

  lemma MapGrowth<K, V>(m: map<K, V>, k: K, v: V)
    ensures |m[k := v]| == (if k in m then |m| else |m| + 1)
  {
    assert m[k := v].Keys == m.Keys + {k};
    assert |m[k := v]| == |m[k := v].Keys| && |m| == |m.Keys|;
  }

  lemma MapShrinks<K, V>(m: map<K, V>, k: K)
    ensures |m - {k}| == (if k in m then |m| - 1 else |m|)
  {
    assert (m - {k}).Keys == m.Keys - {k};
    assert |m - {k}| == |(m - {k}).Keys| && |m| == |m.Keys|;
  }

  lemma WriteKeepsBounds(limits: Limits, s: State, w: Write)
    requires OrdersAndCurveBounded(limits, s)
    ensures OrdersAndCurveBounded(limits, Perform(limits, s, w))
  {
    hide Times, Over, MovedPosition, PositionsAfter;
    match w
    case SetOrder(o) => MapGrowth(s.orders, o.id, o);
    case RemoveOrder(id) => MapShrinks(s.orders, id);
    case _ =>
  }

  /** Active orders and the equity curve never outgrow their limits. */
  lemma {:induction false} OrdersAndCurveStayBounded(limits: Limits, actions: seq<Action>)
    ensures OrdersAndCurveBounded(limits, Run(limits, actions))
  {
    hide Perform;
    if actions != [] {
      OrdersAndCurveStayBounded(limits, actions[..|actions| - 1]);
      WriteKeepsBounds(limits, Run(limits, actions[..|actions| - 1]), actions[|actions| - 1].write);
    }
  }

  /**
   The announced limit on positions, with its exact condition: a write keeps it unless it is an
   incremental update that opens a new symbol at capacity - the one path without a check.
   */
  lemma PositionLimitExactly(limits: Limits, s: State, w: Write)
    requires |s.positions| <= limits.maxPositions
    ensures |Perform(limits, s, w).positions| <= limits.maxPositions
       <==> !(w.UpdatePosition? && w.symbol !in s.positions && w.delta != 0.0 && |s.positions| == limits.maxPositions)
  {
    hide MovedPosition, Times;
    match w
    case SetPosition(p) => MapGrowth(s.positions, p.symbol, p);
    case UpdatePosition(symbol, delta, price) =>
      if symbol !in s.positions {
        MapGrowth(s.positions, symbol, Position(symbol, delta, price, 0.0));
      } else if s.positions[symbol].quantity + delta == 0.0 {
        MapShrinks(s.positions, symbol);
      } else {
        MapGrowth(s.positions, symbol, MovedPosition(s.positions[symbol], delta, price));
      }
    case _ =>
  }

  /** A reachable store over its limit: with room for one position, two incremental updates open two. */
  lemma PositionLimitFails()
    ensures var limits := Limits(1, 1, 1);
            var first, second := UpdatePosition("BTC", 1.0, 100.0), UpdatePosition("ETH", 1.0, 10.0);
            |Run(limits, [Action(first, Primary), Action(second, Primary)]).positions| == 2
  {
    var limits := Limits(1, 1, 1);
    var first := Action(UpdatePosition("BTC", 1.0, 100.0), Primary);
    var second := Action(UpdatePosition("ETH", 1.0, 10.0), Primary);
    assert [first, second][..1] == [first] && [first][..0] == [];
    assert Run(limits, []) == EMPTY;
    assert Run(limits, [first]) == Perform(limits, EMPTY, first.write);
    assert Run(limits, [first, second]) == Perform(limits, Run(limits, [first]), second.write);
  }
}
