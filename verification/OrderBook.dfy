/**
 Execution of one order against an order-book snapshot
 (qtrader/execution/orderbook_simulator.py): the greedy walk over price levels under the
 order's own limit and the slippage cap around the mid price.

 Both sides are treated at once through `Key`, the price as the trader dislikes it: the price
 itself for a buyer, its negation for a seller. A best-first book has non-decreasing keys.
 */
module OrderBook {
  import opened Base
  import opened Products

  datatype Level = Level(price: real, size: real)

  datatype Side = Buy | Sell

  /** A market order carries no price; a limit order carries its limit. */
  datatype OrderType = Market | Limit(price: real)

  datatype Order = Order(size: real, side: Side, kind: OrderType)

  datatype Snapshot = Snapshot(bids: seq<Level>, asks: seq<Level>)

  /** Quantity taken from a book and the money that changed hands for it. */
  datatype Take = Take(filled: real, cost: real)

  datatype Fill = Fill(filled: real, avgPrice: real, slippage: real, ratio: real)

  function Key(side: Side, amount: real): real {
    if side == Buy then amount else -amount
  }

  predicate Within(side: Side, price: real, limit: real) {
    Key(side, price) <= Key(side, limit)
  }

  ghost predicate BestFirst(side: Side, book: seq<Level>) {
    forall i, j :: 0 <= i < j < |book| ==> Key(side, book[i].price) <= Key(side, book[j].price)
  }

  ghost predicate Liquid(book: seq<Level>) {
    forall i :: 0 <= i < |book| ==> book[i].size >= 0.0
  }

  /** The walk as a recursion over the remaining levels and the remaining quantity. */
  function Walk(side: Side, book: seq<Level>, limit: real, size: real): Take {
    if book == [] || !Within(side, book[0].price, limit) then Take(0.0, 0.0)
    else if book[0].size >= size then Take(size, Times(book[0].price, size))
    else
      var rest := Walk(side, book[1..], limit, size - book[0].size);
      Take(book[0].size + rest.filled, Times(book[0].price, book[0].size) + rest.cost)
  }

  /** Total liquidity at acceptable prices, wherever it stands in the book. */
  ghost function Available(side: Side, book: seq<Level>, limit: real): real {
    if book == [] then 0.0
    else (if Within(side, book[0].price, limit) then book[0].size else 0.0) + Available(side, book[1..], limit)
  }

  lemma {:induction false} AvailableBounds(side: Side, book: seq<Level>, limit: real)
    requires Liquid(book) && BestFirst(side, book)
    ensures Available(side, book, limit) >= 0.0
    ensures book != [] && !Within(side, book[0].price, limit) ==> Available(side, book, limit) == 0.0
  {
    if book != [] {
      AvailableBounds(side, book[1..], limit);
    }
  }

  /** The walk fills exactly the lesser of the order and the acceptable liquidity. */
  lemma {:induction false} WalkFillsExactly(side: Side, book: seq<Level>, limit: real, size: real)
    requires Liquid(book) && BestFirst(side, book) && size >= 0.0
    ensures Walk(side, book, limit, size).filled == Min(size, Available(side, book, limit))
  {
    AvailableBounds(side, book, limit);
    if book != [] && Within(side, book[0].price, limit) {
      AvailableBounds(side, book[1..], limit);
      if book[0].size < size {
        WalkFillsExactly(side, book[1..], limit, size - book[0].size);
      }
    }
  }

  // ---- Optimality ---------------------------------------------------------------------------

  /** A way of taking liquidity: how much from each level, never more than it offers. */
  ghost predicate Allocation(book: seq<Level>, taken: seq<real>) {
    |taken| == |book| && forall i :: 0 <= i < |book| ==> 0.0 <= taken[i] <= book[i].size
  }

  ghost function Total(taken: seq<real>): real {
    if taken == [] then 0.0 else taken[0] + Total(taken[1..])
  }

  ghost function Spend(book: seq<Level>, taken: seq<real>): real
    requires |taken| == |book|
  {
    if book == [] then 0.0 else Times(book[0].price, taken[0]) + Spend(book[1..], taken[1..])
  }

  /** The allocation the walk makes. */
  ghost function WalkAllocation(side: Side, book: seq<Level>, limit: real, size: real): (taken: seq<real>)
    ensures |taken| == |book|
  {
    if book == [] then []
    else if !Within(side, book[0].price, limit) then seq(|book|, _ => 0.0)
    else if book[0].size >= size then [size] + seq(|book| - 1, _ => 0.0)
    else [book[0].size] + WalkAllocation(side, book[1..], limit, size - book[0].size)
  }

  lemma {:induction false} NothingTaken(book: seq<Level>, taken: seq<real>)
    requires |taken| == |book| && forall i :: 0 <= i < |book| ==> taken[i] == 0.0
    ensures Total(taken) == 0.0 && Spend(book, taken) == 0.0
  {
    if book != [] {
      NothingTaken(book[1..], taken[1..]);
    }
  }

  /** The walk is itself an allocation, so it is comparable with every other one. */
  lemma {:induction false} WalkIsAllocation(side: Side, book: seq<Level>, limit: real, size: real)
    requires Liquid(book) && size >= 0.0
    ensures var taken, w := WalkAllocation(side, book, limit, size), Walk(side, book, limit, size);
            Allocation(book, taken) && Total(taken) == w.filled && Spend(book, taken) == w.cost
  {
    hide Times;
    var taken := WalkAllocation(side, book, limit, size);
    if book == [] {
    } else if !Within(side, book[0].price, limit) {
      NothingTaken(book, taken);
    } else if book[0].size >= size {
      NothingTaken(book[1..], taken[1..]);
    } else {
      WalkIsAllocation(side, book[1..], limit, size - book[0].size);
      assert taken[1..] == WalkAllocation(side, book[1..], limit, size - book[0].size);
    }
  }

  /** Key of the last price the walk is willing to pay: the supporting price of its cost curve. */
  ghost function Marginal(side: Side, book: seq<Level>, limit: real, size: real): real {
    if book == [] || !Within(side, book[0].price, limit) then Key(side, limit)
    else if book[0].size >= size then Key(side, book[0].price)
    else Marginal(side, book[1..], limit, size - book[0].size)
  }

  lemma {:induction false} MarginalBounds(side: Side, book: seq<Level>, limit: real, size: real)
    requires BestFirst(side, book)
    ensures book != [] && Within(side, book[0].price, limit) ==>
              Key(side, book[0].price) <= Marginal(side, book, limit, size)
    ensures Marginal(side, book, limit, size) <= Key(side, limit)
  {
    if book != [] && Within(side, book[0].price, limit) && book[0].size < size {
      MarginalBounds(side, book[1..], limit, size - book[0].size);
    }
  }

  lemma KeyTimes(side: Side, price: real, q: real)
    ensures Key(side, Times(price, q)) == Times(Key(side, price), q)
  {
    TimesNegate(price, q);
  }

  /** Every allocation pays at least the floor price on each unit it takes. */
  lemma {:induction false} SpendAtLeast(side: Side, book: seq<Level>, taken: seq<real>, floor: real)
    requires Allocation(book, taken)
    requires forall i :: 0 <= i < |book| ==> floor <= Key(side, book[i].price)
    ensures Key(side, Spend(book, taken)) >= Times(floor, Total(taken))
  {
    hide Times;
    if book == [] {
      TimesUnits(floor);
    } else {
      SpendAtLeast(side, book[1..], taken[1..], floor);
      TimesOrder(floor, Key(side, book[0].price), taken[0]);
      KeyTimes(side, book[0].price, taken[0]);
      TimesSplit(floor, taken[0], Total(taken[1..]));
    }
  }

  /**
   Supporting line: measured from the walk, any allocation pays at least the marginal price per
   extra unit, and saves at most the marginal price per unit less.
   */
  lemma {:induction false} Support(side: Side, book: seq<Level>, limit: real, size: real, taken: seq<real>)
    requires Liquid(book) && BestFirst(side, book) && size >= 0.0
    requires Allocation(book, taken)
    ensures var w := Walk(side, book, limit, size);
            Key(side, Spend(book, taken)) - Key(side, w.cost)
              >= Times(Marginal(side, book, limit, size), Total(taken) - w.filled)
  {
    hide Times;
    var t := Marginal(side, book, limit, size);
    var w := Walk(side, book, limit, size);
    TimesMinus(t, Total(taken), w.filled);
    if book == [] {
    } else if !Within(side, book[0].price, limit) || book[0].size >= size {
      SpendAtLeast(side, book, taken, t);
      TimesUnits(t);
      KeyTimes(side, book[0].price, size);
    } else {
      var k, l := Key(side, book[0].price), book[0].size;
      var rest := Walk(side, book[1..], limit, size - l);
      Support(side, book[1..], limit, size - l, taken[1..]);
      MarginalBounds(side, book, limit, size);
      SupportStep(k, t, l, taken[0], Total(taken[1..]) - rest.filled);
      KeyTimes(side, book[0].price, l);
      KeyTimes(side, book[0].price, taken[0]);
      assert Total(taken) - w.filled == (taken[0] - l) + (Total(taken[1..]) - rest.filled);
    }
  }

  /** Leaving part of a level that costs no more than `t` saves at most `t` per unit. */
  lemma SupportStep(k: real, t: real, l: real, used: real, beyond: real)
    requires k <= t && used <= l
    ensures Times(k, used) - Times(k, l) + Times(t, beyond) >= Times(t, (used - l) + beyond)
  {
    TimesOrder(k, t, l - used);
    TimesMinus(k, l, used);
    TimesMinus(t, used, l);
    TimesMinus(t, l, used);
    TimesSplit(t, used - l, beyond);
  }

  /**
   Greedy optimality: no allocation of the same quantity over the whole book is cheaper for a
   buyer, and none brings a seller more.
   */
  lemma WalkIsOptimal(side: Side, book: seq<Level>, limit: real, size: real, taken: seq<real>)
    requires Liquid(book) && BestFirst(side, book) && size >= 0.0
    requires Allocation(book, taken) && Total(taken) == Walk(side, book, limit, size).filled
    ensures side == Buy ==> Walk(side, book, limit, size).cost <= Spend(book, taken)
    ensures side == Sell ==> Walk(side, book, limit, size).cost >= Spend(book, taken)
  {
    Support(side, book, limit, size, taken);
    TimesUnits(Marginal(side, book, limit, size));
  }

  // ---- Shape of the cost curve --------------------------------------------------------------

  lemma WalkMonotone(side: Side, book: seq<Level>, limit: real, a: real, b: real)
    requires Liquid(book) && BestFirst(side, book) && 0.0 <= a <= b
    ensures Walk(side, book, limit, a).filled <= Walk(side, book, limit, b).filled
  {
    WalkFillsExactly(side, book, limit, a);
    WalkFillsExactly(side, book, limit, b);
  }

  /** Convexity: the price of the increment from `a` to `b` never exceeds that from `b` to `c`. */
  lemma WalkIsConvex(side: Side, book: seq<Level>, limit: real, a: real, b: real, c: real)
    requires Liquid(book) && BestFirst(side, book) && 0.0 <= a <= b <= c
    ensures var wa, wb, wc := Walk(side, book, limit, a), Walk(side, book, limit, b), Walk(side, book, limit, c);
            Times(Key(side, wb.cost) - Key(side, wa.cost), wc.filled - wb.filled)
              <= Times(Key(side, wc.cost) - Key(side, wb.cost), wb.filled - wa.filled)
  {
    hide Times;
    var wa, wb, wc := Walk(side, book, limit, a), Walk(side, book, limit, b), Walk(side, book, limit, c);
    WalkMonotone(side, book, limit, a, b);
    WalkMonotone(side, book, limit, b, c);
    WalkIsAllocation(side, book, limit, a);
    WalkIsAllocation(side, book, limit, c);
    Support(side, book, limit, b, WalkAllocation(side, book, limit, a));
    Support(side, book, limit, b, WalkAllocation(side, book, limit, c));
    ConvexStep(Marginal(side, book, limit, b), Key(side, wb.cost) - Key(side, wa.cost),
               Key(side, wc.cost) - Key(side, wb.cost), wb.filled - wa.filled, wc.filled - wb.filled);
  }

  lemma ConvexStep(t: real, first: real, second: real, below: real, above: real)
    requires below >= 0.0 && above >= 0.0
    requires -first >= Times(t, -below) && second >= Times(t, above)
    ensures Times(first, above) <= Times(second, below)
  {
    TimesOrder(first, t * below, above);
    TimesOrder(t * above, second, below);
    assert t * below * above == t * above * below;
  }

  /** A larger order never gets a better average price. */
  lemma AveragePriceWorsens(side: Side, book: seq<Level>, limit: real, a: real, b: real)
    requires Liquid(book) && BestFirst(side, book) && 0.0 <= a <= b
    requires Walk(side, book, limit, a).filled > 0.0
    ensures var wa, wb := Walk(side, book, limit, a), Walk(side, book, limit, b);
            wb.filled > 0.0 && Key(side, wa.cost / wa.filled) <= Key(side, wb.cost / wb.filled)
  {
    hide Times;
    WalkMonotone(side, book, limit, a, b);
    WalkIsConvex(side, book, limit, 0.0, a, b);
    WalkOfNothing(side, book, limit);
    AverageStep(side, Walk(side, book, limit, a), Walk(side, book, limit, b));
  }

  lemma AverageStep(side: Side, wa: Take, wb: Take)
    requires 0.0 < wa.filled <= wb.filled
    requires Times(Key(side, wa.cost), wb.filled - wa.filled)
          <= Times(Key(side, wb.cost) - Key(side, wa.cost), wa.filled)
    ensures Key(side, wa.cost / wa.filled) <= Key(side, wb.cost / wb.filled)
  {
    var ka, kb := Key(side, wa.cost), Key(side, wb.cost);
    CrossMultiply(ka, wa.filled, kb, wb.filled);
    assert Key(side, wa.cost / wa.filled) == ka / wa.filled;
    assert Key(side, wb.cost / wb.filled) == kb / wb.filled;
  }

  lemma CrossMultiply(x: real, p: real, y: real, q: real)
    requires p > 0.0 && q > 0.0 && x * q <= y * p
    ensures x / p <= y / q
  {
    var u, v := x / p, y / q;
    assert x * q == Times(u, p * q) && y * p == Times(v, p * q);
    TimesCancel(u, v, p * q);
  }

  // ---- Composition --------------------------------------------------------------------------

  /** What the walk leaves behind. */
  function Residual(side: Side, book: seq<Level>, limit: real, size: real): seq<Level> {
    if book == [] || !Within(side, book[0].price, limit) then book
    else if book[0].size >= size then [Level(book[0].price, book[0].size - size)] + book[1..]
    else [Level(book[0].price, 0.0)] + Residual(side, book[1..], limit, size - book[0].size)
  }

  /** With the limit held fixed, one order of `a + b` equals `a` followed by `b` on what `a` left. */
  lemma {:induction false} WalkComposes(side: Side, book: seq<Level>, limit: real, a: real, b: real)
    requires Liquid(book) && a >= 0.0 && b >= 0.0
    ensures var first := Walk(side, book, limit, a);
            var second := Walk(side, Residual(side, book, limit, a), limit, b);
            Walk(side, book, limit, a + b) == Take(first.filled + second.filled, first.cost + second.cost)
  {
    hide Times;
    if book != [] && Within(side, book[0].price, limit) {
      var p, l := book[0].price, book[0].size;
      var left := Residual(side, book, limit, a);
      TimesSplit(p, a, b);
      TimesSplit(p, a, l - a);
      TimesUnits(p);
      if l >= a {
        assert left[1..] == book[1..];
        assert b - (l - a) == a + b - l;
      } else {
        WalkComposes(side, book[1..], limit, a - l, b);
        assert left[1..] == Residual(side, book[1..], limit, a - l);
        assert (a - l) + b == a + b - l;
        WalkOfNothing(side, left[1..], limit);
      }
    }
  }

  lemma WalkOfNothing(side: Side, book: seq<Level>, limit: real)
    requires book != [] ==> book[0].size >= 0.0
    ensures Walk(side, book, limit, 0.0) == Take(0.0, 0.0)
  {
    if book != [] {
      TimesUnits(book[0].price);
    }
  }

  // ---- The simulated order ------------------------------------------------------------------

  function Mid(snap: Snapshot): real
    requires snap.bids != [] && snap.asks != []
  {
    (snap.bids[0].price + snap.asks[0].price) / 2.0
  }

  function BookFor(side: Side, snap: Snapshot): seq<Level> {
    if side == Buy then snap.asks else snap.bids
  }

  /** The tighter of the order's own limit and the slippage cap; a market sale has the limit 0. */
  function EffectiveLimit(order: Order, mid: real, maxSlippagePct: real): real {
    var cap := Times(mid, maxSlippagePct);
    match (order.side, order.kind)
    case (Buy, Market) => mid + cap
    case (Buy, Limit(p)) => Min(p, mid + cap)
    case (Sell, Market) => Max(0.0, mid - cap)
    case (Sell, Limit(p)) => Max(p, mid - cap)
  }

  function WalkFor(order: Order, snap: Snapshot, maxSlippagePct: real): Take
    requires snap.bids != [] && snap.asks != []
  {
    Walk(order.side, BookFor(order.side, snap), EffectiveLimit(order, Mid(snap), maxSlippagePct), order.size)
  }

  /** What a fill event must report. It determines every field. */
  ghost predicate Reports(order: Order, snap: Snapshot, maxSlippagePct: real, fill: Fill) {
    if snap.bids == [] || snap.asks == [] then fill == Fill(0.0, 0.0, 0.0, 0.0)
    else
      var w := WalkFor(order, snap, maxSlippagePct);
      && fill.filled == w.filled
      && (if w.filled > 0.0 then Times(fill.avgPrice, fill.filled) == w.cost else fill.avgPrice == 0.0)
      && fill.slippage == fill.avgPrice - Mid(snap)
      && (if order.size > 0.0 then Times(fill.ratio, order.size) == fill.filled else fill.ratio == 0.0)
  }

  method SimulateOrder(order: Order, snap: Snapshot, maxSlippagePct: real) returns (fill: Fill)
    ensures Reports(order, snap, maxSlippagePct, fill)
  {
    if snap.bids == [] || snap.asks == [] {
      return Fill(0.0, 0.0, 0.0, 0.0);
    }
    hide Times, Over;
    var mid := (snap.bids[0].price + snap.asks[0].price) / 2.0;
    var maxSlippageAbs := Times(mid, maxSlippagePct);
    var book, limit;
    if order.side == Buy {
      book := snap.asks;
      limit := if order.kind.Limit? then Min(order.kind.price, mid + maxSlippageAbs) else mid + maxSlippageAbs;
    } else {
      book := snap.bids;
      limit := Max(if order.kind.Limit? then order.kind.price else 0.0, mid - maxSlippageAbs);
    }
    var take := WalkBook(order.side, book, limit, order.size);
    var avg := if take.filled > 0.0 then Over(take.cost, take.filled) else 0.0;
    var ratio := if order.size > 0.0 then Over(take.filled, order.size) else 0.0;
    if take.filled > 0.0 { TimesOver(take.cost, take.filled); }
    if order.size > 0.0 { TimesOver(take.filled, order.size); }
    fill := Fill(take.filled, avg, avg - mid, ratio);
  }

  /** The loop over the levels, leaving early at a bad price or once the order is complete. */
  method WalkBook(side: Side, book: seq<Level>, limit: real, size: real) returns (take: Take)
    ensures take == Walk(side, book, limit, size)
  {
    hide Times;
    var filled, cost := 0.0, 0.0;
    var i := 0;
    assert book[0..] == book;
    while i < |book|
      invariant 0 <= i <= |book|
      invariant var rest := Walk(side, book[i..], limit, size - filled);
                Walk(side, book, limit, size) == Take(filled + rest.filled, cost + rest.cost)
    {
      var price, liquidity := book[i].price, book[i].size;
      assert book[i..][1..] == book[i + 1..];
      if side == Buy {
        if price > limit { break; }
      } else if price < limit {
        break;
      }
      var remaining := size - filled;
      if liquidity >= remaining {
        filled, cost := filled + remaining, cost + Times(price, remaining);
        return Take(filled, cost);
      }
      assert remaining - liquidity == size - (filled + liquidity);
      filled, cost := filled + liquidity, cost + Times(price, liquidity);
      i := i + 1;
    }
    take := Take(filled, cost);
  }

  ghost predicate WellFormed(snap: Snapshot) {
    && snap.bids != [] && snap.asks != []
    && BestFirst(Buy, snap.asks) && BestFirst(Sell, snap.bids)
    && Liquid(snap.asks) && Liquid(snap.bids)
  }

  ghost predicate Uncrossed(snap: Snapshot)
    requires snap.bids != [] && snap.asks != []
  {
    snap.bids[0].price <= snap.asks[0].price
  }

  /** The money paid lies between the best price and the limit, on every unit. */
  lemma {:induction false} WalkCostBounds(side: Side, book: seq<Level>, limit: real, size: real, best: real)
    requires Liquid(book) && size >= 0.0
    requires forall i :: 0 <= i < |book| ==> best <= Key(side, book[i].price)
    ensures var w := Walk(side, book, limit, size);
            w.filled >= 0.0 && Times(best, w.filled) <= Key(side, w.cost) <= Times(Key(side, limit), w.filled)
  {
    hide Times;
    TimesUnits(best);
    TimesUnits(Key(side, limit));
    if book != [] && Within(side, book[0].price, limit) {
      var k, q := Key(side, book[0].price), Min(size, book[0].size);
      TimesOrder(best, k, q);
      TimesOrder(k, Key(side, limit), q);
      KeyTimes(side, book[0].price, q);
      if book[0].size < size {
        WalkCostBounds(side, book[1..], limit, size - book[0].size, best);
        var rest := Walk(side, book[1..], limit, size - book[0].size);
        TimesSplit(best, q, rest.filled);
        TimesSplit(Key(side, limit), q, rest.filled);
      }
    }
  }

  /** The liquidity the order may take: what its side of the book offers within the effective limit. */
  ghost function Acceptable(order: Order, snap: Snapshot, pct: real): real
    requires snap.bids != [] && snap.asks != []
  {
    Available(order.side, BookFor(order.side, snap), EffectiveLimit(order, Mid(snap), pct))
  }

  /**
   When something fills, the average price lies between the best price and the effective limit;
   the quantity filled is the lesser of the order and the acceptable liquidity.
   */
  lemma FillBounds(order: Order, snap: Snapshot, pct: real, fill: Fill)
    requires WellFormed(snap) && order.size >= 0.0
    requires Reports(order, snap, pct, fill)
    ensures fill.filled == Min(order.size, Acceptable(order, snap, pct))
    ensures fill.filled > 0.0 ==>
              Key(order.side, BookFor(order.side, snap)[0].price)
                <= Key(order.side, fill.avgPrice)
                <= Key(order.side, EffectiveLimit(order, Mid(snap), pct))
  {
    hide Times;
    var side, book, limit := order.side, BookFor(order.side, snap), EffectiveLimit(order, Mid(snap), pct);
    var best := Key(side, book[0].price);
    WalkFillsExactly(side, book, limit, order.size);
    WalkCostBounds(side, book, limit, order.size, best);
    if fill.filled > 0.0 {
      KeyTimes(side, fill.avgPrice, fill.filled);
      TimesCancel(best, Key(side, fill.avgPrice), fill.filled);
      TimesCancel(Key(side, fill.avgPrice), Key(side, limit), fill.filled);
    }
  }

  /**
   The slippage cap, with its exact condition: on an uncrossed book with a positive mid price and
   a cap below 100 %, the reported slippage respects the cap exactly when the order is positive
   and some acceptable liquidity exists. Otherwise nothing fills and the report says `-mid`.
   */
  lemma SlippageCapExactly(order: Order, snap: Snapshot, pct: real, fill: Fill)
    requires WellFormed(snap) && Uncrossed(snap) && Mid(snap) > 0.0 && order.size >= 0.0 && 0.0 <= pct < 1.0
    requires Reports(order, snap, pct, fill)
    ensures Abs(fill.slippage) <= Times(Mid(snap), pct)
       <==> order.size > 0.0 && Acceptable(order, snap, pct) > 0.0
  {
    hide Times;
    FillBounds(order, snap, pct, fill);
    TimesMinus(Mid(snap), 1.0, pct);
    TimesSign(Mid(snap), 1.0 - pct);
    TimesUnits(Mid(snap));
    TimesSign(Mid(snap), pct);
  }

  /** A bid below the whole book fills nothing and is reported 100 away from a mid price with a cap of 1. */
  lemma SlippageCapFails()
    ensures var order, snap := Order(1.0, Buy, Limit(50.0)), Snapshot([Level(99.0, 1.0)], [Level(101.0, 1.0)]);
            var fill := Fill(0.0, 0.0, -100.0, 0.0);
            && WellFormed(snap) && Uncrossed(snap) && Reports(order, snap, 0.01, fill)
            && Abs(fill.slippage) > Times(Mid(snap), 0.01)
  {
  }

  // ---- What the trader was promised ---------------------------------------------------------

  /**
   A price the order may trade at: within its own limit if it has one, and no further from the middle
   of the best quotes than the cap, on the trader's bad side. A market sale takes no negative price.
   */
  predicate MayTrade(order: Order, snap: Snapshot, pct: real, price: real)
    requires snap.bids != [] && snap.asks != []
  {
    var mid := (snap.bids[0].price + snap.asks[0].price) / 2.0;
    match (order.side, order.kind)
    case (Buy, Market) => price - mid <= Times(mid, pct)
    case (Buy, Limit(p)) => price <= p && price - mid <= Times(mid, pct)
    case (Sell, Market) => price >= 0.0 && mid - price <= Times(mid, pct)
    case (Sell, Limit(p)) => price >= p && mid - price <= Times(mid, pct)
  }

  /** The liquidity at such prices, on the other side of the book. */
  ghost function Tradable(order: Order, snap: Snapshot, pct: real, book: seq<Level>): real
    requires snap.bids != [] && snap.asks != []
  {
    if book == [] then 0.0
    else
      (if MayTrade(order, snap, pct, book[0].price) then book[0].size else 0.0)
      + Tradable(order, snap, pct, book[1..])
  }

  lemma {:induction false} TradableIsAvailable(order: Order, snap: Snapshot, pct: real, book: seq<Level>)
    requires snap.bids != [] && snap.asks != []
    ensures Tradable(order, snap, pct, book)
         == Available(order.side, book, EffectiveLimit(order, Mid(snap), pct))
  {
    hide Times;
    if book != [] {
      TradableIsAvailable(order, snap, pct, book[1..]);
    }
  }

  /**
   The order is filled up to the liquidity that the opposite book has at prices it may trade at, and
   the average of a positive fill is such a price itself.
   */
  lemma FillsWhatItMay(order: Order, snap: Snapshot, pct: real, fill: Fill)
    requires WellFormed(snap) && order.size >= 0.0 && Reports(order, snap, pct, fill)
    ensures var opposite := if order.side == Buy then snap.asks else snap.bids;
            fill.filled == Min(order.size, Tradable(order, snap, pct, opposite))
    ensures fill.filled > 0.0 ==> MayTrade(order, snap, pct, fill.avgPrice)
  {
    hide Times;
    FillBounds(order, snap, pct, fill);
    TradableIsAvailable(order, snap, pct, BookFor(order.side, snap));
  }

  /** The trader's own limit, from the order alone: a buy never averages above it, a sale never below. */
  lemma OwnLimitHolds(order: Order, snap: Snapshot, pct: real, fill: Fill)
    requires WellFormed(snap) && order.size >= 0.0 && Reports(order, snap, pct, fill)
    requires fill.filled > 0.0 && order.kind.Limit?
    ensures order.side == Buy ==> fill.avgPrice <= order.kind.price
    ensures order.side == Sell ==> fill.avgPrice >= order.kind.price
  {
    hide Times;
    FillsWhatItMay(order, snap, pct, fill);
  }

  /** The report in the trader's terms: money over quantity, distance from the middle, share of the order. */
  lemma ReportMeans(order: Order, snap: Snapshot, pct: real, fill: Fill)
    requires WellFormed(snap) && order.size >= 0.0 && Reports(order, snap, pct, fill)
    ensures 2.0 * fill.slippage == 2.0 * fill.avgPrice - snap.bids[0].price - snap.asks[0].price
    ensures Times(fill.ratio, order.size) == fill.filled && 0.0 <= fill.filled <= order.size
    ensures fill.filled == 0.0 ==> fill.avgPrice == 0.0 && fill.ratio == 0.0
    ensures exists taken :: Allocation(if order.side == Buy then snap.asks else snap.bids, taken)
              && Total(taken) == fill.filled
              && Spend(if order.side == Buy then snap.asks else snap.bids, taken) == Times(fill.avgPrice, fill.filled)
  {
    hide Times, Over;
    var side, book, limit := order.side, BookFor(order.side, snap), EffectiveLimit(order, Mid(snap), pct);
    FillBounds(order, snap, pct, fill);
    AvailableBounds(side, book, limit);
    WalkIsAllocation(side, book, limit, order.size);
    TimesUnits(fill.avgPrice);
    TimesUnits(fill.ratio);
    WalkCostBounds(side, book, limit, order.size, Key(side, book[0].price));
    TimesUnits(Key(side, book[0].price));
    TimesUnits(Key(side, limit));
    if order.size > 0.0 && fill.filled == 0.0 {
      NoShare(fill.ratio, order.size);
    }
    var taken := WalkAllocation(side, book, limit, order.size);
    assert Allocation(book, taken) && Total(taken) == fill.filled;
    assert Spend(book, taken) == Times(fill.avgPrice, fill.filled);
  }

  lemma NoShare(ratio: real, size: real)
    requires size > 0.0 && Times(ratio, size) == 0.0
    ensures ratio == 0.0
  {
    assert ratio == Times(ratio, size) / size;
  }

  /** The adverse half of the cap needs no uncrossed book. */
  lemma AdverseSlippageCapped(order: Order, snap: Snapshot, pct: real, fill: Fill)
    requires WellFormed(snap) && order.size >= 0.0
    requires Reports(order, snap, pct, fill) && fill.filled > 0.0
    ensures Key(order.side, fill.slippage) <= Times(Mid(snap), pct)
  {
    hide Times;
    FillBounds(order, snap, pct, fill);
  }
}
