/**
 What each operation of the paper-trading loop does to the ledgers and the lists, in terms of its
 inputs: prices, quantities, fractions and counts.
 */
module PaperLaws {
  import opened Base
  import opened Products
  import opened PaperModels
  import opened PaperSpec
  import opened PaperTheorems

  // ---- Closing ------------------------------------------------------------------------------

  /** Price move times quantity, in the lot's direction. */
  function Gain(lot: Lot, exitPrice: real): real {
    match lot.side
    case Buy => Times(exitPrice - lot.avgPrice, lot.qty)
    case Sell => Times(lot.avgPrice - exitPrice, lot.qty)
  }

  /** 0.6 % of the exit value. */
  function ExitCost(lot: Lot, exitPrice: real): real {
    0.006 * Times(exitPrice, lot.qty)
  }

  /** Cash as the close would leave it without a performance fee. */
  function Proceeds(e: Engine, lot: Lot, exitPrice: real): real {
    e.cash + Times(lot.avgPrice, lot.qty) + Gain(lot, exitPrice) - ExitCost(lot, exitPrice)
  }

  /** What a close adds to the commissions beyond the exit cost. */
  ghost function Charged(cfg: Config, e: Engine, reason: Reason, exitPrice: real, roll: real): real
    requires e.managed != []
  {
    Close(cfg, e, reason, exitPrice, roll).totalCommissions - e.totalCommissions - ExitCost(e.managed[0], exitPrice)
  }

  /**
   The performance fee, exactly. A close that gains and lifts equity above the peak is charged the
   fraction `f` of the lesser of the gain and the rise - all of it: no amount within both is more. Any
   other close is charged nothing.
   */
  lemma ChargedExactly(cfg: Config, e: Engine, reason: Reason, exitPrice: real, roll: real, x: real)
    requires e.managed != []
    ensures var gain, rise := Gain(e.managed[0], exitPrice), Proceeds(e, e.managed[0], exitPrice) - e.peakEquity;
            var charged := Charged(cfg, e, reason, exitPrice, roll);
            if gain > 0.0 && rise > 0.0
            then x <= charged <==> x <= Times(gain, cfg.performanceFee) && x <= Times(rise, cfg.performanceFee)
            else charged == 0.0
  {
    hide Times, Over, Trade, Truncate, Drawdown, Without, MarketValue, NetPnl;
  }

  /** Every ledger after a close of the one lot, with the charge as `ChargedExactly` has it. */
  lemma CloseSettles(cfg: Config, e: Engine, reason: Reason, exitPrice: real, roll: real)
    requires OneLot(e) && e.managed != []
    ensures var lot, after := e.managed[0], Close(cfg, e, reason, exitPrice, roll);
            var charged := Charged(cfg, e, reason, exitPrice, roll);
            var net := Gain(lot, exitPrice) - Times(lot.commPerUnit, lot.qty) - ExitCost(lot, exitPrice) - charged;
            && after.managed == [] && after.open == []
            && after.cash == Proceeds(e, lot, exitPrice) - charged
            && after.totalGrossPnl == e.totalGrossPnl + Gain(lot, exitPrice)
            && after.peakEquity == Max(e.peakEquity, after.cash)
            && after.adaptive.totalPnl == e.adaptive.totalPnl + net
            && after.adaptive.totalWins == e.adaptive.totalWins + (if net > 0.0 then 1 else 0)
            && after.adaptive.totalLosses == e.adaptive.totalLosses + (if net > 0.0 then 0 else 1)
            && after.adaptive.winStreak == (if net > 0.0 then e.adaptive.winStreak + 1 else 0)
            && after.adaptive.lossStreak == (if net > 0.0 then 0 else e.adaptive.lossStreak + 1)
            && after.price == e.price && after.history == e.history && after.nextId == e.nextId
  {
    hide Times, Over, Trade, Truncate, Drawdown, PerformanceFee;
    CloseFlattens(cfg, e, reason, exitPrice, roll);
  }

  /** The maximum drawdown is the deepest fall from the peak, the present one included. */
  lemma DrawdownAfterClose(cfg: Config, e: Engine, reason: Reason, exitPrice: real, roll: real)
    requires OneLot(e) && e.managed != []
    ensures var after := Close(cfg, e, reason, exitPrice, roll);
            && (after.peakEquity > 0.0 ==>
                  Times(after.maxDrawdown, after.peakEquity)
                  == Max(Times(e.maxDrawdown, after.peakEquity), after.peakEquity - after.cash))
            && (after.peakEquity <= 0.0 ==> after.maxDrawdown == Max(e.maxDrawdown, 0.0))
  {
    hide Times, Over, Settled;
    var after := Close(cfg, e, reason, exitPrice, roll);
    var settled := Settled(cfg, e, reason, exitPrice, roll);
    CloseFlattens(cfg, e, reason, exitPrice, roll);
    SettledDrawdown(cfg, e, reason, exitPrice, roll);
    if after.peakEquity > 0.0 {
      var fall := Over(after.peakEquity - after.cash, after.peakEquity);
      TimesOver(after.peakEquity - after.cash, after.peakEquity);
      MaxScales(e.maxDrawdown, fall, after.peakEquity);
    }
  }

  lemma SettledDrawdown(cfg: Config, e: Engine, reason: Reason, exitPrice: real, roll: real)
    requires e.managed != []
    ensures Settled(cfg, e, reason, exitPrice, roll).maxDrawdown == e.maxDrawdown
  {
  }

  lemma MaxScales(x: real, y: real, q: real)
    requires q > 0.0
    ensures Times(Max(x, y), q) == Max(Times(x, q), Times(y, q))
  {
    hide Times;
    if x >= y { TimesOrder(y, x, q); } else { TimesOrder(x, y, q); }
  }

  // ---- Opening ------------------------------------------------------------------------------

  /** What an entry puts at stake: the sized fraction of cash, times the strength of the signal. */
  function Stake(e: Engine, strength: real): real {
    Times(e.cash, Times(e.adaptive.PositionSizePct(), strength))
  }

  /** An entry of less than 10, or that draws the simulated error, changes nothing; any other goes through. */
  lemma OpenSpends(e: Engine, side: Side, strength: real, errorRoll: real, slipRoll: real)
    requires e.price > 0.0 && 0.0 <= slipRoll < 1.0
    ensures Stake(e, strength) < 10.0 || errorRoll < 0.01 ==> Open(e, side, strength, errorRoll, slipRoll) == e
    ensures Stake(e, strength) >= 10.0 && errorRoll >= 0.01 ==>
              var after, stake := Open(e, side, strength, errorRoll, slipRoll), Stake(e, strength);
              && after.cash == e.cash - 1.006 * stake
              && after.totalCommissions == e.totalCommissions + 0.006 * stake
              && after.nextId == e.nextId + 1 && after.adaptive == e.adaptive
              && after.totalGrossPnl == e.totalGrossPnl && after.peakEquity == e.peakEquity
              && |after.managed| == |e.managed| + 1
              && var lot := after.managed[|e.managed|];
                 && after.managed == e.managed + [lot] && after.open == e.open + [lot]
                 && lot.side == side && lot.id == e.nextId
                 && Times(lot.avgPrice, lot.qty) == stake && Times(lot.commPerUnit, lot.qty) == 0.006 * stake
                 && lot.avgPrice
                      == Times(e.price, if side == Buy then 1.001 + 0.001 * slipRoll else 0.999 - 0.001 * slipRoll)
  {
    hide Times, Over;
    if Opens(e, strength, errorRoll) {
      OpenedLot(e, side, strength, errorRoll, slipRoll);
      assert Slippage(slipRoll) == 0.001 + 0.001 * slipRoll;
    }
  }

  // ---- A pass -------------------------------------------------------------------------------

  /** The price has reached the lot's stop or its target. */
  predicate LevelReached(lot: Lot, price: real) {
    match lot.side
    case Buy => price <= lot.stopLoss || price >= lot.takeProfit
    case Sell => price >= lot.stopLoss || price <= lot.takeProfit
  }

  /** The pass looks at a signal: enough prices seen, this one included, and no error on the way. */
  predicate LooksAtSignal(e: Engine, d: Draws) {
    |RecordPrice(e.history, e.price)| >= 20 && d.reached != AfterExit && d.signal.Some?
  }

  /**
   What becomes of an open lot in one pass. It is closed exactly when its stop or target is reached or a
   signal of the other side and at least 0.35 is looked at; a pass closes one lot at most.
   */
  lemma LotClosedExactly(cfg: Config, e: Engine, d: Draws)
    requires OneLot(e) && PossibleDraws(d)
    ensures var after := RunPass(cfg, e, d);
            var closed := e.managed != []
                          && (LevelReached(e.managed[0], e.price)
                              || (LooksAtSignal(e, d) && d.signal.value.action != e.managed[0].side
                                  && d.signal.value.strength >= 0.35));
            && after.adaptive.totalWins + after.adaptive.totalLosses
                 == e.adaptive.totalWins + e.adaptive.totalLosses + (if closed then 1 else 0)
            && (!closed && e.managed != [] ==> after.managed == e.managed && after.cash == e.cash)
  {
    hide Times, Over, Close, Open, Notional, RecordPrice;
    var priced := e.(history := RecordPrice(e.history, e.price));
    var exited := CheckExit(cfg, priced, d.exitRoll);
    if e.managed != [] {
      var trigger := FirstTriggered(e.managed, e.price);
      if trigger.Some? {
        CloseSettles(cfg, priced, trigger.value.1, e.price, d.exitRoll);
      } else {
        assert ExitReason(e.managed[0], e.price).None?;
        CloseSettles(cfg, priced, DynamicExit, e.price, d.dynamicRoll);
        if d.signal.Some? {
          OnlyLotReverses(e.managed, d.signal.value);
        }
      }
    }
    OpenKeepsRecord(cfg, e, d);
  }

  lemma OnlyLotReverses(lots: seq<Lot>, signal: Signal)
    requires |lots| == 1
    ensures (exists i :: 0 <= i < |lots| && Reverses(lots[i], signal)) <==> Reverses(lots[0], signal)
    ensures (exists i :: 0 <= i < |lots| && lots[i].side != signal.action) <==> lots[0].side != signal.action
  {
    assert Reverses(lots[0], signal) ==> exists i :: 0 <= i < |lots| && Reverses(lots[i], signal);
  }

  /** Whatever the entry does, it touches neither the totals nor an engine it refuses. */
  lemma OpenKeepsRecord(cfg: Config, e: Engine, d: Draws)
    requires e.price > 0.0 && PossibleDraws(d)
    ensures forall x: Engine, side: Side, strength: real :: x.price > 0.0 ==>
              Open(x, side, strength, d.errorRoll, d.slipRoll).adaptive == x.adaptive
  {
    hide Times, Over, Notional;
  }

  /**
   When a complete pass enters, and on what ledgers: after its exits - which are what the same pass
   does if it gets no further - exactly when it looks at a signal, may hold a lot, and holds none.
   */
  lemma EntersExactly(cfg: Config, e: Engine, d: Draws)
    requires OneLot(e) && PossibleDraws(d) && d.reached == Complete
    ensures var settled := RunPass(cfg, e, d.(reached := AfterDynamicExit));
            RunPass(cfg, e, d)
            == (if LooksAtSignal(e, d) && cfg.maxConcurrent > 0 && settled.managed == []
                then Open(settled, d.signal.value.action, d.signal.value.strength, d.errorRoll, d.slipRoll)
                else settled)
  {
    hide Times, Over, Close, Open, RecordPrice;
    var priced := e.(history := RecordPrice(e.history, e.price));
    CheckExitKeepsOneLot(cfg, priced, d.exitRoll);
    var exited := CheckExit(cfg, priced, d.exitRoll);
    if exited.history == priced.history && d.signal.Some? {
      DynamicExitClearsTheWay(cfg, exited, d.signal.value, d.dynamicRoll);
    }
    ExitKeepsHistory(cfg, priced, d.exitRoll);
  }

  lemma ExitKeepsHistory(cfg: Config, e: Engine, roll: real)
    ensures CheckExit(cfg, e, roll).history == e.history
  {
  }

  // ---- Valuation ----------------------------------------------------------------------------

  /** A lot with a positive quantity is worth its quantity at the price; a negative one gains as the price falls. */
  lemma LotWorth(lot: Lot, price: real)
    ensures lot.qty >= 0.0 ==> LotValue(lot, price) == Times(lot.qty, price)
    ensures lot.qty < 0.0 ==> LotValue(lot, price) == Times(-lot.qty, lot.avgPrice + lot.avgPrice - price)
  {
    TimesUnits(price);
  }

  /** The sums over the lots count every lot once, wherever it stands. */
  lemma {:induction false} ValuesAdd(lots: seq<Lot>, more: seq<Lot>, price: real)
    ensures MarketValue(lots + more, price) == MarketValue(lots, price) + MarketValue(more, price)
    ensures EntryValue(lots + more) == EntryValue(lots) + EntryValue(more)
    ensures EntryFees(lots + more) == EntryFees(lots) + EntryFees(more)
  {
    hide Times;
    if lots == [] {
      assert lots + more == more;
    } else {
      ValuesAdd(lots[1..], more, price);
      assert (lots + more)[1..] == lots[1..] + more;
    }
  }

  /** Realized PnL in any state: what cash and the entry values of the lots have gained on the capital. */
  lemma RealizedIgnoresPrice(cfg: Config, e: Engine, price: real)
    ensures RealizedPnl(cfg, e.(price := price)) == e.cash + EntryValue(e.open) - cfg.startingCapital
  {
    hide MarketValue, EntryValue;
  }

  /**
   Equity in every reachable state: cash when flat, and otherwise cash plus the quantity held at the
   price - for sells as for buys, as their quantities are positive too.
   */
  lemma EquityOfReachable(cfg: Config, basePrice: real, inputs: seq<Input>, price: real)
    requires basePrice > 0.0 && PossibleRun(inputs)
    ensures var e := Run(cfg, basePrice, inputs);
            Equity(e.(price := price)) == e.cash + (if e.open == [] then 0.0 else Times(e.open[0].qty, price))
  {
    hide Run, Times;
    AtMostOneLot(cfg, basePrice, inputs);
    var e := Run(cfg, basePrice, inputs);
    OneLotValue(e.open, price);
  }

  lemma OneLotValue(lots: seq<Lot>, price: real)
    requires |lots| <= 1 && forall i :: 0 <= i < |lots| ==> lots[i].qty > 0.0
    ensures MarketValue(lots, price) == (if lots == [] then 0.0 else Times(lots[0].qty, price))
  {
    if lots != [] {
      LotWorth(lots[0], price);
      assert lots[1..] == [];
    }
  }

  // ---- Bounded lists ------------------------------------------------------------------------

  /** The price history ends with the new price and keeps at least the last 2000 prices. */
  lemma RecordKeepsRecent(history: seq<real>, price: real)
    ensures var after := RecordPrice(history, price);
            && LastN(after, 2000) == LastN(history + [price], 2000)
            && after[|after| - 1] == price
            && (|history| < 5000 ==> after == history + [price])
  {
  }

  /** The trade list ends with the newest trade and keeps at least half of its limit. */
  lemma TruncateKeepsRecent(trades: seq<TradeRecord>, max: nat, trade: TradeRecord)
    ensures var after := Truncate(trades + [trade], max);
            && after != [] && after[|after| - 1] == trade
            && LastN(after, (max + 1) / 2) == LastN(trades + [trade], (max + 1) / 2)
            && (|trades| < max ==> after == trades + [trade])
  {
  }

  // ---- Prices from outside ------------------------------------------------------------------

  /** A BTC-USD event, and no other, sets both prices to its last price, or midway between two positive quotes. */
  lemma MarketEventSetsPrice(e: Engine, symbol: string, last: real, bid: real, ask: real)
    ensures !Concerns(symbol) ==> OnMarketEvent(e, symbol, last, bid, ask) == e
    ensures Concerns(symbol) ==>
            var after := OnMarketEvent(e, symbol, last, bid, ask);
            && (last > 0.0 ==> after == e.(price := last, basePrice := last))
            && (last <= 0.0 && bid > 0.0 && ask > 0.0 ==>
                  after.price == after.basePrice && after.price - bid == ask - after.price)
            && (last <= 0.0 && !(bid > 0.0 && ask > 0.0) ==> after == e)
  {
  }

  /** A positive base price is always taken over; the current price follows it only when forced or stopped. */
  lemma BasePriceSetsPrice(e: Engine, newPrice: real, force: bool)
    ensures newPrice <= 0.0 ==> OnBasePrice(e, newPrice, force) == e
    ensures newPrice > 0.0 ==> OnBasePrice(e, newPrice, force).basePrice == newPrice
    ensures newPrice > 0.0 && newPrice != e.price ==>
              (OnBasePrice(e, newPrice, force).price == newPrice <==> force || !e.running)
    ensures newPrice > 0.0 && !force && e.running ==> OnBasePrice(e, newPrice, force) == e.(basePrice := newPrice)
  {
  }

  /** Whether the last start came after the last stop. */
  function Started(inputs: seq<Input>): bool {
    if inputs == [] then false
    else
      match inputs[|inputs| - 1]
      case Start => true
      case Stop => false
      case _ => Started(inputs[..|inputs| - 1])
  }

  /** The loop runs exactly from a start to the next stop - a reset does not stop it - and passes only then. */
  lemma {:induction false} PassesOnlyWhileStarted(cfg: Config, basePrice: real, inputs: seq<Input>, d: Draws)
    requires basePrice > 0.0 && PossibleRun(inputs) && PossibleDraws(d)
    ensures var e := Run(cfg, basePrice, inputs);
            && e.running == Started(inputs)
            && Step(cfg, e, Pass(d)) == (if Started(inputs) then RunPass(cfg, e, d) else e)
  {
    hide RunPass, Times;
    if inputs != [] {
      PassesOnlyWhileStarted(cfg, basePrice, inputs[..|inputs| - 1], d);
    }
  }

  // ---- The trade record ---------------------------------------------------------------------

  /**
   What a trade record tells besides its PnL: the lot and the reason of its close, a price worse than
   the exit price by 10 to 20 basis points, and the PnL as a fraction of the entry value.
   */
  lemma TradeTells(cfg: Config, e: Engine, lot: Lot, reason: Reason, exitPrice: real, roll: real)
    requires exitPrice > 0.0 && lot.avgPrice > 0.0 && lot.qty > 0.0 && 0.0 <= roll < 1.0
    ensures var t := Trade(cfg, e, lot, reason, exitPrice, roll);
            && t.reason == reason && t.side == lot.side && t.qty == lot.qty && t.entryPrice == lot.avgPrice
            && t.stopLoss == lot.stopLoss && t.takeProfit == lot.takeProfit
            && Times(t.pnlPct, Times(lot.avgPrice, lot.qty)) == t.pnl
            && t.slippageBps == 10.0 + 10.0 * roll
            && Times(exitPrice, t.slippageBps)
               == 10000.0 * (if lot.side == Buy then exitPrice - t.exitPrice else t.exitPrice - exitPrice)
  {
    hide Times, Over, NetPnl, ExitFee, PerformanceFee, Slippage;
    var slip := Slippage(roll);
    EntryPricePositive(exitPrice, Buy, roll);
    assert slip == 0.001 + 0.001 * roll by { SlippageInBps(roll); }
    var moved := Times(exitPrice, slip);
    TimesSplit(exitPrice, 1.0, slip);
    TimesSplit(exitPrice, 1.0, -slip);
    TimesUnits(exitPrice);
    TimesNegate(exitPrice, slip);
    TimesSign(exitPrice, slip);
    OverUnique(moved, exitPrice, slip) by { TimesSwap(exitPrice, slip); }
    TimesScaled(exitPrice, slip);
    TimesSign(lot.avgPrice, lot.qty);
    TimesOver(NetPnl(cfg, e, lot, exitPrice), lot.Notional());
  }

  lemma SlippageInBps(roll: real)
    ensures Slippage(roll) == 0.001 + 0.001 * roll
  {
  }

  lemma TimesScaled(x: real, y: real)
    ensures Times(x, y * 10000.0) == 10000.0 * Times(x, y)
  {
  }

  /** A pair is concerned exactly when its name stands somewhere in the symbol. */
  lemma {:induction false} ConcernsExactly(symbol: string)
    ensures Concerns(symbol) <==> exists before: string, behind: string :: symbol == before + PAIR + behind
  {
    if PAIR <= symbol {
      assert symbol == "" + PAIR + symbol[|PAIR|..];
    } else if symbol != "" {
      ConcernsExactly(symbol[1..]);
      if Concerns(symbol[1..]) {
        var before, behind :| symbol[1..] == before + PAIR + behind;
        assert symbol == ([symbol[0]] + before) + PAIR + behind;
      }
      if before: string, behind: string :| symbol == before + PAIR + behind {
        NotAtTheStart(symbol, before, behind);
        assert symbol[1..] == before[1..] + PAIR + behind;
      }
    }
  }

  lemma NotAtTheStart(symbol: string, before: string, behind: string)
    requires symbol == before + PAIR + behind
    ensures before == "" ==> PAIR <= symbol
  {
    if before == "" {
      assert symbol == PAIR + behind;
    }
  }

  /** After a reset the past is forgotten: only base price, base percentages, lot counter and loop remain. */
  lemma ResetForgets(cfg: Config, e: Engine, f: Engine)
    requires e.basePrice == f.basePrice && e.running == f.running && e.nextId == f.nextId
    requires e.adaptive.baseStopLoss == f.adaptive.baseStopLoss
    requires e.adaptive.baseTakeProfit == f.adaptive.baseTakeProfit
    ensures OnReset(cfg, e) == OnReset(cfg, f)
    ensures OnReset(cfg, e).cash == cfg.startingCapital == OnReset(cfg, e).peakEquity
    ensures OnReset(cfg, e).price == e.basePrice && OnReset(cfg, e).running == e.running
  {
  }
}
