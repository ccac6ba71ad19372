/**
 The paper-trading engine as the object the source keeps (qtrader/execution/paper_engine.py,
 qtrader/execution/paper_mixins.py). Every method is proved to move the fields exactly as the
 state machine of `PaperSpec` does, so the run-level theorems of `PaperTheorems` are about it.
 */
module PaperEngine {
  import opened Base
  import opened Products
  import opened PaperModels
  import opened PaperSpec

  class PaperTradingEngine {
    const config: Config
    var cash: real
    var openPositions: seq<Lot>
    var managedPositions: seq<Lot>
    var adaptive: AdaptiveConfig
    var totalCommissions: real
    var totalGrossPnl: real
    var peakEquity: real
    var maxDrawdown: real
    var currentPrice: real
    var basePrice: real
    var priceHistory: seq<real>
    var closedTrades: seq<TradeRecord>
    var running: bool
    var nextId: nat

    function Value(): Engine
      reads this, adaptive
    {
      Engine(cash, openPositions, managedPositions, adaptive.Value(), totalCommissions, totalGrossPnl, peakEquity,
             maxDrawdown, currentPrice, basePrice, priceHistory, closedTrades, running, nextId)
    }

    constructor (config: Config, basePrice: real)
      ensures this.config == config && fresh(adaptive)
      ensures Value() == Initial(config, basePrice)
    {
      this.config := config;
      adaptive := new AdaptiveConfig(config.stopLossPct, config.takeProfitPct);
      cash, peakEquity := config.startingCapital, config.startingCapital;
      totalCommissions, totalGrossPnl, maxDrawdown := 0.0, 0.0, 0.0;
      openPositions, managedPositions, priceHistory, closedTrades := [], [], [], [];
      currentPrice, this.basePrice := basePrice, basePrice;
      running, nextId := false, 0;
    }

    /** The `equity` property: cash plus the marked value of every open lot. */
    method Equity() returns (equity: real)
      ensures equity == PaperSpec.Equity(Value())
    {
      hide Times;
      var marketValue := 0.0;
      var i := 0;
      assert openPositions[0..] == openPositions;
      while i < |openPositions|
        invariant 0 <= i <= |openPositions|
        invariant marketValue + MarketValue(openPositions[i..], currentPrice)
               == MarketValue(openPositions, currentPrice)
      {
        var lot := openPositions[i];
        assert openPositions[i..][1..] == openPositions[i + 1..];
        if lot.qty > 0.0 {
          marketValue := marketValue + Times(lot.qty, currentPrice);
        } else if lot.qty < 0.0 {
          var notional := Times(-lot.qty, lot.avgPrice);
          var pnl := Times(lot.avgPrice - currentPrice, -lot.qty);
          marketValue := marketValue + (notional + pnl);
        }
        i := i + 1;
      }
      equity := cash + marketValue;
    }

    /** The `realized_pnl` property. */
    method RealizedPnl() returns (realized: real)
      ensures realized == PaperSpec.RealizedPnl(config, Value())
    {
      hide Times;
      var marketValue, notionalValue := 0.0, 0.0;
      var i := 0;
      assert openPositions[0..] == openPositions;
      while i < |openPositions|
        invariant 0 <= i <= |openPositions|
        invariant marketValue + MarketValue(openPositions[i..], currentPrice)
               == MarketValue(openPositions, currentPrice)
        invariant notionalValue + EntryValue(openPositions[i..]) == EntryValue(openPositions)
      {
        var lot := openPositions[i];
        assert openPositions[i..][1..] == openPositions[i + 1..];
        notionalValue := notionalValue + Times(Abs(lot.qty), lot.avgPrice);
        if lot.qty > 0.0 {
          marketValue := marketValue + Times(lot.qty, currentPrice);
        } else {
          var pnl := Times(lot.avgPrice - currentPrice, Abs(lot.qty));
          ZeroLot(lot, currentPrice);
          marketValue := marketValue + (Times(Abs(lot.qty), lot.avgPrice) + pnl);
        }
        i := i + 1;
      }
      var unrealizedGross := marketValue - notionalValue;
      var equity := Equity();
      realized := (equity - config.startingCapital) - unrealizedGross;
    }

    /** `_simulate_price_tick`: remembers the price and bounds the history. */
    method SimulatePriceTick()
      modifies this`priceHistory
      ensures priceHistory == RecordPrice(old(priceHistory), currentPrice)
      ensures old(|priceHistory|) <= PRICE_HISTORY_LIMIT ==> |priceHistory| <= PRICE_HISTORY_LIMIT
    {
      priceHistory := priceHistory + [currentPrice];
      if |priceHistory| > PRICE_HISTORY_LIMIT {
        priceHistory := priceHistory[|priceHistory| - PRICE_HISTORY_PRUNE..];
      }
    }

    /** `_open_managed_position` */
    method OpenManagedPosition(side: Side, strength: real, errorRoll: real, slipRoll: real) returns (entered: bool)
      requires currentPrice > 0.0 && 0.0 <= slipRoll < 1.0
      modifies this
      ensures Value() == Open(old(Value()), side, strength, errorRoll, slipRoll)
      ensures entered == Opens(old(Value()), strength, errorRoll)
      ensures adaptive == old(adaptive)
    {
      hide Times, Over;
      var posPct := Times(adaptive.Value().PositionSizePct(), strength);
      var notional := Times(cash, posPct);
      if notional < MIN_TRADE_NOTIONAL {
        return false;
      }
      if errorRoll < ERROR_PROBABILITY {
        return false;
      }
      var slippagePct := Slippage(slipRoll);
      EntryPricePositive(currentPrice, side, slipRoll);
      var price := Times(currentPrice, 1.0 + (if side == Buy then slippagePct else -slippagePct));
      OverSign(notional, price);
      var qty := Over(notional, price);
      var slPct, tpPct := adaptive.Value().StopLossPct(), adaptive.Value().TakeProfitPct();
      var sl := if side == Buy then Times(price, 1.0 + -slPct) else Times(price, 1.0 + slPct);
      var tp := if side == Buy then Times(price, 1.0 + tpPct) else Times(price, 1.0 + -tpPct);
      var entryFee := notional * TAKER_FEE;
      var commissionPerUnit := Over(entryFee, qty);
      var pos := Lot(nextId, side, qty, price, commissionPerUnit, sl, tp);
      assert pos == NewLot(Value(), side, strength, slipRoll);
      BookMoney(-(notional + entryFee), entryFee, 0.0);
      nextId := nextId + 1;
      openPositions := openPositions + [pos];
      managedPositions := managedPositions + [pos];
      entered := true;
    }

    /** `_check_exit_conditions`: scans the managed lots for a stop or target that fired. */
    method CheckExitConditions(roll: real) returns (exited: bool)
      modifies this, adaptive
      ensures Value() == CheckExit(config, old(Value()), roll)
      ensures exited == FirstTriggered(old(managedPositions), old(currentPrice)).Some?
      ensures adaptive == old(adaptive)
    {
      hide Close, FirstTriggered;
      var i := 0;
      while i < |managedPositions|
        invariant 0 <= i <= |managedPositions|
        invariant Value() == old(Value()) && adaptive == old(adaptive)
        invariant forall k :: 0 <= k < i ==> ExitReason(managedPositions[k], currentPrice).None?
      {
        var pos, price := managedPositions[i], currentPrice;
        var reason: Option<Reason> := None;
        if pos.side == Buy {
          if price <= pos.stopLoss {
            reason := Some(StopLoss);
          } else if price >= pos.takeProfit {
            reason := Some(TakeProfit);
          }
        } else if price >= pos.stopLoss {
          reason := Some(StopLoss);
        } else if price <= pos.takeProfit {
          reason := Some(TakeProfit);
        }
        assert reason == ExitReason(pos, price);
        if reason.Some? {
          TriggeredAt(managedPositions, price, i);
          CloseManagedPosition(reason.value, price, roll);
          return true;
        }
        i := i + 1;
      }
      exited := false;
    }

    /** `_check_dynamic_exit`: closes when a strong enough signal opposes a managed lot. */
    method CheckDynamicExit(signal: Option<Signal>, roll: real) returns (exited: bool)
      modifies this, adaptive
      ensures Value() == PaperSpec.CheckDynamicExit(config, old(Value()), signal, roll)
      ensures adaptive == old(adaptive)
    {
      hide Close;
      if signal.None? || managedPositions == [] {
        return false;
      }
      var action, strength := signal.value.action, signal.value.strength;
      var i := 0;
      while i < |managedPositions|
        invariant 0 <= i <= |managedPositions|
        invariant Value() == old(Value()) && adaptive == old(adaptive)
        invariant forall k :: 0 <= k < i ==> !Reverses(managedPositions[k], signal.value)
      {
        var pos := managedPositions[i];
        var shouldExit := false;
        if pos.side == Buy && action == Sell && strength >= REVERSAL_THRESHOLD {
          shouldExit := true;
        } else if pos.side == Sell && action == Buy && strength >= REVERSAL_THRESHOLD {
          shouldExit := true;
        }
        if shouldExit {
          assert Reverses(managedPositions[i], signal.value);
          CloseManagedPosition(DynamicExit, currentPrice, roll);
          return true;
        }
        i := i + 1;
      }
      exited := false;
    }

    /** `_close_managed_position` */
    method CloseManagedPosition(reason: Reason, exitPrice: real, roll: real)
      requires managedPositions != []
      modifies this, adaptive
      ensures Value() == Close(config, old(Value()), reason, exitPrice, roll)
      ensures adaptive == old(adaptive)
    {
      hide Settled, Times, Over;
      SettleOldestLot(reason, exitPrice, roll);
      var currEq := Equity();
      peakEquity := Max(peakEquity, currEq);
      var peak := Equity();
      peakEquity := Max(peakEquity, peak);
      var dd := if peakEquity > 0.0 then Over(peakEquity - peak, peakEquity) else 0.0;
      maxDrawdown := Max(maxDrawdown, dd);
    }

    /** The part of a close that settles cash, ledgers, lists, streaks and the trade record. */
    method SettleOldestLot(reason: Reason, exitPrice: real, roll: real)
      requires managedPositions != []
      modifies this, adaptive
      ensures Value() == Settled(config, old(Value()), reason, exitPrice, roll)
      ensures adaptive == old(adaptive)
    {
      hide Times, Over, GrossPnl, ExitFee, PerformanceFee, CashBeforePerformanceFee, NetPnl, Trade, Truncate;
      hide Lot.Notional, Lot.Commission;
      ghost var before := Value();
      var pos := managedPositions[0];
      var grossPnl, executionFee, exitPerfFee, netPnl := Settlement(config, before, pos, exitPrice, cash, peakEquity);
      var trade := BuildTrade(config, before, pos, reason, exitPrice, roll, netPnl, executionFee + exitPerfFee);
      BookMoney((pos.Notional() + grossPnl) - executionFee - exitPerfFee, executionFee + exitPerfFee, grossPnl);
      TakeOffLists(trade);
      if netPnl > 0.0 {
        adaptive.RecordWin(netPnl);
      } else {
        adaptive.RecordLoss(netPnl);
      }
    }

    method BookMoney(received: real, fees: real, grossPnl: real)
      modifies this`cash, this`totalCommissions, this`totalGrossPnl
      ensures Value() == old(Value()).(cash := old(cash) + received,
                                       totalCommissions := old(totalCommissions) + fees,
                                       totalGrossPnl := old(totalGrossPnl) + grossPnl)
    {
      cash := cash + received;
      totalCommissions := totalCommissions + fees;
      totalGrossPnl := totalGrossPnl + grossPnl;
    }

    /** Removes the oldest managed lot from both lists and remembers its trade, dropping old trades. */
    method TakeOffLists(trade: TradeRecord)
      requires managedPositions != []
      modifies this`managedPositions, this`openPositions, this`closedTrades
      ensures Value() == old(Value()).(managed := old(managedPositions)[1..],
                                       open := Without(old(openPositions), old(managedPositions)[0].id),
                                       trades := Truncate(old(closedTrades) + [trade], config.maxTrades))
    {
      openPositions := RemoveLot(openPositions, managedPositions[0].id);
      managedPositions := managedPositions[1..];
      closedTrades := closedTrades + [trade];
      if |closedTrades| > config.maxTrades && config.maxTrades > 0 {
        closedTrades := closedTrades[|closedTrades| - (config.maxTrades + 1) / 2..];
      }
    }

    /** One iteration of `run_continuous`. */
    method Iterate(d: Draws)
      requires currentPrice > 0.0 && 0.0 <= d.slipRoll < 1.0
      modifies this, adaptive
      ensures Value() == RunPass(config, old(Value()), d)
      ensures adaptive == old(adaptive)
    {
      hide Close, Open, FirstTriggered;
      SimulatePriceTick();
      ghost var priced := Value();
      var exited := CheckExitConditions(d.exitRoll);
      PriceKept(config, priced, d.exitRoll);
      if |priceHistory| >= MIN_HISTORY_FOR_ANALYSIS && d.reached != AfterExit {
        if managedPositions != [] {
          ghost var beforeDynamic := Value();
          var dynamicExit := CheckDynamicExit(d.signal, d.dynamicRoll);
          DynamicPriceKept(config, beforeDynamic, d.signal, d.dynamicRoll);
        }
        var symbols := if managedPositions == [] then 0 else 1;
        if d.reached == Complete && symbols < config.maxConcurrent && d.signal.Some? {
          var action := d.signal.value.action;
          if managedPositions == [] || exists i :: 0 <= i < |managedPositions| && managedPositions[i].side != action {
            var entered := OpenManagedPosition(d.signal.value.action, d.signal.value.strength, d.errorRoll, d.slipRoll);
          }
        }
      }
    }

    /** The loop of `run_continuous` over the passes it makes before something else calls the engine. */
    method RunContinuous(draws: seq<Draws>)
      requires currentPrice > 0.0 && forall k :: 0 <= k < |draws| ==> PossibleDraws(draws[k])
      modifies this, adaptive
      ensures Value() == Passes(config, old(Value()).(running := true), draws)
      ensures adaptive == old(adaptive)
    {
      hide RunPass;
      running := true;
      ghost var started := Value();
      var i := 0;
      while i < |draws|
        invariant 0 <= i <= |draws|
        invariant Value() == Passes(config, started, draws[..i]) && adaptive == old(adaptive)
      {
        assert draws[..i + 1][..i] == draws[..i];
        Iterate(draws[i]);
        i := i + 1;
      }
      assert draws[..i] == draws;
    }

    method Stop()
      modifies this`running
      ensures Value() == old(Value()).(running := false)
    {
      running := false;
    }

    method UpdateBasePrice(price: real, forceCurrent: bool)
      modifies this`basePrice, this`currentPrice
      ensures Value() == OnBasePrice(old(Value()), price, forceCurrent)
      ensures old(currentPrice) > 0.0 ==> currentPrice > 0.0
    {
      if price <= 0.0 {
        return;
      }
      basePrice := price;
      if forceCurrent || !running {
        currentPrice := price;
      }
    }

    /** `handle_market_event`; events of other pairs are ignored. */
    method HandleMarketEvent(symbol: string, last: real, bid: real, ask: real)
      modifies this`basePrice, this`currentPrice
      ensures Value() == OnMarketEvent(old(Value()), symbol, last, bid, ask)
      ensures old(currentPrice) > 0.0 ==> currentPrice > 0.0
    {
      if !Concerns(symbol) {
        return;
      }
      var price := last;
      if price <= 0.0 {
        if bid > 0.0 && ask > 0.0 {
          price := (bid + ask) / 2.0;
        }
      }
      if price > 0.0 {
        currentPrice := price;
        basePrice := price;
      }
    }

    method Reset()
      modifies this
      ensures Value() == OnReset(config, old(Value()))
      ensures fresh(adaptive)
    {
      ResetMoney();
      ResetLists();
      adaptive := new AdaptiveConfig(adaptive.baseStopLoss, adaptive.baseTakeProfit);
    }

    method ResetMoney()
      modifies this`cash, this`totalCommissions, this`totalGrossPnl, this`peakEquity, this`maxDrawdown
      ensures Value() == old(Value()).(cash := config.startingCapital, totalCommissions := 0.0, totalGrossPnl := 0.0,
                                       peakEquity := config.startingCapital, maxDrawdown := 0.0)
    {
      cash := config.startingCapital;
      totalCommissions := 0.0;
      totalGrossPnl := 0.0;
      peakEquity := config.startingCapital;
      maxDrawdown := 0.0;
    }

    method ResetLists()
      modifies this`currentPrice, this`priceHistory, this`openPositions, this`managedPositions, this`closedTrades
      ensures Value() == old(Value()).(price := basePrice, history := [], open := [], managed := [], trades := [])
    {
      currentPrice := basePrice;
      priceHistory := [];
      openPositions := [];
      managedPositions := [];
      closedTrades := [];
    }
  }

  /** A lot of quantity zero has no value, which is why both valuation loops agree on it. */
  lemma ZeroLot(lot: Lot, price: real)
    requires lot.qty <= 0.0
    ensures LotValue(lot, price) == Times(Abs(lot.qty), lot.avgPrice) + Times(lot.avgPrice - price, Abs(lot.qty))
  {
  }

  lemma {:induction false} TriggeredAt(lots: seq<Lot>, price: real, i: nat)
    requires i < |lots| && ExitReason(lots[i], price).Some?
    requires forall k :: 0 <= k < i ==> ExitReason(lots[k], price).None?
    ensures FirstTriggered(lots, price) == Some((i, ExitReason(lots[i], price).value))
  {
    if i > 0 {
      TriggeredAt(lots[1..], price, i - 1);
    }
  }

  /** Exits do not move the price. */
  lemma PriceKept(cfg: Config, e: Engine, roll: real)
    ensures CheckExit(cfg, e, roll).price == e.price
    ensures CheckExit(cfg, e, roll).history == e.history
  {
  }

  lemma DynamicPriceKept(cfg: Config, e: Engine, signal: Option<Signal>, roll: real)
    ensures CheckDynamicExit(cfg, e, signal, roll).price == e.price
  {
  }

  lemma WithoutStep(kept: seq<Lot>, lots: seq<Lot>, i: nat, id: nat)
    requires i < |lots|
    ensures kept + Without(lots[i..], id)
         == (kept + (if lots[i].id != id then [lots[i]] else [])) + Without(lots[i + 1..], id)
  {
    assert lots[i..][1..] == lots[i + 1..];
    Associative(kept, if lots[i].id != id then [lots[i]] else [], Without(lots[i + 1..], id));
  }

  lemma Associative(a: seq<Lot>, b: seq<Lot>, c: seq<Lot>)
    ensures a + (b + c) == (a + b) + c
  {
  }

  /** The list comprehension that drops the closed lot. */
  method RemoveLot(lots: seq<Lot>, id: nat) returns (kept: seq<Lot>)
    ensures kept == Without(lots, id)
  {
    hide Without;
    kept := [];
    var i := 0;
    NothingKept(lots, id);
    while i < |lots|
      invariant 0 <= i <= |lots|
      invariant kept + Without(lots[i..], id) == Without(lots, id)
    {
      WithoutStep(kept, lots, i, id);
      if lots[i].id != id {
        kept := kept + [lots[i]];
      } else {
        assert kept + [] == kept;
      }
      i := i + 1;
    }
    NothingLeft(kept, lots, id);
  }

  lemma NothingKept(lots: seq<Lot>, id: nat)
    ensures [] + Without(lots[0..], id) == Without(lots, id)
  {
    assert lots[0..] == lots;
  }

  lemma NothingLeft(kept: seq<Lot>, lots: seq<Lot>, id: nat)
    ensures kept + Without(lots[|lots|..], id) == kept
  {
    assert lots[|lots|..] == [];
  }

  /** Gross PnL, fees and net PnL of closing one lot, step by step. */
  method Settlement(cfg: Config, ghost e: Engine, pos: Lot, exitPrice: real, cash: real, peakEquity: real)
    returns (grossPnl: real, executionFee: real, exitPerfFee: real, netPnl: real)
    requires cash == e.cash && peakEquity == e.peakEquity
    ensures grossPnl == GrossPnl(pos, exitPrice) && executionFee == ExitFee(pos, exitPrice)
    ensures exitPerfFee == PerformanceFee(cfg, e, pos, exitPrice) && netPnl == NetPnl(cfg, e, pos, exitPrice)
  {
    hide Times;
    grossPnl := if pos.side == Buy then Times(exitPrice - pos.avgPrice, pos.qty)
                else Times(pos.avgPrice - exitPrice, pos.qty);
    executionFee := Times(exitPrice, pos.qty) * TAKER_FEE;
    exitPerfFee := 0.0;
    var notionalEntry := Times(pos.avgPrice, pos.qty);
    var equityBeforePerf := cash + (notionalEntry + grossPnl) - executionFee;
    if grossPnl > 0.0 && equityBeforePerf > peakEquity {
      var newProfitAbovePeak := equityBeforePerf - peakEquity;
      exitPerfFee := Min(Times(grossPnl, cfg.performanceFee), Times(newProfitAbovePeak, cfg.performanceFee));
    }
    netPnl := grossPnl - (pos.Commission() + executionFee + exitPerfFee);
  }

  /** The record of a closed trade; its exit price is shifted by slippage, its PnL is not. */
  method BuildTrade(cfg: Config, ghost e: Engine, pos: Lot, reason: Reason, exitPrice: real, roll: real,
                    netPnl: real, commission: real) returns (trade: TradeRecord)
    requires netPnl == NetPnl(cfg, e, pos, exitPrice)
    requires commission == ExitFee(pos, exitPrice) + PerformanceFee(cfg, e, pos, exitPrice)
    ensures trade == Trade(cfg, e, pos, reason, exitPrice, roll)
  {
    hide Times, Over;
    var notional := pos.Notional();
    var netPnlPct := if pos.avgPrice > 0.0 && notional != 0.0 then Over(netPnl, notional) else 0.0;
    var exitSlippagePct := Slippage(roll);
    var adjusted := Times(exitPrice, 1.0 + (if pos.side == Buy then -exitSlippagePct else exitSlippagePct));
    var slippageBps := if exitPrice > 0.0 then Over(Abs(adjusted - exitPrice), exitPrice) * 10000.0 else 0.0;
    trade := TradeRecord(pos.side, pos.avgPrice, adjusted, pos.qty, netPnl, netPnlPct, slippageBps, reason,
                         pos.stopLoss, pos.takeProfit, commission);
  }
}
