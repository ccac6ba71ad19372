/** What every run of the paper-trading loop keeps. */
module PaperTheorems {
  import opened Base
  import opened Products
  import opened PaperModels
  import opened PaperSpec

  // ---- The one-lot invariant ----------------------------------------------------------------

  /** Both position dictionaries hold the same lots, at most one, and every lot is positive. */
  ghost predicate OneLot(e: Engine) {
    && e.open == e.managed && |e.managed| <= 1
    && (forall i :: 0 <= i < |e.managed| ==> e.managed[i].qty > 0.0 && e.managed[i].avgPrice > 0.0)
    && e.price > 0.0 && e.basePrice > 0.0
  }

  lemma OpenedLot(e: Engine, side: Side, strength: real, errorRoll: real, slipRoll: real)
    requires e.price > 0.0 && 0.0 <= slipRoll < 1.0 && Opens(e, strength, errorRoll)
    ensures EntryPrice(e.price, side, slipRoll) > 0.0
    ensures var lot := NewLot(e, side, strength, slipRoll);
            && lot.qty > 0.0 && lot.avgPrice > 0.0
            && lot.Notional() == Notional(e, strength)
            && lot.Commission() == Notional(e, strength) * TAKER_FEE
  {
    hide Times, Over;
    EntryPricePositive(e.price, side, slipRoll);
    var notional, price := Notional(e, strength), EntryPrice(e.price, side, slipRoll);
    OverSign(notional, price);
    TimesOver(notional, price);
    TimesOver(notional * TAKER_FEE, Over(notional, price));
  }

  lemma OpenKeepsOneLot(e: Engine, side: Side, strength: real, errorRoll: real, slipRoll: real)
    requires OneLot(e) && e.managed == [] && 0.0 <= slipRoll < 1.0
    ensures OneLot(Open(e, side, strength, errorRoll, slipRoll))
  {
    hide Times, Over;
    if Opens(e, strength, errorRoll) {
      OpenedLot(e, side, strength, errorRoll, slipRoll);
    }
  }

  /** With one lot, a close leaves the engine flat: equity is then exactly cash. */
  lemma CloseFlattens(cfg: Config, e: Engine, reason: Reason, exitPrice: real, roll: real)
    requires OneLot(e) && e.managed != []
    ensures var after := Close(cfg, e, reason, exitPrice, roll);
            OneLot(after) && after.managed == [] && Equity(after) == after.cash
  {
    hide Times, Over;
    assert Without(e.open, e.managed[0].id) == [] by {
      assert e.open[1..] == [];
    }
  }

  lemma CheckExitKeepsOneLot(cfg: Config, e: Engine, roll: real)
    requires OneLot(e)
    ensures OneLot(CheckExit(cfg, e, roll))
  {
    if FirstTriggered(e.managed, e.price).Some? {
      CloseFlattens(cfg, e, FirstTriggered(e.managed, e.price).value.1, e.price, roll);
    }
  }

  /**
   A signal against the open lot is at least 0.5 strong, above the 0.35 reversal threshold, so
   the lot is closed before the opposite entry is considered.
   */
  lemma DynamicExitClearsTheWay(cfg: Config, e: Engine, signal: Signal, roll: real)
    requires OneLot(e) && signal.strength >= 0.5
    ensures var after := CheckDynamicExit(cfg, e, Some(signal), roll);
            OneLot(after) && (WantsEntry(cfg, after.managed, Some(signal)) ==> after.managed == [])
  {
    if exists i :: 0 <= i < |e.managed| && Reverses(e.managed[i], signal) {
      CloseFlattens(cfg, e, DynamicExit, e.price, roll);
    } else if e.managed != [] {
      assert !Reverses(e.managed[0], signal);
    }
  }

  lemma PassKeepsOneLot(cfg: Config, e: Engine, d: Draws)
    requires OneLot(e) && PossibleDraws(d)
    ensures OneLot(RunPass(cfg, e, d))
  {
    hide Times, Over, Close;
    var exited := CheckExit(cfg, e.(history := RecordPrice(e.history, e.price)), d.exitRoll);
    CheckExitKeepsOneLot(cfg, e.(history := RecordPrice(e.history, e.price)), d.exitRoll);
    if |exited.history| >= MIN_HISTORY_FOR_ANALYSIS && d.reached != AfterExit && d.signal.Some? {
      DynamicExitClearsTheWay(cfg, exited, d.signal.value, d.dynamicRoll);
      var settled := if exited.managed != [] then CheckDynamicExit(cfg, exited, d.signal, d.dynamicRoll) else exited;
      if WantsEntry(cfg, settled.managed, d.signal) {
        OpenKeepsOneLot(settled, d.signal.value.action, d.signal.value.strength, d.errorRoll, d.slipRoll);
      }
    }
  }

  /**
   Where the invariant comes from: one pass leaves two lots exactly when a signal against the open
   lot is too weak to close it, the lot limit allows a second one, and the entry goes through.
   Signals are never that weak, whence the invariant.
   */
  lemma SecondLotExactly(cfg: Config, e: Engine, d: Draws)
    requires OneLot(e) && 0.0 <= d.slipRoll < 1.0
    ensures |RunPass(cfg, e, d).managed| > 1
       <==> && e.managed != [] && ExitReason(e.managed[0], e.price).None?
            && |RecordPrice(e.history, e.price)| >= MIN_HISTORY_FOR_ANALYSIS && d.reached == Complete
            && d.signal.Some? && d.signal.value.action != e.managed[0].side
            && d.signal.value.strength < REVERSAL_THRESHOLD
            && cfg.maxConcurrent > 1 && Opens(e, d.signal.value.strength, d.errorRoll)
  {
    hide Times, Over, Close, RecordPrice;
    var priced := e.(history := RecordPrice(e.history, e.price));
    var exited := CheckExit(cfg, priced, d.exitRoll);
    if FirstTriggered(e.managed, e.price).Some? {
      CloseFlattens(cfg, priced, FirstTriggered(e.managed, e.price).value.1, e.price, d.exitRoll);
    } else if e.managed != [] && d.signal.Some? && Reverses(e.managed[0], d.signal.value) {
      CloseFlattens(cfg, exited, DynamicExit, e.price, d.dynamicRoll);
    } else if e.managed != [] && d.signal.Some? {
      assert !Reverses(exited.managed[0], d.signal.value);
      assert CheckDynamicExit(cfg, exited, d.signal, d.dynamicRoll) == exited;
      assert WantsEntry(cfg, exited.managed, d.signal)
        <==> d.signal.value.action != e.managed[0].side && cfg.maxConcurrent > 1;
    }
  }

  /** Every reachable state has at most one managed lot. */
  lemma {:induction false} AtMostOneLot(cfg: Config, basePrice: real, inputs: seq<Input>)
    requires basePrice > 0.0 && PossibleRun(inputs)
    ensures OneLot(Run(cfg, basePrice, inputs))
  {
    hide RunPass, Times;
    if inputs != [] {
      var before := Run(cfg, basePrice, inputs[..|inputs| - 1]);
      AtMostOneLot(cfg, basePrice, inputs[..|inputs| - 1]);
      if inputs[|inputs| - 1].Pass? {
        PassKeepsOneLot(cfg, before, inputs[|inputs| - 1].draws);
      }
    }
  }

  /** Starting the loop and letting it pass is one of the runs the theorems speak of. */
  lemma {:induction false} PassesAreARun(cfg: Config, basePrice: real, inputs: seq<Input>, draws: seq<Draws>)
    requires basePrice > 0.0 && PossibleRun(inputs) && forall k :: 0 <= k < |draws| ==> PossibleDraws(draws[k])
    ensures var longer := inputs + [Start] + seq(|draws|, k requires 0 <= k < |draws| => Pass(draws[k]));
            && PossibleRun(longer)
            && Run(cfg, basePrice, longer) == Passes(cfg, Run(cfg, basePrice, inputs).(running := true), draws)
  {
    hide RunPass;
    var passes := seq(|draws|, k requires 0 <= k < |draws| => Pass(draws[k]));
    var longer := inputs + [Start] + passes;
    if draws == [] {
      assert longer == inputs + [Start] && longer[..|longer| - 1] == inputs;
    } else {
      var shorter := draws[..|draws| - 1];
      PassesAreARun(cfg, basePrice, inputs, shorter);
      assert longer[..|longer| - 1]
          == inputs + [Start] + seq(|shorter|, k requires 0 <= k < |shorter| => Pass(shorter[k]));
    }
  }

  // ---- The ledgers --------------------------------------------------------------------------

  /** Money is conserved: cash, the entry value of open lots, fees paid and gross PnL balance. */
  ghost predicate Conserved(cfg: Config, e: Engine) {
    e.cash + EntryValue(e.open) + e.totalCommissions - e.totalGrossPnl == cfg.startingCapital
  }

  /** The adaptive total is gross PnL net of all fees but the entry fees of lots still open. */
  ghost predicate LedgersAgree(e: Engine) {
    e.adaptive.totalPnl == e.totalGrossPnl - e.totalCommissions + EntryFees(e.open)
  }

  /**
   The high-water mark: of the profit above the starting capital, before performance fees, at
   most the fraction `performanceFee` has been charged.
   */
  ghost predicate FeesBounded(cfg: Config, e: Engine, fees: real) {
    && fees >= 0.0
    && Times(1.0 - cfg.performanceFee, fees) <= Times(cfg.performanceFee, e.peakEquity - cfg.startingCapital)
  }

  ghost predicate Sound(cfg: Config, e: Engine, fees: real) {
    && OneLot(e) && Conserved(cfg, e) && LedgersAgree(e)
    && (cfg.performanceFee >= 0.0 ==> FeesBounded(cfg, e, fees))
    && e.adaptive.Coherent() && e.peakEquity >= cfg.startingCapital
  }

  // ---- Performance fees charged, operation by operation -------------------------------------

  ghost function CheckExitFees(cfg: Config, e: Engine): real {
    if FirstTriggered(e.managed, e.price).Some? then PerformanceFee(cfg, e, e.managed[0], e.price) else 0.0
  }

  ghost function DynamicExitFees(cfg: Config, e: Engine, signal: Option<Signal>): real {
    if signal.Some? && exists i :: 0 <= i < |e.managed| && Reverses(e.managed[i], signal.value)
    then PerformanceFee(cfg, e, e.managed[0], e.price) else 0.0
  }

  ghost function PassFees(cfg: Config, e: Engine, d: Draws): real {
    var priced := e.(history := RecordPrice(e.history, e.price));
    var exited := CheckExit(cfg, priced, d.exitRoll);
    CheckExitFees(cfg, priced)
      + (if |exited.history| >= MIN_HISTORY_FOR_ANALYSIS && d.reached != AfterExit
         then DynamicExitFees(cfg, exited, d.signal) else 0.0)
  }

  /** Performance fees charged since the start of the run or the last reset. */
  ghost function Fees(cfg: Config, basePrice: real, inputs: seq<Input>): real
    requires basePrice > 0.0 && PossibleRun(inputs)
  {
    if inputs == [] then 0.0
    else
      var shorter := inputs[..|inputs| - 1];
      FeesAfter(cfg, Run(cfg, basePrice, shorter), inputs[|inputs| - 1], Fees(cfg, basePrice, shorter))
  }

  ghost function FeesAfter(cfg: Config, e: Engine, i: Input, soFar: real): real {
    match i
    case Reset => 0.0
    case Pass(draws) => if e.running then soFar + PassFees(cfg, e, draws) else soFar
    case _ => soFar
  }

  // ---- Preservation -------------------------------------------------------------------------

  lemma LotEntryValue(lot: Lot)
    requires lot.qty > 0.0
    ensures EntryValue([lot]) == lot.Notional() && EntryFees([lot]) == lot.Commission()
  {
    TimesSwap(lot.qty, lot.avgPrice);
    assert EntryValue([lot][1..]) == 0.0 && EntryFees([lot][1..]) == 0.0;
  }

  lemma OpenKeepsSound(cfg: Config, e: Engine, side: Side, strength: real, errorRoll: real, slipRoll: real, fees: real)
    requires Sound(cfg, e, fees) && e.managed == [] && 0.0 <= slipRoll < 1.0
    ensures Sound(cfg, Open(e, side, strength, errorRoll, slipRoll), fees)
  {
    hide Times, Over, Notional, Lot.Notional, Lot.Commission;
    OpenKeepsOneLot(e, side, strength, errorRoll, slipRoll);
    if Opens(e, strength, errorRoll) {
      OpenedLot(e, side, strength, errorRoll, slipRoll);
      var lot := NewLot(e, side, strength, slipRoll);
      assert e.open + [lot] == [lot];
      LotEntryValue(lot);
    }
  }

  /** A performance fee is at most the fraction `f` of the rise above the old high-water mark. */
  lemma FeePaidFromNewHigh(cfg: Config, e: Engine, lot: Lot, exitPrice: real)
    requires cfg.performanceFee >= 0.0
    ensures var fee, before := PerformanceFee(cfg, e, lot, exitPrice), CashBeforePerformanceFee(e, lot, exitPrice);
            && fee >= 0.0
            && (fee > 0.0 ==> before > e.peakEquity && GrossPnl(lot, exitPrice) > 0.0)
            && fee <= Times(Max(before - e.peakEquity, 0.0), cfg.performanceFee)
  {
    hide Times, GrossPnl, CashBeforePerformanceFee;
    var gross, before := GrossPnl(lot, exitPrice), CashBeforePerformanceFee(e, lot, exitPrice);
    TimesSign(gross, cfg.performanceFee);
    TimesSign(Max(before - e.peakEquity, 0.0), cfg.performanceFee);
  }

  /** The arithmetic of one charge: `f` times the rise of the mark pays for `1 - f` times the fee. */
  lemma ChargeStep(f: real, fee: real, fees: real, start: real, peak: real, before: real, newPeak: real)
    requires f >= 0.0 && fee >= 0.0
    requires Times(1.0 - f, fees) <= Times(f, peak - start)
    requires fee <= Times(Max(before - peak, 0.0), f)
    requires newPeak == Max(peak, before - fee)
    ensures Times(1.0 - f, fees + fee) <= Times(f, newPeak - start)
  {
    hide Times;
    TimesSplit(1.0 - f, fees, fee);
    TimesMinusLeft(1.0, f, fee);
    TimesUnits(fee);
    TimesUnits(f);
    TimesSwap(f, before - peak);
    var rise := Max(before - peak, 0.0);
    TimesMinus(f, peak, start);
    TimesMinus(f, newPeak, start);
    TimesMinus(f, before, peak);
    TimesMinus(f, before, fee);
    TimesSwap(f, newPeak);
    TimesSwap(f, peak);
    TimesSwap(f, before - fee);
    TimesOrder(before - fee, newPeak, f);
    TimesOrder(peak, newPeak, f);
    TimesSwap(f, rise);
  }

  lemma CloseKeepsSound(cfg: Config, e: Engine, reason: Reason, exitPrice: real, roll: real, fees: real)
    requires Sound(cfg, e, fees) && e.managed != []
    ensures Sound(cfg, Close(cfg, e, reason, exitPrice, roll), fees + PerformanceFee(cfg, e, e.managed[0], exitPrice))
  {
    hide Times, Over, GrossPnl, ExitFee, PerformanceFee, Trade, Truncate, Drawdown, Lot.Notional, Lot.Commission;
    var lot := e.managed[0];
    var after := Close(cfg, e, reason, exitPrice, roll);
    CloseFlattens(cfg, e, reason, exitPrice, roll);
    assert e.open == [lot];
    LotEntryValue(lot);
    if cfg.performanceFee >= 0.0 {
      FeePaidFromNewHigh(cfg, e, lot, exitPrice);
      ChargeStep(cfg.performanceFee, PerformanceFee(cfg, e, lot, exitPrice), fees, cfg.startingCapital, e.peakEquity,
                 CashBeforePerformanceFee(e, lot, exitPrice), after.peakEquity);
    }
  }

  lemma CheckExitKeepsSound(cfg: Config, e: Engine, roll: real, fees: real)
    requires Sound(cfg, e, fees)
    ensures Sound(cfg, CheckExit(cfg, e, roll), fees + CheckExitFees(cfg, e))
  {
    hide Close, PerformanceFee, Sound;
    var trigger := FirstTriggered(e.managed, e.price);
    if trigger.Some? {
      CloseKeepsSound(cfg, e, trigger.value.1, e.price, roll, fees);
    }
  }

  lemma DynamicExitKeepsSound(cfg: Config, e: Engine, signal: Option<Signal>, roll: real, fees: real)
    requires Sound(cfg, e, fees)
    ensures Sound(cfg, CheckDynamicExit(cfg, e, signal, roll), fees + DynamicExitFees(cfg, e, signal))
  {
    hide Close, PerformanceFee, Sound;
    if signal.Some? && exists i :: 0 <= i < |e.managed| && Reverses(e.managed[i], signal.value) {
      CloseKeepsSound(cfg, e, DynamicExit, e.price, roll, fees);
    }
  }

  lemma PassKeepsSound(cfg: Config, e: Engine, d: Draws, fees: real)
    requires Sound(cfg, e, fees) && PossibleDraws(d)
    ensures Sound(cfg, RunPass(cfg, e, d), fees + PassFees(cfg, e, d))
  {
    hide Times, Over, CheckExit, CheckExitFees, PerformanceFee, Close, Open, EntryValue, EntryFees;
    var priced := e.(history := RecordPrice(e.history, e.price));
    CheckExitKeepsSound(cfg, priced, d.exitRoll, fees);
    var exited, paid := CheckExit(cfg, priced, d.exitRoll), fees + CheckExitFees(cfg, priced);
    if |exited.history| >= MIN_HISTORY_FOR_ANALYSIS && d.reached != AfterExit && d.signal.Some? {
      DynamicExitKeepsSound(cfg, exited, d.signal, d.dynamicRoll, paid);
      DynamicExitClearsTheWay(cfg, exited, d.signal.value, d.dynamicRoll);
      var settled := CheckDynamicExit(cfg, exited, d.signal, d.dynamicRoll);
      if WantsEntry(cfg, settled.managed, d.signal) {
        OpenKeepsSound(cfg, settled, d.signal.value.action, d.signal.value.strength, d.errorRoll, d.slipRoll,
                       paid + DynamicExitFees(cfg, exited, d.signal));
      }
    }
  }

  lemma InitialIsSound(cfg: Config, basePrice: real)
    requires basePrice > 0.0
    ensures Sound(cfg, Initial(cfg, basePrice), 0.0)
  {
    TimesUnits(1.0 - cfg.performanceFee);
    TimesUnits(cfg.performanceFee);
  }

  lemma StepKeepsSound(cfg: Config, e: Engine, i: Input, fees: real)
    requires Sound(cfg, e, fees) && Possible(i)
    ensures Sound(cfg, Step(cfg, e, i), FeesAfter(cfg, e, i, fees))
  {
    hide RunPass, PassFees, Times;
    match i
    case Pass(draws) =>
      if e.running {
        PassKeepsSound(cfg, e, draws, fees);
      }
    case Reset =>
      InitialIsSound(cfg, e.basePrice);
    case _ =>
  }

  lemma {:induction false} RunIsSound(cfg: Config, basePrice: real, inputs: seq<Input>)
    requires basePrice > 0.0 && PossibleRun(inputs)
    ensures Sound(cfg, Run(cfg, basePrice, inputs), Fees(cfg, basePrice, inputs))
  {
    hide Sound, Step, FeesAfter;
    if inputs == [] {
      InitialIsSound(cfg, basePrice);
    } else {
      var shorter := inputs[..|inputs| - 1];
      RunIsSound(cfg, basePrice, shorter);
      StepKeepsSound(cfg, Run(cfg, basePrice, shorter), inputs[|inputs| - 1], Fees(cfg, basePrice, shorter));
    }
  }

  // ---- The run-level theorems ---------------------------------------------------------------

  /** With fee fraction `f`, fees never exceed `f / (1 - f)` of the peak rise: no profit pays twice. */
  lemma HighWaterMark(cfg: Config, basePrice: real, inputs: seq<Input>)
    requires basePrice > 0.0 && PossibleRun(inputs) && 0.0 <= cfg.performanceFee < 1.0
    ensures (1.0 - cfg.performanceFee) * Fees(cfg, basePrice, inputs)
         <= cfg.performanceFee * (Run(cfg, basePrice, inputs).peakEquity - cfg.startingCapital)
  {
    hide Run, Fees;
    RunIsSound(cfg, basePrice, inputs);
  }

  lemma LedgerConservation(cfg: Config, basePrice: real, inputs: seq<Input>)
    requires basePrice > 0.0 && PossibleRun(inputs)
    ensures var e := Run(cfg, basePrice, inputs);
            e.cash + EntryValue(e.open) + e.totalCommissions - e.totalGrossPnl == cfg.startingCapital
  {
    hide Run, Fees;
    RunIsSound(cfg, basePrice, inputs);
  }

  /** `realized_pnl`, though computed from the current price, does not depend on it. */
  lemma RealizedPnlIsNetOfFees(cfg: Config, basePrice: real, inputs: seq<Input>, price: real)
    requires basePrice > 0.0 && PossibleRun(inputs)
    ensures var e := Run(cfg, basePrice, inputs);
            RealizedPnl(cfg, e.(price := price)) == e.totalGrossPnl - e.totalCommissions
  {
    hide Run, Fees, MarketValue;
    RunIsSound(cfg, basePrice, inputs);
  }

  /** The adaptive total agrees with the engine's ledgers, however much trade history was dropped. */
  lemma TwoLedgersAgree(cfg: Config, basePrice: real, inputs: seq<Input>)
    requires basePrice > 0.0 && PossibleRun(inputs)
    ensures var e := Run(cfg, basePrice, inputs);
            && e.adaptive.totalPnl == e.totalGrossPnl - e.totalCommissions + EntryFees(e.open)
            && (e.open == [] ==> e.cash == cfg.startingCapital + e.adaptive.totalPnl)
  {
    hide Run, Fees;
    RunIsSound(cfg, basePrice, inputs);
  }

  /**
   `pop(0)` always removes the lot whose stop or target fired: in a reachable state the first
   triggered lot is the first lot, it satisfies the reported reason, and none is left behind.
   */
  lemma ExitClosesTheTriggeredLot(cfg: Config, basePrice: real, inputs: seq<Input>, roll: real)
    requires basePrice > 0.0 && PossibleRun(inputs)
    ensures var e := Run(cfg, basePrice, inputs);
            var trigger := FirstTriggered(e.managed, e.price);
            trigger.Some? ==>
              var (index, reason) := trigger.value;
              && index == 0
              && ExitReason(e.managed[0], e.price) == Some(reason)
              && CheckExit(cfg, e, roll).managed == []
  {
    hide Run, Times, Over;
    AtMostOneLot(cfg, basePrice, inputs);
    var e := Run(cfg, basePrice, inputs);
    if FirstTriggered(e.managed, e.price).Some? {
      CloseFlattens(cfg, e, FirstTriggered(e.managed, e.price).value.1, e.price, roll);
    }
  }

  /**
   The stop and the target, which the engine keeps as prices, mean returns: a lot is stopped exactly
   when it has lost the fraction `sl` of its entry value, and otherwise reaches its target exactly
   when it has gained the fraction `tp` - on both sides, gross of fees.
   */
  lemma ExitIsByReturn(e: Engine, side: Side, strength: real, errorRoll: real, slipRoll: real, price: real)
    requires e.price > 0.0 && 0.0 <= slipRoll < 1.0 && Opens(e, strength, errorRoll)
    ensures EntryPrice(e.price, side, slipRoll) > 0.0
    ensures var lot := NewLot(e, side, strength, slipRoll);
            var gross, loss, gain := GrossPnl(lot, price), Times(e.adaptive.StopLossPct(), lot.Notional()),
                                     Times(e.adaptive.TakeProfitPct(), lot.Notional());
            ExitReason(lot, price)
            == (if gross <= -loss then Some(StopLoss) else if gross >= gain then Some(TakeProfit) else None)
  {
    hide Times, Over, Notional;
    EntryPricePositive(e.price, side, slipRoll);
    OpenedLot(e, side, strength, errorRoll, slipRoll);
    var lot := NewLot(e, side, strength, slipRoll);
    var sl, tp := e.adaptive.StopLossPct(), e.adaptive.TakeProfitPct();
    LevelByReturn(price, lot.avgPrice, sl, lot.qty);
    LevelByReturn(price, lot.avgPrice, -sl, lot.qty);
    LevelByReturn(price, lot.avgPrice, tp, lot.qty);
    LevelByReturn(price, lot.avgPrice, -tp, lot.qty);
    TimesNegate(sl, lot.Notional());
    TimesNegate(tp, lot.Notional());
    TimesNegate(price - lot.avgPrice, lot.qty);
  }

  lemma LevelByReturn(price: real, entry: real, shift: real, qty: real)
    requires qty > 0.0
    ensures price <= Times(entry, 1.0 + shift) <==> Times(price - entry, qty) <= Times(shift, Times(entry, qty))
    ensures price >= Times(entry, 1.0 + shift) <==> Times(price - entry, qty) >= Times(shift, Times(entry, qty))
  {
    var moved, allowed := price - entry, Times(entry, shift);
    assert Times(shift, Times(entry, qty)) == Times(allowed, qty);
    hide Times;
    TimesSplit(entry, 1.0, shift);
    TimesUnits(entry);
    if moved <= allowed { TimesOrder(moved, allowed, qty); }
    if moved >= allowed { TimesOrder(allowed, moved, qty); }
    if Times(moved, qty) <= Times(allowed, qty) { TimesCancel(moved, allowed, qty); }
    if Times(moved, qty) >= Times(allowed, qty) { TimesCancel(allowed, moved, qty); }
  }

  // ---- What a trade record tells ------------------------------------------------------------

  /**
   The record keeps a PnL made at the exit price next to a worse, slipped price. Gross PnL at the
   recorded price is lower by the slipped fraction of the exit value, on both sides; so the recorded
   net PnL is too high for it by exactly that much.
   */
  lemma RecordOverstatesPnl(cfg: Config, e: Engine, lot: Lot, reason: Reason, exitPrice: real, roll: real)
    ensures var t := Trade(cfg, e, lot, reason, exitPrice, roll);
            var shift := Times(Times(exitPrice, Slippage(roll)), lot.qty);
            && t.pnl + t.commission + lot.Commission() == GrossPnl(lot, exitPrice)
            && GrossPnl(lot, t.exitPrice) == GrossPnl(lot, exitPrice) - shift
            && t.pnl == GrossPnl(lot, t.exitPrice) - t.commission - lot.Commission() + shift
            && (exitPrice > 0.0 && lot.qty > 0.0 && 0.0 <= roll < 1.0 ==> shift > 0.0)
  {
    hide Times, Over, Slippage, PerformanceFee, ExitFee, Lot.Commission, Lot.Notional;
    var slip := Slippage(roll);
    var moved := Times(exitPrice, slip);
    TimesSplit(exitPrice, 1.0, slip);
    TimesSplit(exitPrice, 1.0, -slip);
    TimesUnits(exitPrice);
    TimesNegate(exitPrice, slip);
    if lot.side == Buy {
      TimesMinusLeft(exitPrice - lot.avgPrice, moved, lot.qty);
    } else {
      TimesMinusLeft(lot.avgPrice - exitPrice, moved, lot.qty);
    }
    if exitPrice > 0.0 && lot.qty > 0.0 && 0.0 <= roll < 1.0 {
      EntryPricePositive(exitPrice, Buy, roll);
      TimesSign(exitPrice, slip);
      TimesSign(moved, lot.qty);
    }
  }

  // ---- Bounded histories --------------------------------------------------------------------

  /** Bounded memory; the totals of wins and losses never fall below the number of trades kept. */
  ghost predicate HistoriesBounded(cfg: Config, e: Engine) {
    && |e.history| <= PRICE_HISTORY_LIMIT
    && (cfg.maxTrades > 0 ==> |e.trades| <= cfg.maxTrades)
    && |e.trades| <= e.adaptive.totalWins + e.adaptive.totalLosses
  }

  lemma CloseKeepsHistories(cfg: Config, e: Engine, reason: Reason, exitPrice: real, roll: real)
    requires HistoriesBounded(cfg, e) && e.managed != []
    ensures HistoriesBounded(cfg, Close(cfg, e, reason, exitPrice, roll))
  {
    hide Times, Over, Trade, NetPnl, GrossPnl, ExitFee, PerformanceFee, Equity, Drawdown, Without;
  }

  lemma PassKeepsHistories(cfg: Config, e: Engine, d: Draws)
    requires HistoriesBounded(cfg, e) && e.price > 0.0 && PossibleDraws(d)
    ensures HistoriesBounded(cfg, RunPass(cfg, e, d))
  {
    hide Close, Times, Over, Notional, Opens, NewLot;
    var priced := e.(history := RecordPrice(e.history, e.price));
    var exited := CheckExit(cfg, priced, d.exitRoll);
    if FirstTriggered(e.managed, e.price).Some? {
      CloseKeepsHistories(cfg, priced, FirstTriggered(e.managed, e.price).value.1, e.price, d.exitRoll);
    }
    if exited.managed != [] {
      CloseKeepsHistories(cfg, exited, DynamicExit, exited.price, d.dynamicRoll);
    }
  }

  lemma {:induction false} HistoriesStayBounded(cfg: Config, basePrice: real, inputs: seq<Input>)
    requires basePrice > 0.0 && PossibleRun(inputs)
    ensures HistoriesBounded(cfg, Run(cfg, basePrice, inputs))
  {
    hide RunPass, Times;
    if inputs != [] {
      var n := |inputs| - 1;
      HistoriesStayBounded(cfg, basePrice, inputs[..n]);
      if inputs[n].Pass? {
        PassKeepsHistories(cfg, Run(cfg, basePrice, inputs[..n]), inputs[n].draws);
      }
    }
  }

  // ---- Fresh lots ---------------------------------------------------------------------------

  /**
   Entry slippage is below 0.2 %, so a lot opened with a stop of at least 1 % and a positive
   target is never closed by the price it was opened at.
   */
  lemma FreshLotIsNotTriggered(e: Engine, side: Side, strength: real, errorRoll: real, slipRoll: real)
    requires e.price > 0.0 && 0.0 <= slipRoll < 1.0 && Opens(e, strength, errorRoll)
    requires e.adaptive.StopLossPct() >= MIN_STOP_LOSS_PCT && e.adaptive.TakeProfitPct() > 0.0
    ensures EntryPrice(e.price, side, slipRoll) > 0.0
    ensures ExitReason(NewLot(e, side, strength, slipRoll), e.price).None?
  {
    hide Over;
    EntryPricePositive(e.price, side, slipRoll);
    var slip, sl, tp := Slippage(slipRoll), e.adaptive.StopLossPct(), e.adaptive.TakeProfitPct();
    var entry := EntryPrice(e.price, side, slipRoll);
    if side == Buy {
      LevelsAround(e.price, entry, 1.0 + slip, 1.0 - sl, 1.0 + tp);
    } else {
      LevelsAround(e.price, entry, 1.0 - slip, 1.0 - tp, 1.0 + sl);
    }
  }

  lemma LevelsAround(price: real, entry: real, slip: real, low: real, high: real)
    requires price > 0.0 && entry == Times(price, slip)
    requires slip > 0.0 && (slip >= 1.0 ==> slip <= 1.002 && low <= 0.99 && high > 1.0)
    requires slip < 1.0 ==> slip >= 0.998 && low < 1.0 && high >= 1.01
    ensures Times(entry, low) < price < Times(entry, high)
  {
    var a, b := slip * low, slip * high;
    assert Times(entry, low) == price * a && Times(entry, high) == price * b;
    if slip >= 1.0 {
      assert a < 1.0 by {
        TimesOrder(low, 0.99, slip);
      }
      assert b > 1.0 by {
        ScaledAbove(slip, high);
      }
    } else {
      assert a < 1.0 by {
        if low > 0.0 { TimesOrder(slip, 1.0, low); } else { TimesSign(-low, slip); }
      }
      assert b > 1.0 by {
        TimesOrder(0.998, slip, high);
      }
    }
    TimesSign(price, 1.0 - a);
    TimesSign(price, b - 1.0);
    TimesMinus(price, 1.0, a);
    TimesMinus(price, b, 1.0);
  }

  lemma ScaledAbove(slip: real, high: real)
    requires slip >= 1.0 && high > 1.0
    ensures slip * high > 1.0
  {
    TimesOrder(1.0, slip, high);
  }
}
