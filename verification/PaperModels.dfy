/** Lots, trade records and the adaptive configuration (qtrader/execution/paper_models.py). */
module PaperModels {
  import opened Base
  import opened Products

  datatype Side = Buy | Sell

  datatype Reason = StopLoss | TakeProfit | DynamicExit

  /** An open lot. Sell lots keep a positive quantity, as the engine stores them. */
  datatype Lot = Lot(id: nat, side: Side, qty: real, avgPrice: real, commPerUnit: real,
                     stopLoss: real, takeProfit: real)
  {
    /** Entry commission of the whole lot. */
    function Commission(): real {
      Times(commPerUnit, qty)
    }

    function Notional(): real {
      Times(avgPrice, qty)
    }
  }

  datatype TradeRecord = TradeRecord(side: Side, entryPrice: real, exitPrice: real, qty: real, pnl: real,
                                     pnlPct: real, slippageBps: real, reason: Reason, stopLoss: real,
                                     takeProfit: real, commission: real)

  const BASE_POSITION_SIZE_PCT := 0.20
  const STREAK_ADJUST_STEP := 0.005
  const MAX_SL_ADJUSTMENT := 0.03
  const MAX_TP_ADJUSTMENT := 0.05
  const MIN_POSITION_PCT := 0.05
  const MAX_POSITION_PCT := 0.50
  const MIN_STOP_LOSS_PCT := 0.01
  const MIN_TAKE_PROFIT_PCT := 0.01
  const STREAK_LOSS_CRITICAL := 3
  const STREAK_WIN_STABLE := 2
  const STREAK_MAX_ADJUST_WINDOWS := 6
  const STREAK_WIN_REWARD := 3
  const STREAK_WIN_WINDOWS := 4

  /** `step * min(streak, windows)`. */
  function StreakAdjustment(streak: nat, windows: nat): real {
    STREAK_ADJUST_STEP * (if streak <= windows then streak else windows) as real
  }

  /** The value of an AdaptiveConfig object. */
  datatype Adaptive = Adaptive(baseStopLoss: real, baseTakeProfit: real, winStreak: nat, lossStreak: nat,
                               totalWins: nat, totalLosses: nat, totalPnl: real)
  {
    function StopLossPct(): real {
      if lossStreak >= STREAK_LOSS_CRITICAL then
        Min(baseStopLoss + StreakAdjustment(lossStreak, STREAK_MAX_ADJUST_WINDOWS), baseStopLoss + MAX_SL_ADJUSTMENT)
      else if winStreak >= STREAK_WIN_STABLE then
        Max(baseStopLoss - StreakAdjustment(winStreak, STREAK_WIN_WINDOWS), MIN_STOP_LOSS_PCT)
      else baseStopLoss
    }

    function TakeProfitPct(): real {
      if lossStreak >= STREAK_LOSS_CRITICAL then
        Max(baseTakeProfit - StreakAdjustment(lossStreak, STREAK_MAX_ADJUST_WINDOWS),
            baseTakeProfit - MAX_TP_ADJUSTMENT)
      else if winStreak >= STREAK_WIN_STABLE then
        Min(baseTakeProfit + StreakAdjustment(winStreak, STREAK_WIN_WINDOWS), baseTakeProfit + MAX_TP_ADJUSTMENT)
      else Max(baseTakeProfit, MIN_TAKE_PROFIT_PCT)
    }

    function PositionSizePct(): real {
      if lossStreak >= STREAK_WIN_STABLE then
        Max(BASE_POSITION_SIZE_PCT - StreakAdjustment(lossStreak, STREAK_MAX_ADJUST_WINDOWS), MIN_POSITION_PCT)
      else if winStreak >= STREAK_WIN_REWARD then
        Min(BASE_POSITION_SIZE_PCT + StreakAdjustment(winStreak, STREAK_WIN_WINDOWS), MAX_POSITION_PCT)
      else BASE_POSITION_SIZE_PCT
    }

    function Win(pnl: real): Adaptive {
      this.(winStreak := winStreak + 1, lossStreak := 0, totalWins := totalWins + 1, totalPnl := totalPnl + pnl)
    }

    function Loss(pnl: real): Adaptive {
      this.(winStreak := 0, lossStreak := lossStreak + 1, totalLosses := totalLosses + 1, totalPnl := totalPnl + pnl)
    }

    /** The outcome of one closed trade: a win exactly when its net PnL is positive. */
    function Record(netPnl: real): Adaptive {
      if netPnl > 0.0 then Win(netPnl) else Loss(netPnl)
    }

    function WinRate(): real {
      var total := totalWins + totalLosses;
      if total > 0 then totalWins as real / total as real else 0.0
    }

    function ExpectedValue(): real {
      var wr := WinRate();
      if wr == 0.0 || wr == 1.0 || totalLosses == 0 then 0.0
      else
        var avgWin := if totalWins > 0 then totalPnl / totalWins as real else 0.0;
        var lossPnl := totalPnl - avgWin * totalWins as real;
        var avgLoss := Abs(lossPnl) / totalLosses as real;
        wr * avgWin - (1.0 - wr) * avgLoss
    }

    /** Reachable values: never both streaks at once, and no streak longer than its total. */
    ghost predicate Coherent() {
      && (winStreak == 0 || lossStreak == 0)
      && winStreak <= totalWins && lossStreak <= totalLosses
    }
  }

  function FreshAdaptive(baseStopLoss: real, baseTakeProfit: real): Adaptive {
    Adaptive(baseStopLoss, baseTakeProfit, 0, 0, 0, 0, 0.0)
  }

  /** A lot is sized between 17 % and 22 % of cash, whatever the streaks. */
  lemma PositionSizeRange(a: Adaptive)
    ensures 0.17 <= a.PositionSizePct() <= 0.22
  {
    var w, l := StreakAdjustment(a.winStreak, 4), StreakAdjustment(a.lossStreak, 6);
    assert 0.0 <= w <= 0.02 && 0.0 <= l <= 0.03;
  }

  function AtMost(streak: nat, windows: nat): nat {
    if streak <= windows then streak else windows
  }

  /**
   The sizes, streak by streak: half a per cent of cash less for each loss from the second to the
   sixth, more for each win from the third to the fourth. The configured floor and ceiling never bind.
   */
  lemma PositionSizeExactly(a: Adaptive)
    requires a.Coherent()
    ensures 200.0 * a.PositionSizePct()
         == 40.0 - (if a.lossStreak >= 2 then AtMost(a.lossStreak, 6) as real else 0.0)
                 + (if a.winStreak >= 3 then AtMost(a.winStreak, 4) as real else 0.0)
  {
  }

  /** The stop, streak by streak: wider by half a per cent a loss from the third on, tighter by as much a win. */
  lemma StopLossExactly(a: Adaptive)
    requires a.Coherent()
    ensures a.lossStreak >= 3 ==> 200.0 * (a.StopLossPct() - a.baseStopLoss) == AtMost(a.lossStreak, 6) as real
    ensures a.winStreak >= 2 ==>
              a.StopLossPct() >= 0.01 && 200.0 * (a.baseStopLoss - a.StopLossPct()) <= AtMost(a.winStreak, 4) as real
    ensures a.winStreak >= 2 && a.StopLossPct() > 0.01 ==>
              200.0 * (a.baseStopLoss - a.StopLossPct()) == AtMost(a.winStreak, 4) as real
    ensures a.lossStreak < 3 && a.winStreak < 2 ==> a.StopLossPct() == a.baseStopLoss
  {
  }

  /** The target, streak by streak, moves the other way; its announced bounds never bind in a streak. */
  lemma TakeProfitExactly(a: Adaptive)
    requires a.Coherent()
    ensures a.lossStreak >= 3 ==> 200.0 * (a.baseTakeProfit - a.TakeProfitPct()) == AtMost(a.lossStreak, 6) as real
    ensures a.winStreak >= 2 ==> 200.0 * (a.TakeProfitPct() - a.baseTakeProfit) == AtMost(a.winStreak, 4) as real
    ensures a.lossStreak < 3 && a.winStreak < 2 ==> a.TakeProfitPct() == Max(a.baseTakeProfit, 0.01)
  {
  }

  /** The win rate times the number of trades is the number of wins; before the first trade it is 0. */
  lemma WinRateCounts(a: Adaptive)
    ensures a.WinRate() * (a.totalWins + a.totalLosses) as real == a.totalWins as real
    ensures a.totalWins == 0 ==> a.WinRate() == 0.0
    ensures a.totalWins == 0 || a.totalLosses == 0 ==> a.ExpectedValue() == 0.0
  {
  }

  /** The stop never gets tighter than the lesser of its base and 1 %, nor wider than base + 3 %. */
  lemma StopLossRange(a: Adaptive)
    ensures Min(a.baseStopLoss, MIN_STOP_LOSS_PCT) <= a.StopLossPct()
    ensures a.StopLossPct() <= Max(a.baseStopLoss + MAX_SL_ADJUSTMENT, MIN_STOP_LOSS_PCT)
  {
    var w, l := StreakAdjustment(a.winStreak, 4), StreakAdjustment(a.lossStreak, 6);
    assert 0.0 <= w <= 0.02 && 0.0 <= l <= 0.03;
  }

  /**
   The take-profit floor that the source announces, with its exact condition: it holds unless a
   streak branch is taken whose adjusted base is below the floor.
   */
  lemma TakeProfitFloorExactly(a: Adaptive)
    ensures a.TakeProfitPct() >= MIN_TAKE_PROFIT_PCT
       <==> if a.lossStreak >= STREAK_LOSS_CRITICAL then
              a.baseTakeProfit >= MIN_TAKE_PROFIT_PCT + StreakAdjustment(a.lossStreak, STREAK_MAX_ADJUST_WINDOWS)
            else
              a.winStreak >= STREAK_WIN_STABLE ==>
                a.baseTakeProfit >= MIN_TAKE_PROFIT_PCT - StreakAdjustment(a.winStreak, STREAK_WIN_WINDOWS)
  {
    var w, l := StreakAdjustment(a.winStreak, 4), StreakAdjustment(a.lossStreak, 6);
    assert 0.0 <= w <= 0.02 && 0.0 <= l <= 0.03;
  }

  /** The default 3 % target falls through the 1 % floor after five straight losses. */
  lemma TakeProfitFloorFails()
    ensures var a := Adaptive(0.02, 0.03, 0, 5, 0, 5, -50.0);
            a.Coherent() && a.TakeProfitPct() < MIN_TAKE_PROFIT_PCT
  {
    assert StreakAdjustment(5, 6) == 0.025;
  }

  /**
   The engine keeps one running total instead of separate win and loss totals, so the average
   loss it derives is always 0; the expected value it reports is nevertheless the mean PnL of a
   trade, once there have been both wins and losses.
   */
  lemma ExpectedValueIsMeanPnl(a: Adaptive)
    requires a.totalWins > 0 && a.totalLosses > 0
    ensures a.ExpectedValue() * (a.totalWins + a.totalLosses) as real == a.totalPnl
  {
    var w, n := a.totalWins as real, (a.totalWins + a.totalLosses) as real;
    var avgWin := a.totalPnl / w;
    assert avgWin * w == a.totalPnl;
    assert a.WinRate() == w / n;
    assert 0.0 < w / n < 1.0 by {
      assert w < n;
    }
    assert a.ExpectedValue() == (w / n) * avgWin;
    MeanStep(w, n, avgWin);
  }

  lemma MeanStep(w: real, n: real, avg: real)
    requires n > 0.0
    ensures (w / n) * avg * n == avg * w
  {
    var q := w / n;
    assert q * n == w;
  }

  /** The mutable object (paper_models.py:49-140). */
  class AdaptiveConfig {
    const baseStopLoss: real
    const baseTakeProfit: real
    var winStreak: nat
    var lossStreak: nat
    var totalWins: nat
    var totalLosses: nat
    var totalPnl: real

    function Value(): Adaptive
      reads this
    {
      Adaptive(baseStopLoss, baseTakeProfit, winStreak, lossStreak, totalWins, totalLosses, totalPnl)
    }

    constructor (baseStopLoss: real, baseTakeProfit: real)
      ensures Value() == FreshAdaptive(baseStopLoss, baseTakeProfit)
    {
      this.baseStopLoss, this.baseTakeProfit := baseStopLoss, baseTakeProfit;
      winStreak, lossStreak, totalWins, totalLosses, totalPnl := 0, 0, 0, 0, 0.0;
    }

    method RecordWin(pnl: real)
      modifies this
      ensures Value() == old(Value()).Win(pnl)
      ensures old(Value().Coherent()) ==> Value().Coherent() && lossStreak == 0 && winStreak > 0
    {
      winStreak := winStreak + 1;
      lossStreak := 0;
      totalWins := totalWins + 1;
      totalPnl := totalPnl + pnl;
    }

    method RecordLoss(pnl: real)
      modifies this
      ensures Value() == old(Value()).Loss(pnl)
      ensures old(Value().Coherent()) ==> Value().Coherent() && winStreak == 0 && lossStreak > 0
    {
      lossStreak := lossStreak + 1;
      winStreak := 0;
      totalLosses := totalLosses + 1;
      totalPnl := totalPnl + pnl;
    }
  }
}
