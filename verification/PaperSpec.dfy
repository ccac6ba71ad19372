/**
 The managed paper-trading loop as a state machine (qtrader/execution/paper_engine.py,
 qtrader/execution/paper_mixins.py). `Engine` is the value of the engine's fields; each function
 below is one operation on it. Random draws, quotes and trading signals are inputs.

 Every managed operation trades BTC-USD, and a dictionary entry is deleted as soon as its list of
 lots is empty, so each position dictionary is one sequence of lots here: the key is present
 exactly when the sequence is non-empty.
 */
module PaperSpec {
  import opened Base
  import opened Products
  import opened PaperModels

  const TAKER_FEE := 0.0060
  const ERROR_PROBABILITY := 0.01
  const SLIPPAGE_VOL_MULT := 0.5
  const VOLATILITY := 0.002
  const REVERSAL_THRESHOLD := 0.35
  const MIN_TRADE_NOTIONAL := 10.0
  const PRICE_HISTORY_LIMIT := 5000
  const PRICE_HISTORY_PRUNE := 2000
  const MIN_HISTORY_FOR_ANALYSIS := 20

  datatype Config = Config(startingCapital: real, performanceFee: real, maxConcurrent: int, maxTrades: nat,
                           stopLossPct: real, takeProfitPct: real)

  datatype Engine = Engine(cash: real, open: seq<Lot>, managed: seq<Lot>, adaptive: Adaptive,
                           totalCommissions: real, totalGrossPnl: real, peakEquity: real, maxDrawdown: real,
                           price: real, basePrice: real, history: seq<real>, trades: seq<TradeRecord>,
                           running: bool, nextId: nat)

  datatype Signal = Signal(action: Side, strength: real)

  // ---- Valuation ----------------------------------------------------------------------------

  /** What `equity` adds for one lot. */
  function LotValue(lot: Lot, price: real): real {
    if lot.qty > 0.0 then Times(lot.qty, price)
    else if lot.qty < 0.0 then Times(-lot.qty, lot.avgPrice) + Times(lot.avgPrice - price, -lot.qty)
    else 0.0
  }

  ghost function MarketValue(lots: seq<Lot>, price: real): real {
    if lots == [] then 0.0 else LotValue(lots[0], price) + MarketValue(lots[1..], price)
  }

  /** Sum of `|qty| * avg_price` over the lots. */
  ghost function EntryValue(lots: seq<Lot>): real {
    if lots == [] then 0.0 else Times(Abs(lots[0].qty), lots[0].avgPrice) + EntryValue(lots[1..])
  }

  ghost function EntryFees(lots: seq<Lot>): real {
    if lots == [] then 0.0 else lots[0].Commission() + EntryFees(lots[1..])
  }

  ghost function Equity(e: Engine): real {
    e.cash + MarketValue(e.open, e.price)
  }

  /** Total PnL at the current price less the unrealized part, as the property computes it. */
  ghost function RealizedPnl(cfg: Config, e: Engine): real {
    (Equity(e) - cfg.startingCapital) - (MarketValue(e.open, e.price) - EntryValue(e.open))
  }

  // ---- Opening ------------------------------------------------------------------------------

  function Slippage(roll: real): real {
    VOLATILITY * SLIPPAGE_VOL_MULT * (1.0 + roll)
  }

  function EntryPrice(price: real, side: Side, roll: real): real {
    Times(price, 1.0 + (if side == Buy then Slippage(roll) else -Slippage(roll)))
  }

  function Notional(e: Engine, strength: real): real {
    Times(e.cash, Times(e.adaptive.PositionSizePct(), strength))
  }

  predicate Opens(e: Engine, strength: real, errorRoll: real) {
    Notional(e, strength) >= MIN_TRADE_NOTIONAL && errorRoll >= ERROR_PROBABILITY
  }

  function NewLot(e: Engine, side: Side, strength: real, slipRoll: real): Lot
    requires EntryPrice(e.price, side, slipRoll) > 0.0 && Notional(e, strength) > 0.0
  {
    var notional := Notional(e, strength);
    var price := EntryPrice(e.price, side, slipRoll);
    var qty := Over(notional, price);
    OverSign(notional, price);
    var sl, tp := e.adaptive.StopLossPct(), e.adaptive.TakeProfitPct();
    Lot(e.nextId, side, qty, price, Over(notional * TAKER_FEE, qty),
        Times(price, 1.0 + (if side == Buy then -sl else sl)),
        Times(price, 1.0 + (if side == Buy then tp else -tp)))
  }

  lemma EntryPricePositive(price: real, side: Side, roll: real)
    requires price > 0.0 && 0.0 <= roll < 1.0
    ensures EntryPrice(price, side, roll) > 0.0
    ensures 0.001 <= Slippage(roll) < 0.002
  {
    TimesSign(price, 1.0 + (if side == Buy then Slippage(roll) else -Slippage(roll)));
  }

  function Open(e: Engine, side: Side, strength: real, errorRoll: real, slipRoll: real): Engine
    requires e.price > 0.0 && 0.0 <= slipRoll < 1.0
  {
    if !Opens(e, strength, errorRoll) then e
    else
      var notional := Notional(e, strength);
      EntryPricePositive(e.price, side, slipRoll);
      var lot := NewLot(e, side, strength, slipRoll);
      var fee := notional * TAKER_FEE;
      e.(cash := e.cash - (notional + fee), totalCommissions := e.totalCommissions + fee,
         open := e.open + [lot], managed := e.managed + [lot], nextId := e.nextId + 1)
  }

  // ---- Closing ------------------------------------------------------------------------------

  function GrossPnl(lot: Lot, exitPrice: real): real {
    if lot.side == Buy then Times(exitPrice - lot.avgPrice, lot.qty) else Times(lot.avgPrice - exitPrice, lot.qty)
  }

  function ExitFee(lot: Lot, exitPrice: real): real {
    Times(exitPrice, lot.qty) * TAKER_FEE
  }

  /** Cash after the close if no performance fee were due. */
  function CashBeforePerformanceFee(e: Engine, lot: Lot, exitPrice: real): real {
    e.cash + (lot.Notional() + GrossPnl(lot, exitPrice)) - ExitFee(lot, exitPrice)
  }

  /** Charged on a winning trade that lifts equity above the high-water mark. */
  function PerformanceFee(cfg: Config, e: Engine, lot: Lot, exitPrice: real): real {
    var gross, before := GrossPnl(lot, exitPrice), CashBeforePerformanceFee(e, lot, exitPrice);
    if gross > 0.0 && before > e.peakEquity then
      Min(Times(gross, cfg.performanceFee), Times(before - e.peakEquity, cfg.performanceFee))
    else 0.0
  }

  function NetPnl(cfg: Config, e: Engine, lot: Lot, exitPrice: real): real {
    GrossPnl(lot, exitPrice)
      - (lot.Commission() + ExitFee(lot, exitPrice) + PerformanceFee(cfg, e, lot, exitPrice))
  }

  /** `[l for l in lots if l.position_id != id]` */
  function Without(lots: seq<Lot>, id: nat): seq<Lot> {
    if lots == [] then []
    else (if lots[0].id != id then [lots[0]] else []) + Without(lots[1..], id)
  }

  function AdjustedExit(lot: Lot, exitPrice: real, roll: real): real {
    Times(exitPrice, 1.0 + (if lot.side == Buy then -Slippage(roll) else Slippage(roll)))
  }

  function Trade(cfg: Config, e: Engine, lot: Lot, reason: Reason, exitPrice: real, roll: real): TradeRecord {
    var adjusted := AdjustedExit(lot, exitPrice, roll);
    var net := NetPnl(cfg, e, lot, exitPrice);
    TradeRecord(lot.side, lot.avgPrice, adjusted, lot.qty, net,
                if lot.avgPrice > 0.0 && lot.Notional() != 0.0 then Over(net, lot.Notional()) else 0.0,
                if exitPrice > 0.0 then Over(Abs(adjusted - exitPrice), exitPrice) * 10000.0 else 0.0,
                reason, lot.stopLoss, lot.takeProfit,
                ExitFee(lot, exitPrice) + PerformanceFee(cfg, e, lot, exitPrice))
  }

  /** `trades[-max // 2:]` once the list is longer than `max`; with `max == 0` the slice keeps everything. */
  function Truncate(trades: seq<TradeRecord>, max: nat): seq<TradeRecord> {
    if |trades| > max && max > 0 then LastN(trades, (max + 1) / 2) else trades
  }

  function Drawdown(peak: real, equity: real): real {
    if peak > 0.0 then Over(peak - equity, peak) else 0.0
  }

  /** The ledgers, the lists and the streaks after the oldest managed lot is closed. */
  function Settled(cfg: Config, e: Engine, reason: Reason, exitPrice: real, roll: real): Engine
    requires e.managed != []
  {
    var lot := e.managed[0];
    var gross := GrossPnl(lot, exitPrice);
    var exitFee, perfFee := ExitFee(lot, exitPrice), PerformanceFee(cfg, e, lot, exitPrice);
    e.(cash := e.cash + (lot.Notional() + gross) - exitFee - perfFee,
       totalCommissions := e.totalCommissions + (exitFee + perfFee),
       totalGrossPnl := e.totalGrossPnl + gross,
       managed := e.managed[1..], open := Without(e.open, lot.id),
       adaptive := e.adaptive.Record(NetPnl(cfg, e, lot, exitPrice)),
       trades := Truncate(e.trades + [Trade(cfg, e, lot, reason, exitPrice, roll)], cfg.maxTrades))
  }

  /** Raises the high-water mark and the maximum drawdown to the present equity. */
  ghost function Marked(e: Engine): Engine {
    var peak := Max(e.peakEquity, Equity(e));
    e.(peakEquity := peak, maxDrawdown := Max(e.maxDrawdown, Drawdown(peak, Equity(e))))
  }

  /** `_close_managed_position` */
  ghost function Close(cfg: Config, e: Engine, reason: Reason, exitPrice: real, roll: real): Engine
    requires e.managed != []
  {
    Marked(Settled(cfg, e, reason, exitPrice, roll))
  }

  // ---- Exit rules ---------------------------------------------------------------------------

  function ExitReason(lot: Lot, price: real): Option<Reason> {
    if lot.side == Buy then
      if price <= lot.stopLoss then Some(StopLoss)
      else if price >= lot.takeProfit then Some(TakeProfit)
      else None
    else if price >= lot.stopLoss then Some(StopLoss)
    else if price <= lot.takeProfit then Some(TakeProfit)
    else None
  }

  predicate Reverses(lot: Lot, signal: Signal) {
    lot.side != signal.action && signal.strength >= REVERSAL_THRESHOLD
  }

  /** The lot whose stop or target fires first in list order. */
  function FirstTriggered(lots: seq<Lot>, price: real): (r: Option<(nat, Reason)>)
    ensures r.Some? ==> r.value.0 < |lots| && ExitReason(lots[r.value.0], price) == Some(r.value.1)
    ensures r.None? <==> forall i :: 0 <= i < |lots| ==> ExitReason(lots[i], price).None?
  {
    if lots == [] then None
    else
      match ExitReason(lots[0], price)
      case Some(reason) => Some((0, reason))
      case None =>
        match FirstTriggered(lots[1..], price)
        case None => None
        case Some((i, reason)) => Some((i + 1, reason))
  }

  ghost function CheckExit(cfg: Config, e: Engine, roll: real): Engine {
    match FirstTriggered(e.managed, e.price)
    case None => e
    case Some((_, reason)) => Close(cfg, e, reason, e.price, roll)
  }

  ghost function CheckDynamicExit(cfg: Config, e: Engine, signal: Option<Signal>, roll: real): Engine {
    if signal.Some? && exists i :: 0 <= i < |e.managed| && Reverses(e.managed[i], signal.value) then
      Close(cfg, e, DynamicExit, e.price, roll)
    else e
  }

  // ---- One pass of the loop, and the calls made between passes ------------------------------

  /** How far a pass gets: an error in recording or reporting abandons it, and the loop goes on. */
  datatype Stage = AfterExit | AfterDynamicExit | Complete

  /** What one pass draws or meets from outside. */
  datatype Draws = Draws(signal: Option<Signal>, errorRoll: real, slipRoll: real, exitRoll: real, dynamicRoll: real,
                         reached: Stage)

  datatype Input =
    | Start
    | Stop
    | Pass(draws: Draws)
    | MarketEvent(symbol: string, last: real, bid: real, ask: real)
    | BasePrice(newPrice: real, force: bool)
    | Reset

  function RecordPrice(history: seq<real>, price: real): seq<real> {
    var longer := history + [price];
    if |longer| > PRICE_HISTORY_LIMIT then LastN(longer, PRICE_HISTORY_PRUNE) else longer
  }

  /** Whether the pass goes on to an entry. The dictionary has one key at most, hence 0 or 1. */
  predicate WantsEntry(cfg: Config, managed: seq<Lot>, signal: Option<Signal>) {
    && (if managed == [] then 0 else 1) < cfg.maxConcurrent
    && signal.Some?
    && (managed == [] || exists i :: 0 <= i < |managed| && managed[i].side != signal.value.action)
  }

  ghost function RunPass(cfg: Config, e: Engine, d: Draws): (after: Engine)
    requires e.price > 0.0 && 0.0 <= d.slipRoll < 1.0
    ensures after.price == e.price && after.running == e.running
  {
    var exited := CheckExit(cfg, e.(history := RecordPrice(e.history, e.price)), d.exitRoll);
    if |exited.history| < MIN_HISTORY_FOR_ANALYSIS || d.reached == AfterExit then exited
    else
      var settled := if exited.managed != [] then CheckDynamicExit(cfg, exited, d.signal, d.dynamicRoll) else exited;
      if d.reached == Complete && WantsEntry(cfg, settled.managed, d.signal)
      then Open(settled, d.signal.value.action, d.signal.value.strength, d.errorRoll, d.slipRoll)
      else settled
  }

  function QuotedPrice(last: real, bid: real, ask: real): real {
    if last <= 0.0 && bid > 0.0 && ask > 0.0 then (bid + ask) / 2.0 else last
  }

  const PAIR := "BTC-USD"

  /** `"BTC-USD" in symbol` */
  predicate Concerns(symbol: string) {
    PAIR <= symbol || (symbol != "" && Concerns(symbol[1..]))
  }

  function OnMarketEvent(e: Engine, symbol: string, last: real, bid: real, ask: real): Engine {
    var p := QuotedPrice(last, bid, ask);
    if Concerns(symbol) && p > 0.0 then e.(price := p, basePrice := p) else e
  }

  function OnBasePrice(e: Engine, newPrice: real, force: bool): Engine {
    if newPrice <= 0.0 then e
    else e.(basePrice := newPrice, price := if force || !e.running then newPrice else e.price)
  }

  function Initial(cfg: Config, basePrice: real): Engine {
    Engine(cfg.startingCapital, [], [], FreshAdaptive(cfg.stopLossPct, cfg.takeProfitPct), 0.0, 0.0,
           cfg.startingCapital, 0.0, basePrice, basePrice, [], [], false, 0)
  }

  /** `reset` restores the initial ledgers at the current base price; it does not stop the loop. */
  function OnReset(cfg: Config, e: Engine): Engine {
    Initial(cfg, e.basePrice).(running := e.running, nextId := e.nextId,
      adaptive := FreshAdaptive(e.adaptive.baseStopLoss, e.adaptive.baseTakeProfit))
  }

  /** Inputs the environment can produce: draws lie in [0, 1), signal strength in [0.5, 0.8). */
  ghost predicate PossibleDraws(d: Draws) {
    && 0.0 <= d.errorRoll < 1.0 && 0.0 <= d.slipRoll < 1.0
    && 0.0 <= d.exitRoll < 1.0 && 0.0 <= d.dynamicRoll < 1.0
    && (d.signal.Some? ==> 0.5 <= d.signal.value.strength < 0.8)
  }

  ghost predicate Possible(i: Input) {
    i.Pass? ==> PossibleDraws(i.draws)
  }

  ghost function Step(cfg: Config, e: Engine, i: Input): Engine
    requires e.price > 0.0 && Possible(i)
  {
    match i
    case Start => e.(running := true)
    case Stop => e.(running := false)
    case Pass(draws) => if e.running then RunPass(cfg, e, draws) else e
    case MarketEvent(symbol, last, bid, ask) => OnMarketEvent(e, symbol, last, bid, ask)
    case BasePrice(newPrice, force) => OnBasePrice(e, newPrice, force)
    case Reset => OnReset(cfg, e)
  }

  ghost predicate PossibleRun(inputs: seq<Input>) {
    forall k :: 0 <= k < |inputs| ==> Possible(inputs[k])
  }

  /** The engine after a whole run, from a positive base price. */
  ghost function Run(cfg: Config, basePrice: real, inputs: seq<Input>): (e: Engine)
    requires basePrice > 0.0 && PossibleRun(inputs)
    ensures e.price > 0.0 && e.basePrice > 0.0
  {
    if inputs == [] then Initial(cfg, basePrice)
    else
      var before := Run(cfg, basePrice, inputs[..|inputs| - 1]);
      Step(cfg, before, inputs[|inputs| - 1])
  }

  /** Passes alone: what the loop does while nothing else calls the engine. */
  ghost function Passes(cfg: Config, e: Engine, draws: seq<Draws>): (after: Engine)
    requires e.price > 0.0 && forall k :: 0 <= k < |draws| ==> PossibleDraws(draws[k])
    ensures after.price == e.price && after.running == e.running
  {
    if draws == [] then e
    else
      var last := draws[|draws| - 1];
      assert PossibleDraws(last);
      RunPass(cfg, Passes(cfg, e, draws[..|draws| - 1]), last)
  }
}
