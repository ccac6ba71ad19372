/**
 The pre-trade gate (qtrader/execution/pre_trade_risk.py). Order submissions are remembered in a
 deque of at most 10000 timestamps; the two rate checks count those within the last 1 s and 60 s.
 */
module PreTradeRisk {
  import opened Base
  import opened Products

  const TIMESTAMP_CAPACITY: nat := 10000
  const SECOND := 1.0
  const MINUTE := 60.0

  // ---- Sliding windows ----------------------------------------------------------------------

  /** `sum(1 for t in times if now - t < width)` */
  ghost function Recent(times: seq<real>, now: real, width: real): nat {
    if times == [] then 0
    else Recent(times[1..], now, width) + (if now - times[0] < width then 1 else 0)
  }

  ghost predicate Ordered(times: seq<real>) {
    forall i, j :: 0 <= i < j < |times| ==> times[i] <= times[j]
  }

  predicate Exceeds(count: nat, limit: real) {
    count as real > limit
  }

  /** The indices of the timestamps less than `width` before `now`. */
  ghost function RecentIndices(times: seq<real>, now: real, width: real): set<nat> {
    set i: nat | i < |times| && times[i] > now - width
  }

  /** The count of a window is the number of submissions in it, its far end excluded. */
  lemma {:induction false} RecentIsCardinality(times: seq<real>, now: real, width: real)
    ensures Recent(times, now, width) == |RecentIndices(times, now, width)|
  {
    if times == [] {
      assert RecentIndices(times, now, width) == {};
    } else {
      var n := |times| - 1;
      RecentIsCardinality(times[..n], now, width);
      RecentSplit(times[..n], [times[n]], now, width);
      assert times[..n] + [times[n]] == times && [times[n]][1..] == [];
      assert RecentIndices(times, now, width)
          == RecentIndices(times[..n], now, width) + (if times[n] > now - width then {n} else {});
    }
  }

  lemma {:induction false} RecentAll(times: seq<real>, now: real, width: real)
    requires forall i :: 0 <= i < |times| ==> now - times[i] < width
    ensures Recent(times, now, width) == |times|
  {
    if times != [] {
      RecentAll(times[1..], now, width);
    }
  }

  lemma {:induction false} RecentSplit(a: seq<real>, b: seq<real>, now: real, width: real)
    ensures Recent(a + b, now, width) == Recent(a, now, width) + Recent(b, now, width)
    ensures Recent(a, now, width) <= |a|
  {
    if a == [] {
      assert a + b == b;
    } else {
      RecentSplit(a[1..], b, now, width);
      assert (a + b)[1..] == a[1..] + b;
    }
  }

  lemma {:induction false} RecentNone(times: seq<real>, now: real, width: real)
    requires forall i :: 0 <= i < |times| ==> now - times[i] >= width
    ensures Recent(times, now, width) == 0
  {
    if times != [] {
      RecentNone(times[1..], now, width);
    }
  }

  /**
   With an ordered clock the recent submissions are the latest ones, so a buffer of the last `k`
   counts `min(full count, k)`.
   */
  lemma BufferCount(times: seq<real>, k: nat, now: real, width: real)
    requires Ordered(times)
    ensures var full := Recent(times, now, width);
            Recent(LastN(times, k), now, width) == (if full <= k then full else k)
  {
    if |times| > k {
      var gone, kept := times[..|times| - k], times[|times| - k..];
      assert times == gone + kept;
      RecentSplit(gone, kept, now, width);
      RecentSplit(kept, [], now, width);
      if kept == [] {
      } else if now - kept[0] < width {
        RecentAll(kept, now, width);
      } else {
        RecentNone(gone, now, width);
      }
    } else {
      RecentSplit(times, [], now, width);
    }
  }

  /** The bounded buffer decides as the full history does whenever the limit is below its capacity. */
  lemma BufferDecides(times: seq<real>, k: nat, now: real, width: real, limit: real)
    requires Ordered(times) && limit < k as real
    ensures Exceeds(Recent(LastN(times, k), now, width), limit) <==> Exceeds(Recent(times, now, width), limit)
  {
    BufferCount(times, k, now, width);
  }

  ghost predicate DecidesAlike(k: nat, width: real, limit: real) {
    forall times: seq<real>, now: real :: Ordered(times) ==>
      (Exceeds(Recent(LastN(times, k), now, width), limit) <==> Exceeds(Recent(times, now, width), limit))
  }

  /** Exactly then: with a limit at or above the capacity the buffer misses some excess. */
  lemma BufferRefinesHistoryExactly(k: nat, width: real, limit: real)
    requires width > 0.0
    ensures DecidesAlike(k, width, limit) <==> limit < k as real
  {
    if limit < k as real {
      forall times: seq<real>, now: real | Ordered(times)
        ensures Exceeds(Recent(LastN(times, k), now, width), limit) <==> Exceeds(Recent(times, now, width), limit)
      {
        BufferDecides(times, k, now, width, limit);
      }
    } else {
      var n := limit.Floor + 1;
      var burst := seq(n, _ => 0.0);
      RecentAll(burst, 0.0, width);
      BufferCount(burst, k, 0.0, width);
      assert !(Exceeds(Recent(LastN(burst, k), 0.0, width), limit) <==> Exceeds(Recent(burst, 0.0, width), limit));
    }
  }

  // ---- The gate -----------------------------------------------------------------------------

  datatype Config = Config(maxPriceDeviation: real, maxQuantity: real, maxNotional: real, maxPosition: real,
                           maxPerSecond: real, maxPerMinute: real, maxConcentration: real)

  datatype Side = Buy | Sell

  datatype Order = Order(symbol: string, side: Side, quantity: real, price: Option<real>)

  datatype Check =
    | KillSwitch | Quantity | Notional | PriceDeviation | Position | Concentration | RateSecond | RateMinute

  /** What the gate knows besides submissions: positions, mid prices, portfolio value, kill switch. */
  datatype Book = Book(positions: map<string, real>, mids: map<string, real>, portfolio: real, killSwitch: bool)

  datatype Verdict = Verdict(approved: bool, failed: seq<Check>)

  /** One submission that reached the rate checks. */
  datatype Stamp = Stamp(time: real, approved: bool)

  ghost function TimesOf(history: seq<Stamp>): (times: seq<real>)
    ensures |times| == |history| && forall i :: 0 <= i < |history| ==> times[i] == history[i].time
  {
    seq(|history|, i requires 0 <= i < |history| => history[i].time)
  }

  ghost function ApprovedWithin(history: seq<Stamp>, from: real, width: real): nat {
    if history == [] then 0
    else
      var last := history[|history| - 1];
      ApprovedWithin(history[..|history| - 1], from, width)
        + (if last.approved && from <= last.time < from + width then 1 else 0)
  }

  /** Each approval was within both limits, counted over everything submitted up to it. */
  ghost predicate ApprovalsWithinLimits(cfg: Config, history: seq<Stamp>) {
    forall i :: 0 <= i < |history| && history[i].approved ==>
      && !Exceeds(Recent(TimesOf(history[..i + 1]), history[i].time, SECOND), cfg.maxPerSecond)
      && !Exceeds(Recent(TimesOf(history[..i + 1]), history[i].time, MINUTE), cfg.maxPerMinute)
  }

  /** Approvals of a half-open interval are among the submissions its last approval looked back on. */
  lemma {:induction false} ApprovalsAreRecent(history: seq<Stamp>, from: real, width: real, now: real)
    requires Ordered(TimesOf(history))
    requires forall i :: 0 <= i < |history| ==> history[i].time <= now
    requires now < from + width
    ensures ApprovedWithin(history, from, width) <= Recent(TimesOf(history), now, width)
  {
    if history != [] {
      var shorter := history[..|history| - 1];
      ApprovalsAreRecent(shorter, from, width, now);
      assert TimesOf(history) == TimesOf(shorter) + [history[|history| - 1].time];
      RecentSplit(TimesOf(shorter), [history[|history| - 1].time], now, width);
    }
  }

  lemma {:induction false} ApprovedInInterval(history: seq<Stamp>, from: real, width: real, limit: real)
    requires Ordered(TimesOf(history))
    requires forall i :: 0 <= i < |history| && history[i].approved ==>
               !Exceeds(Recent(TimesOf(history[..i + 1]), history[i].time, width), limit)
    ensures ApprovedWithin(history, from, width) as real <= Max(limit, 0.0)
  {
    if history != [] {
      var last, shorter := history[|history| - 1], history[..|history| - 1];
      if last.approved && from <= last.time < from + width {
        ApprovalsAreRecent(history, from, width, last.time);
        assert history[..|history|] == history;
      } else {
        forall i | 0 <= i < |shorter| && shorter[i].approved
          ensures !Exceeds(Recent(TimesOf(shorter[..i + 1]), shorter[i].time, width), limit)
        {
          assert shorter[..i + 1] == history[..i + 1];
        }
        ApprovedInInterval(shorter, from, width, limit);
      }
    }
  }

  // ---- What each check means ----------------------------------------------------------------

  /** The order's price; a missing or zero price falls back to the mid price, then to zero. */
  function OrderPrice(order: Order, mids: map<string, real>): real {
    if order.price.Some? && order.price.value != 0.0 then order.price.value else Get(mids, order.symbol, 0.0)
  }

  function NewPosition(order: Order, positions: map<string, real>): real {
    Get(positions, order.symbol, 0.0) + (if order.side == Buy then order.quantity else -order.quantity)
  }

  /** The limit a check guards, as a fact about the order and the book it would lead to. */
  ghost predicate Respected(cfg: Config, c: Check, order: Order, book: Book, perSecond: nat, perMinute: nat) {
    match c
    case KillSwitch => !book.killSwitch
    case Quantity => order.quantity <= cfg.maxQuantity
    case Notional => Times(order.quantity, OrderPrice(order, book.mids)) <= cfg.maxNotional
    case PriceDeviation =>
      order.price.Some? && order.symbol in book.mids && book.mids[order.symbol] > 0.0 ==>
        Over(Abs(order.price.value - book.mids[order.symbol]), book.mids[order.symbol]) <= cfg.maxPriceDeviation
    case Position => Abs(NewPosition(order, book.positions)) <= cfg.maxPosition
    case Concentration =>
      book.portfolio > 0.0 ==>
        Over(Times(Abs(NewPosition(order, book.positions)), OrderPrice(order, book.mids)), book.portfolio)
          <= cfg.maxConcentration
    case RateSecond => !Exceeds(perSecond, cfg.maxPerSecond)
    case RateMinute => !Exceeds(perMinute, cfg.maxPerMinute)
  }

  /** The order's own price, or the mid price if it has none, as a number to multiply by. */
  predicate PricedAt(order: Order, book: Book, price: real) {
    match order.price
    case Some(p) => if p != 0.0 then price == p else price == Get(book.mids, order.symbol, 0.0)
    case None => price == Get(book.mids, order.symbol, 0.0)
  }

  /** The position held and the position a full fill would leave. */
  predicate Leads(order: Order, book: Book, after: real) {
    var held := if order.symbol in book.positions then book.positions[order.symbol] else 0.0;
    match order.side
    case Buy => after == held + order.quantity
    case Sell => after == held - order.quantity
  }

  /** `low <= x <= high`, symmetric around zero. */
  predicate WithinBand(x: real, bound: real) {
    -bound <= x <= bound
  }

  /**
   What an order that passes checks 2 to 6 is, without quotients: its quantity and value within the
   limits, its price within the allowed fraction of a positive mid price, the position it leads to
   within the band of its symbol, and that position's value within the share of a positive portfolio.
   */
  ghost predicate Sane(cfg: Config, order: Order, book: Book, price: real, after: real) {
    && order.quantity <= cfg.maxQuantity
    && Times(order.quantity, price) <= cfg.maxNotional
    && (order.price.Some? && order.symbol in book.mids && book.mids[order.symbol] > 0.0 ==>
          var mid := book.mids[order.symbol];
          WithinBand(order.price.value - mid, Times(mid, cfg.maxPriceDeviation)))
    && WithinBand(after, cfg.maxPosition)
    && (book.portfolio > 0.0 ==> Times(Abs(after), price) <= Times(book.portfolio, cfg.maxConcentration))
  }

  lemma QuotientWithin(x: real, y: real, bound: real)
    requires y > 0.0
    ensures Over(x, y) <= bound <==> x <= Times(y, bound)
  {
    hide Times, Over;
    TimesOver(x, y);
    TimesSwap(y, bound);
    if Over(x, y) <= bound { TimesOrder(Over(x, y), bound, y); }
    if x <= Times(y, bound) { TimesCancel(Over(x, y), bound, y); }
  }

  /** Checks 2 to 6 find nothing exactly when the order is sane, for the price and the position it has. */
  lemma SaneExactly(cfg: Config, order: Order, book: Book, price: real, after: real)
    requires PricedAt(order, book, price) && Leads(order, book, after)
    ensures FailedOf(ORDER_CHECKS, cfg, order, book, 0, 0) == [] <==> Sane(cfg, order, book, price, after)
  {
    hide Times, Over;
    FiveChecks(cfg, order, book);
    if order.symbol in book.mids && book.mids[order.symbol] > 0.0 && order.price.Some? {
      QuotientWithin(Abs(order.price.value - book.mids[order.symbol]), book.mids[order.symbol], cfg.maxPriceDeviation);
    }
    if book.portfolio > 0.0 {
      QuotientWithin(Times(Abs(after), price), book.portfolio, cfg.maxConcentration);
    }
  }

  ghost function FailedOf(checks: seq<Check>, cfg: Config, order: Order, book: Book, perSecond: nat, perMinute: nat)
    : seq<Check>
  {
    if checks == [] then []
    else (if Respected(cfg, checks[0], order, book, perSecond, perMinute) then [] else [checks[0]])
         + FailedOf(checks[1..], cfg, order, book, perSecond, perMinute)
  }

  /** All checks but the kill switch, in the order in which failures are reported. */
  const ORDER_CHECKS: seq<Check> := [Quantity, Notional, PriceDeviation, Position, Concentration]
  const RATE_CHECKS: seq<Check> := [RateSecond, RateMinute]

  ghost function Failures(cfg: Config, order: Order, book: Book, history: seq<Stamp>, now: real): seq<Check> {
    FailedOf(ORDER_CHECKS, cfg, order, book, 0, 0)
      + FailedOf(RATE_CHECKS, cfg, order, book, Recent(TimesOf(history) + [now], now, SECOND),
                 Recent(TimesOf(history) + [now], now, MINUTE))
  }

  lemma {:induction false} FailedOfMember(checks: seq<Check>, cfg: Config, order: Order, book: Book, perSecond: nat,
                                          perMinute: nat, c: Check)
    ensures c in FailedOf(checks, cfg, order, book, perSecond, perMinute)
       <==> c in checks && !Respected(cfg, c, order, book, perSecond, perMinute)
  {
    if checks != [] {
      FailedOfMember(checks[1..], cfg, order, book, perSecond, perMinute, c);
    }
  }

  /** A check is reported exactly when its limit is broken, rates counted over the full history. */
  lemma ReportedExactlyWhenBroken(cfg: Config, order: Order, book: Book, history: seq<Stamp>, now: real, c: Check)
    ensures c in Failures(cfg, order, book, history, now)
       <==> c != KillSwitch && !Respected(cfg, c, order, book, Recent(TimesOf(history) + [now], now, 1.0),
                                          Recent(TimesOf(history) + [now], now, 60.0))
  {
    hide Recent, Times, Over;
    var times := TimesOf(history) + [now];
    var perSecond, perMinute := Recent(times, now, SECOND), Recent(times, now, MINUTE);
    FailedOfMember(ORDER_CHECKS, cfg, order, book, 0, 0, c);
    FailedOfMember(RATE_CHECKS, cfg, order, book, perSecond, perMinute, c);
  }

  /** So an order with no failure respects every limit, and conversely. */
  lemma ApprovedMeansEveryLimit(cfg: Config, order: Order, book: Book, history: seq<Stamp>, now: real)
    ensures Failures(cfg, order, book, history, now) == []
       <==> forall c: Check :: c != KillSwitch ==>
              Respected(cfg, c, order, book, Recent(TimesOf(history) + [now], now, 1.0),
                        Recent(TimesOf(history) + [now], now, 60.0))
  {
    hide Recent, Respected, Failures;
    var times := TimesOf(history) + [now];
    var perSecond, perMinute := Recent(times, now, SECOND), Recent(times, now, MINUTE);
    var failures := Failures(cfg, order, book, history, now);
    if failures == [] {
      forall c: Check | c != KillSwitch ensures Respected(cfg, c, order, book, perSecond, perMinute) {
        ReportedExactlyWhenBroken(cfg, order, book, history, now, c);
      }
    } else {
      ReportedExactlyWhenBroken(cfg, order, book, history, now, failures[0]);
      assert !Respected(cfg, failures[0], order, book, perSecond, perMinute);
    }
  }

  /** The failures of checks 7 and 8 over the given timestamps. */
  ghost function RateFailures(cfg: Config, times: seq<real>, now: real): seq<Check> {
    (if Exceeds(Recent(times, now, SECOND), cfg.maxPerSecond) then [RateSecond] else [])
      + (if Exceeds(Recent(times, now, MINUTE), cfg.maxPerMinute) then [RateMinute] else [])
  }

  ghost predicate WithinCapacity(cfg: Config) {
    cfg.maxPerSecond < TIMESTAMP_CAPACITY as real && cfg.maxPerMinute < TIMESTAMP_CAPACITY as real
  }

  // ---- Every run of submissions -------------------------------------------------------------

  /** What the gate finds broken, its rate checks counting over the deque to which `now` was appended. */
  ghost function DequeFailures(cfg: Config, order: Order, book: Book, history: seq<Stamp>, now: real): seq<Check> {
    FailedOf(ORDER_CHECKS, cfg, order, book, 0, 0)
      + RateFailures(cfg, LastN(TimesOf(history) + [now], TIMESTAMP_CAPACITY), now)
  }

  /** An order, with what the gate knows when it arrives. */
  datatype Submission = Submission(order: Order, book: Book, time: real)

  /** The history after any submissions, each decided on the bounded deque as `ValidateOrder` does. */
  ghost function GateRun(cfg: Config, submissions: seq<Submission>): seq<Stamp> {
    if submissions == [] then []
    else
      var s, history := submissions[|submissions| - 1], GateRun(cfg, submissions[..|submissions| - 1]);
      if s.book.killSwitch then history
      else history + [Stamp(s.time, DequeFailures(cfg, s.order, s.book, history, s.time) == [])]
  }

  ghost predicate ClockOrdered(submissions: seq<Submission>) {
    forall i, j :: 0 <= i < j < |submissions| ==> submissions[i].time <= submissions[j].time
  }

  lemma {:induction false} RunWithinLimits(cfg: Config, submissions: seq<Submission>)
    requires ClockOrdered(submissions) && WithinCapacity(cfg)
    ensures Ordered(TimesOf(GateRun(cfg, submissions))) && ApprovalsWithinLimits(cfg, GateRun(cfg, submissions))
    ensures forall i :: 0 <= i < |GateRun(cfg, submissions)| ==>
              submissions != [] && GateRun(cfg, submissions)[i].time <= submissions[|submissions| - 1].time
  {
    hide Recent, FailedOf, RateFailures, LastN, ApprovalsWithinLimits, Ordered;
    if submissions == [] {
      NothingSubmitted(cfg);
    } else {
      var n := |submissions| - 1;
      var s, shorter := submissions[n], submissions[..n];
      assert forall i :: 0 <= i < n ==> shorter[i] == submissions[i];
      RunWithinLimits(cfg, shorter);
      if !s.book.killSwitch {
        var history := GateRun(cfg, shorter);
        GateStep(cfg, s.order, s.book, history, s.time, DequeFailures(cfg, s.order, s.book, history, s.time));
      }
    }
  }

  lemma NothingSubmitted(cfg: Config)
    ensures Ordered(TimesOf([])) && ApprovalsWithinLimits(cfg, [])
  {
  }

  /**
   The rate limits as promised: with an ordered clock and limits below the capacity of the deque, in
   every run of submissions - whatever the positions, prices and kill switch do in between - any
   half-open second holds at most `maxPerSecond` approved orders, any half-open minute `maxPerMinute`.
   */
  lemma RateLimitsHold(cfg: Config, submissions: seq<Submission>, from: real)
    requires ClockOrdered(submissions) && cfg.maxPerSecond < 10000.0 && cfg.maxPerMinute < 10000.0
    ensures ApprovedWithin(GateRun(cfg, submissions), from, 1.0) as real <= Max(cfg.maxPerSecond, 0.0)
    ensures ApprovedWithin(GateRun(cfg, submissions), from, 60.0) as real <= Max(cfg.maxPerMinute, 0.0)
  {
    hide GateRun, Recent, ApprovedWithin;
    RunWithinLimits(cfg, submissions);
    ApprovedInInterval(GateRun(cfg, submissions), from, SECOND, cfg.maxPerSecond);
    ApprovedInInterval(GateRun(cfg, submissions), from, MINUTE, cfg.maxPerMinute);
  }

  class PreTradeRiskValidator {
    const config: Config
    var timestamps: seq<real>
    var positions: map<string, real>
    var portfolioValue: real
    var midPrices: map<string, real>
    var killSwitchActive: bool
    var totalValidated: nat
    var totalRejected: nat
    var rejectionReasons: map<Check, nat>
    ghost var history: seq<Stamp>

    ghost function BookNow(): Book
      reads this
    {
      Book(positions, midPrices, portfolioValue, killSwitchActive)
    }

    /**
     The deque is the tail of the full history and, with limits below its capacity, every approval
     so far was within the limits over the full history.
     */
    ghost predicate Valid()
      reads this
    {
      && timestamps == LastN(TimesOf(history), TIMESTAMP_CAPACITY)
      && Ordered(TimesOf(history))
      && (WithinCapacity(config) ==> ApprovalsWithinLimits(config, history))
      && totalRejected <= totalValidated
    }

    constructor (config: Config)
      ensures Valid() && this.config == config && history == []
    {
      this.config := config;
      timestamps, history := [], [];
      positions, midPrices, rejectionReasons := map[], map[], map[];
      portfolioValue := 0.0;
      killSwitchActive := false;
      totalValidated, totalRejected := 0, 0;
    }

    /** The counting loop of a rate check. */
    method CountRecent(now: real, width: real) returns (count: nat)
      ensures count == Recent(timestamps, now, width)
    {
      count := 0;
      var i := 0;
      assert timestamps[0..] == timestamps;
      while i < |timestamps|
        invariant 0 <= i <= |timestamps|
        invariant count + Recent(timestamps[i..], now, width) == Recent(timestamps, now, width)
      {
        assert timestamps[i..][1..] == timestamps[i + 1..];
        if now - timestamps[i] < width {
          count := count + 1;
        }
        i := i + 1;
      }
    }

    /** Checks 2 to 6: quantity, notional, price deviation, position and concentration. */
    method OrderChecks(order: Order) returns (failed: seq<Check>)
      ensures failed == FailedOf(ORDER_CHECKS, config, order, BookNow(), 0, 0)
    {
      hide Times, Over, NewPosition, OrderPrice;
      ghost var book := BookNow();
      var quantity := if order.quantity > config.maxQuantity then [Quantity] else [];
      var orderPrice := OrderPrice(order, midPrices);
      var notional := if Times(order.quantity, orderPrice) > config.maxNotional then [Notional] else [];
      var deviation := [];
      if order.price.Some? && order.symbol in midPrices {
        var mid := midPrices[order.symbol];
        if mid > 0.0 && Over(Abs(order.price.value - mid), mid) > config.maxPriceDeviation {
          deviation := [PriceDeviation];
        }
      }
      var newPosition := NewPosition(order, positions);
      var position := if Abs(newPosition) > config.maxPosition then [Position] else [];
      var concentration := [];
      if portfolioValue > 0.0 && Over(Times(Abs(newPosition), orderPrice), portfolioValue) > config.maxConcentration {
        concentration := [Concentration];
      }
      FiveChecks(config, order, book);
      failed := quantity + (notional + (deviation + (position + concentration)));
    }

    /** Checks 7 and 8, on the deque to which `now` has just been appended. */
    method RateChecks(now: real) returns (failed: seq<Check>)
      ensures failed == RateFailures(config, timestamps, now)
    {
      hide Recent;
      var recentSecond := CountRecent(now, SECOND);
      failed := if recentSecond as real > config.maxPerSecond then [RateSecond] else [];
      var recentMinute := CountRecent(now, MINUTE);
      failed := failed + if recentMinute as real > config.maxPerMinute then [RateMinute] else [];
    }

    /** Appends to the deque, dropping the oldest timestamp when it is full. */
    method Remember(now: real)
      requires Valid()
      modifies this`timestamps
      ensures timestamps == LastN(TimesOf(history) + [now], TIMESTAMP_CAPACITY)
    {
      LastNAppend(TimesOf(history), TIMESTAMP_CAPACITY, now);
      if |timestamps| == TIMESTAMP_CAPACITY {
        timestamps := timestamps[1..];
      }
      timestamps := timestamps + [now];
    }

    /**
     `validate_order` at time `now`: one step of `GateRun`. With the kill switch off and limits below
     the deque's capacity, the failed checks are those of the full history.
     */
    method ValidateOrder(order: Order, now: real) returns (verdict: Verdict)
      requires Valid() && (history != [] ==> history[|history| - 1].time <= now)
      modifies this`timestamps, this`history, this`totalValidated, this`totalRejected, this`rejectionReasons
      ensures Valid() && totalValidated == old(totalValidated) + 1
      ensures verdict.approved <==> verdict.failed == []
      ensures killSwitchActive ==> verdict.failed == [KillSwitch] && history == old(history)
      ensures killSwitchActive ==> totalRejected == old(totalRejected) && rejectionReasons == old(rejectionReasons)
      ensures !killSwitchActive ==> history == old(history) + [Stamp(now, verdict.approved)]
      ensures !killSwitchActive ==> totalRejected == old(totalRejected) + if verdict.approved then 0 else 1
      ensures !killSwitchActive ==> verdict.failed == DequeFailures(config, order, BookNow(), old(history), now)
      ensures !killSwitchActive && WithinCapacity(config) ==>
                verdict.failed == Failures(config, order, BookNow(), old(history), now)
      ensures !killSwitchActive ==> forall c: Check ::
                Get(rejectionReasons, c, 0) == Get(old(rejectionReasons), c, 0) + multiset(verdict.failed)[c]
    {
      hide Failures, DequeFailures, ApprovalsWithinLimits, LastN, Ordered, TimesOf;
      totalValidated := totalValidated + 1;
      if killSwitchActive {
        return Verdict(false, [KillSwitch]);
      }
      var failed := RunChecks(order, now);
      var approved := |failed| == 0;
      totalRejected := totalRejected + if approved then 0 else 1;
      CountReasons(failed);
      verdict := Verdict(approved, failed);
    }

    /** Checks 2 to 8, remembering the submission. */
    method RunChecks(order: Order, now: real) returns (failed: seq<Check>)
      requires Valid() && (history != [] ==> history[|history| - 1].time <= now)
      modifies this`timestamps, this`history
      ensures Valid() && history == old(history) + [Stamp(now, |failed| == 0)]
      ensures failed == DequeFailures(config, order, BookNow(), old(history), now)
      ensures WithinCapacity(config) ==> failed == Failures(config, order, BookNow(), old(history), now)
    {
      hide Recent, FailedOf, Failures, RateFailures, ApprovalsWithinLimits, LastN, Ordered, TimesOf;
      var orderFailures := OrderChecks(order);
      Remember(now);
      var rateFailures := RateChecks(now);
      failed := orderFailures + rateFailures;
      GateStep(config, order, BookNow(), history, now, failed);
      history := history + [Stamp(now, |failed| == 0)];
    }

    /** Tallies the failed checks; an approved order has none. */
    method CountReasons(failed: seq<Check>)
      modifies this`rejectionReasons
      ensures forall c: Check :: Get(rejectionReasons, c, 0) == Get(old(rejectionReasons), c, 0) + multiset(failed)[c]
    {
      var i := 0;
      while i < |failed|
        invariant 0 <= i <= |failed|
        invariant forall c: Check ::
                    Get(rejectionReasons, c, 0) == Get(old(rejectionReasons), c, 0) + multiset(failed[..i])[c]
      {
        var key := failed[i];
        assert failed[..i + 1] == failed[..i] + [key];
        rejectionReasons := rejectionReasons[key := Get(rejectionReasons, key, 0) + 1];
        i := i + 1;
      }
      assert failed[..i] == failed;
    }
  }

  /** One submission, as seen by the full history. */
  lemma GateStep(cfg: Config, order: Order, book: Book, before: seq<Stamp>, now: real, failed: seq<Check>)
    requires Ordered(TimesOf(before)) && (before != [] ==> before[|before| - 1].time <= now)
    requires WithinCapacity(cfg) ==> ApprovalsWithinLimits(cfg, before)
    requires failed == DequeFailures(cfg, order, book, before, now)
    ensures var history := before + [Stamp(now, |failed| == 0)];
            && TimesOf(history) == TimesOf(before) + [now]
            && Ordered(TimesOf(history))
            && (WithinCapacity(cfg) ==>
                  failed == Failures(cfg, order, book, before, now) && ApprovalsWithinLimits(cfg, history))
  {
    hide Recent, FailedOf, LastN, Respected, ApprovalsWithinLimits;
    var times := TimesOf(before) + [now];
    assert TimesOf(before + [Stamp(now, |failed| == 0)]) == times;
    assert Ordered(times);
    if WithinCapacity(cfg) {
      BufferDecides(times, TIMESTAMP_CAPACITY, now, SECOND, cfg.maxPerSecond);
      BufferDecides(times, TIMESTAMP_CAPACITY, now, MINUTE, cfg.maxPerMinute);
      TwoChecks(cfg, order, book, Recent(times, now, SECOND), Recent(times, now, MINUTE));
      ApprovalsGrow(cfg, before, Stamp(now, |failed| == 0));
    }
  }

  lemma FiveChecks(cfg: Config, order: Order, book: Book)
    ensures FailedOf(ORDER_CHECKS, cfg, order, book, 0, 0)
         == (if Respected(cfg, Quantity, order, book, 0, 0) then [] else [Quantity])
            + ((if Respected(cfg, Notional, order, book, 0, 0) then [] else [Notional])
               + ((if Respected(cfg, PriceDeviation, order, book, 0, 0) then [] else [PriceDeviation])
                  + ((if Respected(cfg, Position, order, book, 0, 0) then [] else [Position])
                     + (if Respected(cfg, Concentration, order, book, 0, 0) then [] else [Concentration]))))
  {
    hide Respected;
    FailedHead(Quantity, [Notional, PriceDeviation, Position, Concentration], cfg, order, book, 0, 0);
    FailedHead(Notional, [PriceDeviation, Position, Concentration], cfg, order, book, 0, 0);
    FailedHead(PriceDeviation, [Position, Concentration], cfg, order, book, 0, 0);
    FailedHead(Position, [Concentration], cfg, order, book, 0, 0);
    FailedHead(Concentration, [], cfg, order, book, 0, 0);
    assert ORDER_CHECKS == [Quantity] + [Notional, PriceDeviation, Position, Concentration];
    assert [Notional, PriceDeviation, Position, Concentration]
        == [Notional] + [PriceDeviation, Position, Concentration];
    assert [PriceDeviation, Position, Concentration] == [PriceDeviation] + [Position, Concentration];
    assert [Position, Concentration] == [Position] + [Concentration];
    assert [Concentration] == [Concentration] + [];
  }

  lemma FailedHead(c: Check, rest: seq<Check>, cfg: Config, order: Order, book: Book, perSecond: nat, perMinute: nat)
    ensures FailedOf([c] + rest, cfg, order, book, perSecond, perMinute)
         == (if Respected(cfg, c, order, book, perSecond, perMinute) then [] else [c])
            + FailedOf(rest, cfg, order, book, perSecond, perMinute)
  {
    assert ([c] + rest)[1..] == rest;
  }

  lemma TwoChecks(cfg: Config, order: Order, book: Book, perSecond: nat, perMinute: nat)
    ensures FailedOf(RATE_CHECKS, cfg, order, book, perSecond, perMinute)
         == (if Exceeds(perSecond, cfg.maxPerSecond) then [RateSecond] else [])
            + (if Exceeds(perMinute, cfg.maxPerMinute) then [RateMinute] else [])
  {
    FailedHead(RateSecond, [RateMinute], cfg, order, book, perSecond, perMinute);
    FailedHead(RateMinute, [], cfg, order, book, perSecond, perMinute);
    assert RATE_CHECKS == [RateSecond] + [RateMinute];
    assert [RateMinute] == [RateMinute] + [];
  }

  lemma ApprovalsGrow(cfg: Config, history: seq<Stamp>, last: Stamp)
    requires ApprovalsWithinLimits(cfg, history)
    requires last.approved ==>
               && !Exceeds(Recent(TimesOf(history + [last]), last.time, SECOND), cfg.maxPerSecond)
               && !Exceeds(Recent(TimesOf(history + [last]), last.time, MINUTE), cfg.maxPerMinute)
    ensures ApprovalsWithinLimits(cfg, history + [last])
  {
    var longer := history + [last];
    forall i | 0 <= i < |longer| && longer[i].approved
      ensures !Exceeds(Recent(TimesOf(longer[..i + 1]), longer[i].time, SECOND), cfg.maxPerSecond)
      ensures !Exceeds(Recent(TimesOf(longer[..i + 1]), longer[i].time, MINUTE), cfg.maxPerMinute)
    {
      if i < |history| {
        assert longer[..i + 1] == history[..i + 1];
      } else {
        assert longer[..i + 1] == longer;
      }
    }
  }
}
