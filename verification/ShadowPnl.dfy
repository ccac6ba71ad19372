/**
 The shadow inventory (qtrader/execution/shadow_engine.py:174-239): average-cost accounting of
 simulated fills in any number of symbols, and the PnL reported from it on market data.
 */
module ShadowPnl {
  import opened Base
  import opened Products
  import opened MapSums

  datatype Side = Buy | Sell

  datatype Fill = Fill(symbol: string, side: Side, quantity: real, price: real)

  datatype Inventory = Inventory(positions: map<string, real>, basis: map<string, real>, realized: real)

  function Signed(f: Fill): real {
    if f.side == Buy then f.quantity else -f.quantity
  }

  /** The fill reduces the position: `current * signed < 0`. */
  predicate Opposes(current: real, signed: real) {
    (current > 0.0 && signed < 0.0) || (current < 0.0 && signed > 0.0)
  }

  /** It reduces it through zero to the other side. */
  predicate Crosses(current: real, signed: real) {
    Opposes(current, signed) && Abs(signed) > Abs(current)
  }

  function RealizedIncrement(current: real, signed: real, price: real, basis: real): real {
    var gain := Times(Min(Abs(current), Abs(signed)), price - basis);
    if current < 0.0 then -gain else gain
  }

  function AverageCost(current: real, signed: real, price: real, basis: real): real
    requires Abs(current) + Abs(signed) > 0.0
  {
    Over(Times(Abs(current), basis) + Times(Abs(signed), price), Abs(current) + Abs(signed))
  }

  /** `_update_shadow_inventory` */
  function Apply(inv: Inventory, f: Fill): Inventory {
    var q, current, basis := Signed(f), Get(inv.positions, f.symbol, 0.0), Get(inv.basis, f.symbol, 0.0);
    var moved := inv.(positions := inv.positions[f.symbol := current + q]);
    if Opposes(current, q) then
      moved.(realized := inv.realized + RealizedIncrement(current, q, f.price, basis))
    else if Abs(current) + Abs(q) > 0.0 then
      moved.(basis := inv.basis[f.symbol := AverageCost(current, q, f.price, basis)])
    else moved
  }

  const EMPTY := Inventory(map[], map[], 0.0)

  function Run(fills: seq<Fill>): Inventory {
    if fills == [] then EMPTY else Apply(Run(fills[..|fills| - 1]), fills[|fills| - 1])
  }

  // ---- The independent account --------------------------------------------------------------

  /** Money in less money out over the fills: the account that needs no cost basis. */
  ghost function CashFlow(fills: seq<Fill>): real {
    if fills == [] then 0.0
    else
      var f := fills[|fills| - 1];
      var value := Times(f.quantity, f.price);
      CashFlow(fills[..|fills| - 1]) + (if f.side == Buy then -value else value)
  }

  ghost function AtBasis(inv: Inventory): map<string, real> {
    map s | s in inv.positions :: Times(inv.positions[s], Get(inv.basis, s, 0.0))
  }

  ghost function AtPrice(inv: Inventory, price: real): map<string, real> {
    map s | s in inv.positions :: Times(inv.positions[s], price)
  }

  ghost function AtMarks(inv: Inventory, marks: map<string, real>): map<string, real> {
    map s | s in inv.positions :: Times(inv.positions[s], Get(marks, s, 0.0))
  }

  /** What the fills bought of a symbol less what they sold of it. */
  ghost function NetBought(fills: seq<Fill>, symbol: string): real {
    if fills == [] then 0.0
    else
      var f := fills[|fills| - 1];
      NetBought(fills[..|fills| - 1], symbol)
        + (if f.symbol != symbol then 0.0 else if f.side == Buy then f.quantity else -f.quantity)
  }

  ghost function Traded(fills: seq<Fill>): set<string> {
    set f | f in fills :: f.symbol
  }

  /** The quantities bought net, worth the given marks; a symbol without a mark counts as worthless. */
  ghost function NetAtMarks(fills: seq<Fill>, marks: map<string, real>): map<string, real> {
    map s | s in Traded(fills) :: Times(NetBought(fills, s), Get(marks, s, 0.0))
  }

  /** A fill that crosses zero leaves the old cost basis on the new position. */
  ghost function CrossingError(inv: Inventory, f: Fill): real {
    var q, current, basis := Signed(f), Get(inv.positions, f.symbol, 0.0), Get(inv.basis, f.symbol, 0.0);
    if Crosses(current, q) then Times(current + q, basis - f.price) else 0.0
  }

  ghost function Errors(fills: seq<Fill>): real {
    if fills == [] then 0.0
    else
      var shorter := fills[..|fills| - 1];
      Errors(shorter) + CrossingError(Run(shorter), fills[|fills| - 1])
  }

  // ---- One fill -----------------------------------------------------------------------------

  lemma AbsTimes(x: real, y: real)
    ensures Times(Abs(x), y) == (if x >= 0.0 then Times(x, y) else -Times(x, y))
  {
    TimesNegate(x, y);
  }

  /** Averaging in: the new position at the new basis is worth the old one plus the fill. */
  lemma AveragingIsExact(current: real, q: real, price: real, basis: real)
    requires !Opposes(current, q) && Abs(current) + Abs(q) > 0.0
    ensures Times(current + q, AverageCost(current, q, price, basis)) == Times(current, basis) + Times(q, price)
  {
    hide Times, Over;
    var total, average := Abs(current) + Abs(q), AverageCost(current, q, price, basis);
    TimesOver(Times(Abs(current), basis) + Times(Abs(q), price), total);
    AbsTimes(current, basis);
    AbsTimes(q, price);
    AbsTimes(current + q, average);
    assert Abs(current + q) == total;
    TimesUnits(basis);
    TimesUnits(price);
  }

  /** Reducing: what the position loses at basis is realized or paid, up to the crossing error. */
  lemma ReducingIsExact(current: real, q: real, price: real, basis: real)
    requires Opposes(current, q)
    ensures Times(current + q, basis) - RealizedIncrement(current, q, price, basis) - Times(q, price)
         == Times(current, basis) + (if Crosses(current, q) then Times(current + q, basis - price) else 0.0)
  {
    hide Times, Over;
    TimesSplitLeft(current, q, basis);
    TimesSplitLeft(current, q, price);
    TimesMinus(current + q, basis, price);
    AbsTimes(current, price - basis);
    AbsTimes(q, price - basis);
    TimesMinus(current, price, basis);
    TimesMinus(q, price, basis);
  }

  /** One fill changes the gap between the two accounts by exactly its crossing error. */
  lemma FillGap(inv: Inventory, f: Fill)
    ensures Sum(AtBasis(Apply(inv, f))) - Apply(inv, f).realized - Times(Signed(f), f.price)
         == Sum(AtBasis(inv)) - inv.realized + CrossingError(inv, f)
  {
    hide Times, Over, AverageCost, RealizedIncrement;
    var q, current, basis := Signed(f), Get(inv.positions, f.symbol, 0.0), Get(inv.basis, f.symbol, 0.0);
    var after := Apply(inv, f);
    var worth := Times(current + q, Get(after.basis, f.symbol, 0.0));
    assert AtBasis(after) == AtBasis(inv)[f.symbol := worth];
    SumUpdate(AtBasis(inv), f.symbol, worth);
    TimesUnits(basis);
    assert Get(AtBasis(inv), f.symbol, 0.0) == Times(current, basis);
    if Opposes(current, q) {
      ReducingIsExact(current, q, f.price, basis);
    } else if Abs(current) + Abs(q) > 0.0 {
      AveragingIsExact(current, q, f.price, basis);
    } else {
      TimesUnits(f.price);
      TimesUnits(Get(after.basis, f.symbol, 0.0));
    }
  }

  /** It does not cross zero at a price other than the cost basis. */
  ghost predicate FillBooksExactly(inv: Inventory, f: Fill) {
    !(Crosses(Get(inv.positions, f.symbol, 0.0), Signed(f)) && f.price != Get(inv.basis, f.symbol, 0.0))
  }

  lemma FillIsExactIff(inv: Inventory, f: Fill)
    ensures CrossingError(inv, f) == 0.0 <==> FillBooksExactly(inv, f)
  {
    var q, current, basis := Signed(f), Get(inv.positions, f.symbol, 0.0), Get(inv.basis, f.symbol, 0.0);
    if Crosses(current, q) {
      NonzeroProduct(current + q, basis - f.price);
    }
  }

  lemma NonzeroProduct(x: real, y: real)
    requires x != 0.0
    ensures Times(x, y) == 0.0 <==> y == 0.0
  {
    if y != 0.0 {
      assert Times(x, y) / y == x;
    }
  }

  // ---- Every sequence of fills --------------------------------------------------------------

  /**
   The shadow PnL identity: over any fills in any symbols, cash flow plus positions at cost less
   realized PnL is the sum of the crossing errors.
   */
  lemma {:induction false} PnlIdentity(fills: seq<Fill>)
    ensures CashFlow(fills) + Sum(AtBasis(Run(fills))) - Run(fills).realized == Errors(fills)
  {
    hide Apply, CrossingError, AtBasis, Times;
    if fills != [] {
      var f := fills[|fills| - 1];
      PnlIdentity(fills[..|fills| - 1]);
      TimesNegate(f.quantity, f.price);
      FillGap(Run(fills[..|fills| - 1]), fills[|fills| - 1]);
    } else {
      EmptyBook();
    }
  }

  lemma EmptyBook()
    ensures Sum(AtBasis(EMPTY)) == 0.0
  {
    assert AtBasis(EMPTY).Keys == {};
  }

  lemma TradedMore(fills: seq<Fill>)
    requires fills != []
    ensures Traded(fills) == Traded(fills[..|fills| - 1]) + {fills[|fills| - 1].symbol}
  {
    var n := |fills| - 1;
    assert fills == fills[..n] + [fills[n]];
  }

  /** The shadow position of every symbol is what the fills bought of it, net of what they sold. */
  lemma {:induction false} PositionIsNetBought(fills: seq<Fill>)
    ensures Run(fills).positions.Keys == Traded(fills)
    ensures forall s :: Get(Run(fills).positions, s, 0.0) == NetBought(fills, s)
  {
    hide Times, Over, AverageCost, RealizedIncrement, Traded;
    if fills == [] {
      assert Traded(fills) == {} by { NothingTraded(); }
    } else {
      PositionIsNetBought(fills[..|fills| - 1]);
      TradedMore(fills);
    }
  }

  lemma NothingTraded()
    ensures Traded([]) == {}
  {
  }

  lemma NetValue(fills: seq<Fill>, marks: map<string, real>)
    ensures AtMarks(Run(fills), marks) == NetAtMarks(fills, marks)
  {
    hide Run, NetBought, Traded, Times;
    PositionIsNetBought(fills);
    forall s | s in Traded(fills) ensures AtMarks(Run(fills), marks)[s] == NetAtMarks(fills, marks)[s] {
      assert Get(Run(fills).positions, s, 0.0) == NetBought(fills, s);
    }
  }

  /**
   How one fill splits between basis and realized PnL. Only a reduction realizes, what it closes and
   no more, a gain for a long sold above its basis and for a short bought below it; it leaves the
   basis alone. Anything else averages the basis and realizes nothing. Other symbols are untouched.
   */
  lemma FillSplits(inv: Inventory, f: Fill)
    ensures var after, held, basis := Apply(inv, f), Get(inv.positions, f.symbol, 0.0), Get(inv.basis, f.symbol, 0.0);
            var q := if f.side == Buy then f.quantity else -f.quantity;
            && (held > 0.0 > q ==>
                  after.realized == inv.realized + Times(Min(held, -q), f.price - basis) && after.basis == inv.basis)
            && (held < 0.0 < q ==>
                  after.realized == inv.realized + Times(Min(-held, q), basis - f.price) && after.basis == inv.basis)
            && (!(held > 0.0 > q) && !(held < 0.0 < q) ==>
                  && after.realized == inv.realized
                  && Times(Abs(held) + Abs(q), Get(after.basis, f.symbol, 0.0))
                     == Times(Abs(held), basis) + Times(Abs(q), f.price))
    ensures forall s :: s != f.symbol ==>
              && Get(Apply(inv, f).positions, s, 0.0) == Get(inv.positions, s, 0.0)
              && Get(Apply(inv, f).basis, s, 0.0) == Get(inv.basis, s, 0.0)
  {
    hide Times, Over;
    var held, basis, q := Get(inv.positions, f.symbol, 0.0), Get(inv.basis, f.symbol, 0.0), Signed(f);
    var total := Abs(held) + Abs(q);
    TimesNegate(Min(Abs(held), Abs(q)), f.price - basis);
    TimesUnits(basis);
    TimesUnits(f.price);
    TimesUnits(Get(Apply(inv, f).basis, f.symbol, 0.0));
    if total > 0.0 {
      TimesOver(Times(Abs(held), basis) + Times(Abs(q), f.price), total);
    }
  }

  /** Once every symbol is flat, and no fill was misbooked, realized PnL is the cash flow. */
  lemma FlatMeansRealized(fills: seq<Fill>)
    requires forall s :: s in Traded(fills) ==> NetBought(fills, s) == 0.0
    ensures Run(fills).realized == CashFlow(fills) - Errors(fills)
  {
    hide Run, CashFlow, Errors, NetBought, Traded, Times;
    PnlIdentity(fills);
    PositionIsNetBought(fills);
    var worth := AtBasis(Run(fills));
    forall s | s in worth ensures worth[s] == 0.0 {
      assert Get(Run(fills).positions, s, 0.0) == NetBought(fills, s);
      TimesUnits(Get(Run(fills).basis, s, 0.0));
    }
    SumOfZeros(worth);
  }

  lemma {:induction false} SumOfZeros(m: map<string, real>)
    requires forall s :: s in m ==> m[s] == 0.0
    ensures Sum(m) == 0.0
    decreases |m|
  {
    if m.Keys != {} {
      SumOfZeros(m - {Pick(m.Keys)});
    }
  }

  ghost predicate NeverCrosses(fills: seq<Fill>) {
    forall i :: 0 <= i < |fills| ==>
      !Crosses(Get(Run(fills[..i]).positions, fills[i].symbol, 0.0), Signed(fills[i]))
  }

  lemma {:induction false} NoCrossingNoError(fills: seq<Fill>)
    requires NeverCrosses(fills)
    ensures Errors(fills) == 0.0
  {
    if fills != [] {
      var n := |fills| - 1;
      forall i | 0 <= i < n
        ensures !Crosses(Get(Run(fills[..n][..i]).positions, fills[..n][i].symbol, 0.0), Signed(fills[..n][i]))
      {
        assert fills[..n][..i] == fills[..i];
      }
      NoCrossingNoError(fills[..n]);
    }
  }

  // ---- The reported PnL ---------------------------------------------------------------------

  /** The gain of each open position at one price; flat symbols are skipped. */
  ghost function Gains(inv: Inventory, mid: real): map<string, real> {
    map s | s in inv.positions ::
      if inv.positions[s] == 0.0 then 0.0 else Times(inv.positions[s], mid - Get(inv.basis, s, 0.0))
  }

  ghost function Unrealized(inv: Inventory, mid: real): real {
    if mid > 0.0 then Sum(Gains(inv, mid)) else 0.0
  }

  /** Sums of dictionaries over the same keys subtract key by key. */
  lemma {:induction false} SumMinus<K>(a: map<K, real>, b: map<K, real>, c: map<K, real>)
    requires a.Keys == b.Keys == c.Keys && forall k :: k in a ==> c[k] == a[k] - b[k]
    ensures Sum(c) == Sum(a) - Sum(b)
    decreases |a|
  {
    if a.Keys != {} {
      var k := Pick(a.Keys);
      SumRemove(a, k);
      SumRemove(b, k);
      SumRemove(c, k);
      SumMinus(a - {k}, b - {k}, c - {k});
    }
  }

  lemma GainsAreDifferences(inv: Inventory, mid: real)
    ensures Sum(Gains(inv, mid)) == Sum(AtPrice(inv, mid)) - Sum(AtBasis(inv))
  {
    forall s | s in inv.positions ensures Gains(inv, mid)[s] == AtPrice(inv, mid)[s] - AtBasis(inv)[s] {
      TimesMinus(inv.positions[s], mid, Get(inv.basis, s, 0.0));
    }
    SumMinus(AtPrice(inv, mid), AtBasis(inv), Gains(inv, mid));
  }

  /**
   Realized plus unrealized PnL at a positive mid price is the cash flow plus every net quantity at
   that price, less the crossing errors.
   */
  lemma ReportedPnl(fills: seq<Fill>, mid: real)
    requires mid > 0.0
    ensures ReportedTotal(fills, mid) == CashFlow(fills) + Sum(NetAtPrice(fills, mid)) - Errors(fills)
  {
    hide Run, CashFlow, Errors, AtPrice, AtBasis, Gains, NetAtPrice;
    PnlIdentity(fills);
    GainsAreDifferences(Run(fills), mid);
    NetAtOnePrice(fills, mid);
  }

  ghost function NetAtPrice(fills: seq<Fill>, price: real): map<string, real> {
    map s | s in Traded(fills) :: Times(NetBought(fills, s), price)
  }

  lemma NetAtOnePrice(fills: seq<Fill>, price: real)
    ensures AtPrice(Run(fills), price) == NetAtPrice(fills, price)
  {
    hide Run, NetBought, Traded, Times;
    PositionIsNetBought(fills);
    forall s | s in Traded(fills) ensures AtPrice(Run(fills), price)[s] == NetAtPrice(fills, price)[s] {
      assert Get(Run(fills).positions, s, 0.0) == NetBought(fills, s);
    }
  }

  /** Marks that agree with the tick: the symbol that ticked stands at its mid price. */
  predicate Ticked(marks: map<string, real>, symbol: string, mid: real) {
    symbol in marks && marks[symbol] == mid
  }

  /** The fills left nothing of any other symbol. */
  ghost predicate OthersFlat(fills: seq<Fill>, symbol: string) {
    forall s :: s in Traded(fills) && s != symbol ==> NetBought(fills, s) == 0.0
  }

  lemma FlatElsewhereValue(fills: seq<Fill>, symbol: string, mid: real, marks: map<string, real>)
    requires OthersFlat(fills, symbol) && Ticked(marks, symbol, mid)
    ensures NetAtPrice(fills, mid) == NetAtMarks(fills, marks)
  {
    hide Times, NetBought, Traded;
    forall s | s in Traded(fills) ensures NetAtPrice(fills, mid)[s] == NetAtMarks(fills, marks)[s] {
      TimesUnits(mid);
      TimesUnits(Get(marks, s, 0.0));
    }
  }

  /** Marks at which an open position in another symbol is misvalued. */
  lemma OtherSymbolMisvalued(fills: seq<Fill>, symbol: string, mid: real, other: string)
    returns (marks: map<string, real>)
    requires other in Traded(fills) && other != symbol && NetBought(fills, other) != 0.0
    ensures Ticked(marks, symbol, mid) && Sum(NetAtPrice(fills, mid)) != Sum(NetAtMarks(fills, marks))
  {
    hide Times, NetBought, Traded;
    marks := (map s | s in Traded(fills) + {symbol} :: mid)[other := mid + 1.0];
    var q := NetBought(fills, other);
    assert NetAtMarks(fills, marks) == NetAtPrice(fills, mid)[other := Times(q, mid + 1.0)];
    SumUpdate(NetAtPrice(fills, mid), other, Times(q, mid + 1.0));
    TimesSplit(q, mid, 1.0);
    TimesUnits(q);
  }

  /** The net quantities at their marks, with the cash flow: what the report should say of the fills. */
  ghost function TruePnl(fills: seq<Fill>, marks: map<string, real>): real {
    CashFlow(fills) + Sum(NetAtMarks(fills, marks))
  }

  ghost function ReportedTotal(fills: seq<Fill>, mid: real): real {
    Run(fills).realized + Unrealized(Run(fills), mid)
  }

  ghost predicate OffByErrorsOnly(fills: seq<Fill>, symbol: string, mid: real) {
    forall marks: map<string, real> :: Ticked(marks, symbol, mid) ==>
      ReportedTotal(fills, mid) == TruePnl(fills, marks) - Errors(fills)
  }

  /**
   The report marks every symbol at the mid price of the symbol that ticked. Whatever the marks of
   the other symbols, this is right - up to the crossing errors - exactly when they are all flat.
   */
  lemma ReportedAgainstOwnMarks(fills: seq<Fill>, symbol: string, mid: real)
    requires mid > 0.0
    ensures OffByErrorsOnly(fills, symbol, mid) <==> OthersFlat(fills, symbol)
  {
    hide ReportedTotal, CashFlow, Errors, NetAtPrice, NetAtMarks, Traded, NetBought;
    ReportedPnl(fills, mid);
    if OthersFlat(fills, symbol) {
      forall marks: map<string, real> | Ticked(marks, symbol, mid)
        ensures ReportedTotal(fills, mid) == TruePnl(fills, marks) - Errors(fills)
      {
        FlatElsewhereValue(fills, symbol, mid, marks);
      }
    } else {
      var other :| other in Traded(fills) && other != symbol && NetBought(fills, other) != 0.0;
      var marks := OtherSymbolMisvalued(fills, symbol, mid, other);
      assert ReportedTotal(fills, mid) != TruePnl(fills, marks) - Errors(fills);
    }
  }

  /** No fill crosses zero at a price other than its cost basis. */
  ghost predicate CrossesAtBasis(fills: seq<Fill>) {
    forall i :: 0 <= i < |fills| ==> FillBooksExactly(Run(fills[..i]), fills[i])
  }

  ghost predicate NeverOff(fills: seq<Fill>) {
    forall k :: 0 <= k <= |fills| ==> Errors(fills[..k]) == 0.0
  }

  lemma StepError(fills: seq<Fill>, i: nat)
    requires i < |fills|
    ensures Errors(fills[..i + 1]) == Errors(fills[..i]) + CrossingError(Run(fills[..i]), fills[i])
  {
    hide CrossingError, Run;
    assert fills[..i + 1][..i] == fills[..i];
  }

  lemma {:induction false} ErrorsVanish(fills: seq<Fill>, k: nat)
    requires k <= |fills| && CrossesAtBasis(fills)
    ensures Errors(fills[..k]) == 0.0
  {
    hide CrossingError, Run, FillBooksExactly;
    if k > 0 {
      ErrorsVanish(fills, k - 1);
      StepError(fills, k - 1);
      assert FillBooksExactly(Run(fills[..k - 1]), fills[k - 1]);
      FillIsExactIff(Run(fills[..k - 1]), fills[k - 1]);
    }
  }

  /** The accounts never part, after any number of the fills, exactly when every fill books exactly. */
  lemma NeverOffExactly(fills: seq<Fill>)
    ensures NeverOff(fills) <==> CrossesAtBasis(fills)
  {
    hide Run, Errors, CrossingError, FillBooksExactly;
    if CrossesAtBasis(fills) {
      forall k | 0 <= k <= |fills| ensures Errors(fills[..k]) == 0.0 {
        ErrorsVanish(fills, k);
      }
    }
    if NeverOff(fills) {
      forall i | 0 <= i < |fills| ensures FillBooksExactly(Run(fills[..i]), fills[i]) {
        StepError(fills, i);
        assert Errors(fills[..i]) == 0.0 && Errors(fills[..i + 1]) == 0.0;
        FillIsExactIff(Run(fills[..i]), fills[i]);
      }
    }
  }

  /** The report on one symbol at its own mark, after each of its fills. */
  ghost predicate AlwaysExact(fills: seq<Fill>, symbol: string, mid: real) {
    forall k :: 0 <= k <= |fills| ==> ReportedTotal(fills[..k], mid) == TruePnl(fills[..k], map[symbol := mid])
  }

  /**
   For fills of one symbol, marked at its own mid price, the reported PnL is exact after every fill
   if and only if no fill crosses zero at a price other than the cost basis.
   */
  lemma OneSymbolExactIff(fills: seq<Fill>, symbol: string, mid: real)
    requires mid > 0.0 && forall i :: 0 <= i < |fills| ==> fills[i].symbol == symbol
    ensures AlwaysExact(fills, symbol, mid) <==> CrossesAtBasis(fills)
  {
    hide Run, Errors, ReportedTotal, TruePnl, CrossesAtBasis;
    forall k | 0 <= k <= |fills|
      ensures ReportedTotal(fills[..k], mid) == TruePnl(fills[..k], map[symbol := mid]) - Errors(fills[..k])
    {
      assert OthersFlat(fills[..k], symbol);
      ReportedAgainstOwnMarks(fills[..k], symbol, mid);
      assert Ticked(map[symbol := mid], symbol, mid);
    }
    NeverOffExactly(fills);
  }

  const TWO_BUYS := [Fill("BTC", Buy, 1.0, 100.0), Fill("ETH", Buy, 1.0, 10.0)]

  lemma AfterTwoBuys()
    ensures Run(TWO_BUYS) == Inventory(map["BTC" := 1.0, "ETH" := 1.0], map["BTC" := 100.0, "ETH" := 10.0], 0.0)
    ensures CashFlow(TWO_BUYS) == -110.0
  {
    var first, second := TWO_BUYS[0], TWO_BUYS[1];
    assert TWO_BUYS[..1] == [first] && [first][..0] == [];
    assert AverageCost(0.0, 1.0, 100.0, 0.0) == 100.0 && AverageCost(0.0, 1.0, 10.0, 0.0) == 10.0;
    hide Times, AverageCost, RealizedIncrement;
    assert Run([first]) == Inventory(map["BTC" := 1.0], map["BTC" := 100.0], 0.0);
    assert Times(1.0, 100.0) == 100.0 && Times(1.0, 10.0) == 10.0 by {
      TimesUnits(100.0);
      TimesUnits(10.0);
    }
    assert CashFlow([first]) == -100.0;
  }

  /** Two symbols bought at their marks, so worth what they cost; a tick of the dearer reports a gain of 90. */
  lemma OtherSymbolsMisreport()
    ensures TruePnl(TWO_BUYS, map["BTC" := 100.0, "ETH" := 10.0]) == 0.0
    ensures ReportedTotal(TWO_BUYS, 100.0) == 90.0
  {
    AfterTwoBuys();
    var inv, marks := Run(TWO_BUYS), map["BTC" := 100.0, "ETH" := 10.0];
    NetValue(TWO_BUYS, marks);
    hide Run, CashFlow, Sum, NetAtMarks;
    assert AtMarks(inv, marks) == map["BTC" := 100.0, "ETH" := 10.0];
    assert Gains(inv, 100.0) == map["BTC" := 0.0, "ETH" := 90.0];
    SumOfTwo("BTC", 100.0, "ETH", 10.0);
    SumOfTwo("BTC", 0.0, "ETH", 90.0);
  }

  lemma SumOfTwo(k: string, x: real, l: string, y: real)
    requires k != l
    ensures Sum(map[k := x, l := y]) == x + y
  {
    var none: map<string, real> := map[];
    assert Sum(none) == 0.0;
    SumUpdate(none, k, x);
    SumUpdate(none[k := x], l, y);
    assert map[k := x, l := y] == none[k := x][l := y];
  }

  /** Short two units against a long of one, at a profit: the report is off by the whole move. */
  lemma CrossingMisreports()
    ensures var fills := [Fill("BTC", Buy, 1.0, 100.0), Fill("BTC", Sell, 2.0, 110.0)];
            Errors(fills) == 10.0
  {
    var first, second := Fill("BTC", Buy, 1.0, 100.0), Fill("BTC", Sell, 2.0, 110.0);
    var fills := [first, second];
    assert fills[..1] == [first] && [first][..0] == [];
    assert Errors([]) == 0.0 && Run([]) == EMPTY;
    assert Run([first]) == Apply(EMPTY, first);
    assert AverageCost(0.0, 1.0, 100.0, 0.0) == 100.0;
    assert Errors([first]) == 0.0;
    assert CrossingError(Run([first]), second) == 10.0;
  }

  // ---- The engine's state -------------------------------------------------------------------

  class ShadowEngine {
    var shadowPositions: map<string, real>
    var shadowCostBasis: map<string, real>
    var realizedPnl: real
    var unrealizedPnl: real
    var shadowPnl: real

    function Value(): Inventory
      reads this
    {
      Inventory(shadowPositions, shadowCostBasis, realizedPnl)
    }

    constructor ()
      ensures Value() == EMPTY && unrealizedPnl == 0.0 && shadowPnl == 0.0
    {
      shadowPositions, shadowCostBasis := map[], map[];
      realizedPnl, unrealizedPnl, shadowPnl := 0.0, 0.0, 0.0;
    }

    method UpdateShadowInventory(fill: Fill)
      modifies this`shadowPositions, this`shadowCostBasis, this`realizedPnl
      ensures Value() == Apply(old(Value()), fill)
    {
      hide Times, Over;
      var qty := if fill.side == Buy then fill.quantity else -fill.quantity;
      var current := Get(shadowPositions, fill.symbol, 0.0);
      if OppositeSigns(current, qty) {
        var avgCost := Get(shadowCostBasis, fill.symbol, 0.0);
        var closeQty := Min(Abs(current), Abs(qty));
        var increment := Times(closeQty, fill.price - avgCost);
        if current < 0.0 {
          increment := -increment;
        }
        realizedPnl := realizedPnl + increment;
      } else {
        var totalQty := Abs(current) + Abs(qty);
        if totalQty > 0.0 {
          var oldCost := Get(shadowCostBasis, fill.symbol, 0.0);
          var newCost := Over(Times(Abs(current), oldCost) + Times(Abs(qty), fill.price), totalQty);
          shadowCostBasis := shadowCostBasis[fill.symbol := newCost];
        }
      }
      shadowPositions := shadowPositions[fill.symbol := current + qty];
    }

    /** The unrealized and total PnL lines of `_on_market_data`; a side without quotes counts as 0. */
    method OnMarketData(bestBid: Option<real>, bestAsk: Option<real>)
      modifies this`unrealizedPnl, this`shadowPnl
      ensures unrealizedPnl == Unrealized(Value(), MidPrice(bestBid, bestAsk))
      ensures shadowPnl == realizedPnl + unrealizedPnl
    {
      var mid := MidPrice(bestBid, bestAsk);
      var unrealized := 0.0;
      if mid > 0.0 {
        unrealized := SumGains(Value(), mid);
      }
      unrealizedPnl := unrealized;
      shadowPnl := realizedPnl + unrealized;
    }
  }

  /** The loop over the positions, in whatever order the dictionary yields them. */
  method SumGains(inv: Inventory, mid: real) returns (total: real)
    ensures total == Sum(Gains(inv, mid))
  {
    hide Times, Gains, Restrict;
    ghost var gains := Gains(inv, mid);
    total := 0.0;
    var rest := inv.positions.Keys;
    GainAt(inv, mid);
    SumRestrictEnds(gains);
    while rest != {}
      invariant rest <= inv.positions.Keys
      invariant total + Sum(Restrict(gains, rest)) == Sum(gains)
      decreases rest
    {
      var symbol :| symbol in rest;
      SumRestrict(gains, rest, symbol);
      var qty := inv.positions[symbol];
      if qty != 0.0 {
        var avgCost := Get(inv.basis, symbol, 0.0);
        total := total + Times(qty, mid - avgCost);
      }
      rest := rest - {symbol};
    }
  }

  lemma GainAt(inv: Inventory, mid: real)
    ensures Gains(inv, mid).Keys == inv.positions.Keys
    ensures forall s :: s in inv.positions ==>
              Gains(inv, mid)[s]
              == (if inv.positions[s] == 0.0 then 0.0 else Times(inv.positions[s], mid - Get(inv.basis, s, 0.0)))
  {
  }

  function MidPrice(bestBid: Option<real>, bestAsk: Option<real>): real {
    match (bestBid, bestAsk)
    case (Some(bid), Some(ask)) => if bid > 0.0 && ask > 0.0 then (bid + ask) / 2.0 else 0.0
    case _ => 0.0
  }

  /** There is a mid price exactly when both sides are quoted above zero; it lies midway. */
  lemma MidPriceExactly(bestBid: Option<real>, bestAsk: Option<real>)
    ensures MidPrice(bestBid, bestAsk) > 0.0
       <==> bestBid.Some? && bestAsk.Some? && bestBid.value > 0.0 && bestAsk.value > 0.0
    ensures var mid := MidPrice(bestBid, bestAsk);
            if mid > 0.0 then mid - bestBid.value == bestAsk.value - mid else mid == 0.0
  {
  }

  /** The source compares the product of the two quantities with zero. */
  predicate OppositeSigns(x: real, y: real)
    ensures OppositeSigns(x, y) <==> Opposes(x, y)
  {
    TimesSign(Abs(x), Abs(y));
    AbsTimes(x, Abs(y));
    AbsTimes(y, x);
    TimesSwap(x, y);
    Times(x, y) < 0.0
  }
}
