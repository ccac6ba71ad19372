/** Returns and maximum drawdown of a NAV history (qtrader/analytics/reporting.py). */
module Reporting {
  import opened Base
  import opened Products

  /** Relative decline from a peak; a peak that is not positive counts as no decline. */
  function Decline(peak: real, nav: real): real {
    if peak > 0.0 then Over(peak - nav, peak) else 0.0
  }

  function Return(before: real, after: real): real {
    if before > 0.0 then Over(after - before, before) else 0.0
  }

  function Highest(navs: seq<real>): (h: real)
    requires navs != []
    ensures h in navs && forall i :: 0 <= i < |navs| ==> navs[i] <= h
  {
    if |navs| == 1 then navs[0] else Max(Highest(navs[..|navs| - 1]), navs[|navs| - 1])
  }

  /** The running maximum of the declines from the running peak, as the one-pass loop keeps it. */
  function RunningDrawdown(navs: seq<real>): real
    requires navs != []
  {
    if |navs| == 1 then 0.0
    else Max(RunningDrawdown(navs[..|navs| - 1]), Decline(Highest(navs), navs[|navs| - 1]))
  }

  function Returns(navs: seq<real>): (series: seq<real>)
    requires navs != []
    ensures |series| == |navs| - 1
  {
    if |navs| == 1 then []
    else Returns(navs[..|navs| - 1]) + [Return(navs[|navs| - 2], navs[|navs| - 1])]
  }

  datatype Report = InsufficientData | Report(series: seq<real>, maxDrawdown: real)

  class InvestorReporting {
    var totalReports: nat
    var historicalPeak: real

    constructor ()
      ensures totalReports == 0 && historicalPeak == 0.0
    {
      totalReports, historicalPeak := 0, 0.0;
    }

    /** The loop of `generate_investor_analytics` and the telemetry it updates. */
    method GenerateAnalytics(navs: seq<real>) returns (report: Report)
      modifies this
      ensures |navs| < 2 ==> report == InsufficientData
      ensures |navs| < 2 ==> totalReports == old(totalReports) && historicalPeak == old(historicalPeak)
      ensures |navs| >= 2 ==> report == Report.Report(Returns(navs), RunningDrawdown(navs))
      ensures |navs| >= 2 ==> totalReports == old(totalReports) + 1
      ensures |navs| >= 2 ==> historicalPeak == Max(old(historicalPeak), Highest(navs))
    {
      hide Over, Highest, RunningDrawdown, Returns;
      if |navs| < 2 {
        return InsufficientData;
      }
      var series: seq<real> := [];
      var peak, worst := navs[0], 0.0;
      var i := 1;
      FirstPoint(navs);
      while i < |navs|
        invariant 1 <= i <= |navs|
        invariant series == Returns(navs[..i]) && peak == Highest(navs[..i]) && worst == RunningDrawdown(navs[..i])
        invariant totalReports == old(totalReports) && historicalPeak == old(historicalPeak)
      {
        var before, now := navs[i - 1], navs[i];
        NextPoint(navs, i);
        series := series + [if before > 0.0 then Over(now - before, before) else 0.0];
        peak := Max(peak, now);
        var divergence := if peak > 0.0 then Over(peak - now, peak) else 0.0;
        worst := Max(worst, divergence);
        i := i + 1;
      }
      assert navs[..i] == navs;
      totalReports := totalReports + 1;
      historicalPeak := Max(historicalPeak, peak);
      report := Report.Report(series, worst);
    }
  }

  lemma FirstPoint(navs: seq<real>)
    requires navs != []
    ensures Returns(navs[..1]) == [] && Highest(navs[..1]) == navs[0] && RunningDrawdown(navs[..1]) == 0.0
  {
  }

  /** What one more NAV does to the three running values. */
  lemma NextPoint(navs: seq<real>, i: nat)
    requires 0 < i < |navs|
    ensures Returns(navs[..i + 1]) == Returns(navs[..i]) + [Return(navs[i - 1], navs[i])]
    ensures Highest(navs[..i + 1]) == Max(Highest(navs[..i]), navs[i])
    ensures RunningDrawdown(navs[..i + 1]) == Max(RunningDrawdown(navs[..i]), Decline(Highest(navs[..i + 1]), navs[i]))
  {
    assert navs[..i + 1][..i] == navs[..i];
  }

  // ---- Drawdown over all pairs --------------------------------------------------------------

  /** For a NAV that is not negative, a higher peak means a deeper decline. */
  lemma DeclineGrowsWithPeak(low: real, high: real, nav: real)
    requires 0.0 <= nav && low <= high && nav <= high
    ensures Decline(low, nav) <= Decline(high, nav)
    ensures 0.0 <= Decline(high, nav)
    ensures nav > 0.0 ==> Decline(high, nav) < 1.0
  {
    if high > 0.0 {
      ShareOf(high, nav);
      if low > 0.0 {
        ShareOf(low, nav);
        assert nav / high <= nav / low by {
          ReciprocalOrder(low, high, nav);
        }
      }
      ShareBounds(high, nav);
    }
  }

  /** A decline is the share of a positive peak that is gone. */
  lemma ShareOf(peak: real, nav: real)
    ensures if peak > 0.0 then Decline(peak, nav) == 1.0 - nav / peak else Decline(peak, nav) == 0.0
  {
    if peak > 0.0 {
      var share := nav / peak;
      assert share * peak == nav;
      assert Times(1.0 - share, peak) == peak - nav;
      OverUnique(peak - nav, peak, 1.0 - share);
    }
  }

  lemma ShareBounds(peak: real, nav: real)
    requires peak > 0.0 && 0.0 <= nav <= peak
    ensures 0.0 <= nav / peak <= 1.0
    ensures nav > 0.0 ==> nav / peak > 0.0
  {
    OverSign(nav, peak);
    TimesOver(nav, peak);
    TimesUnits(peak);
    TimesCancel(Over(nav, peak), 1.0, peak);
  }

  lemma ReciprocalOrder(low: real, high: real, nav: real)
    requires 0.0 < low <= high && nav >= 0.0
    ensures nav / high <= nav / low
  {
    var a, b := nav / high, nav / low;
    assert a * high == nav == b * low;
    TimesOrder(low, high, a) by {
      OverSign(nav, high);
      assert a == Over(nav, high);
    }
    assert a * low <= b * low;
    TimesCancel(a, b, low);
  }

  ghost predicate NonNegative(navs: seq<real>) {
    forall i :: 0 <= i < |navs| ==> navs[i] >= 0.0
  }

  /** `drawdown` is the maximum decline over all pairs of an earlier (or the same) and a later NAV. */
  ghost predicate IsMaxDecline(navs: seq<real>, drawdown: real) {
    && (forall i, j :: 0 <= i <= j < |navs| ==> Decline(navs[i], navs[j]) <= drawdown)
    && (exists i, j :: 0 <= i <= j < |navs| && Decline(navs[i], navs[j]) == drawdown)
  }

  /** Every decline from the running peak is within the running drawdown. */
  lemma {:induction false} RunningBounds(navs: seq<real>, m: nat)
    requires m < |navs|
    ensures Decline(Highest(navs[..m + 1]), navs[m]) <= RunningDrawdown(navs)
    ensures RunningDrawdown(navs) >= 0.0
    decreases |navs|
  {
    hide Decline, Highest;
    var n := |navs| - 1;
    if n == 0 {
      assert navs[..1] == navs && Highest(navs) == navs[0];
      SelfDecline(navs[0]);
    } else if m < n {
      RunningBounds(navs[..n], m);
      assert navs[..n][..m + 1] == navs[..m + 1];
    } else {
      RunningBounds(navs[..n], n - 1);
      assert navs[..m + 1] == navs;
    }
  }

  /** And it is one of them: the decline of some NAV from the highest one up to it. */
  lemma {:induction false} RunningAttained(navs: seq<real>) returns (m: nat)
    requires navs != []
    ensures m < |navs| && RunningDrawdown(navs) == Decline(Highest(navs[..m + 1]), navs[m])
  {
    hide Decline;
    var n := |navs| - 1;
    assert navs[..n + 1] == navs;
    if n == 0 {
      SelfDecline(navs[0]);
      m := 0;
    } else {
      m := RunningAttained(navs[..n]);
      assert navs[..n][..m + 1] == navs[..m + 1];
      if RunningDrawdown(navs) != RunningDrawdown(navs[..n]) {
        m := n;
      }
    }
  }

  /** More than everything can only be lost by falling below zero. */
  lemma TotalLossIsNegative(peak: real, nav: real)
    requires nav <= peak
    ensures Decline(peak, nav) > 1.0 <==> peak > 0.0 && nav < 0.0
  {
    if peak > 0.0 {
      ShareOf(peak, nav);
      OverSign(-nav, peak);
      assert nav / peak == -Over(-nav, peak);
    }
  }

  /**
   Every fall from a positive to a negative NAV is matched by a fall below zero, at least as deep,
   from the peak of its time - which is all the loop looks at.
   */
  ghost predicate FallsMatchedFromPeak(navs: seq<real>) {
    forall i, j :: 0 <= i <= j < |navs| && navs[i] > 0.0 && navs[j] < 0.0 ==>
      MatchedFromPeak(navs, Decline(navs[i], navs[j]))
  }

  ghost predicate MatchedFromPeak(navs: seq<real>, fall: real) {
    exists m :: 0 <= m < |navs| && navs[m] < 0.0 && Decline(Highest(navs[..m + 1]), navs[m]) >= fall
  }

  /** When the one-pass loop returns the maximum over all pairs, for any NAVs at all. */
  lemma OnePassIsMaxExactly(navs: seq<real>)
    requires navs != []
    ensures IsMaxDecline(navs, RunningDrawdown(navs)) <==> FallsMatchedFromPeak(navs)
  {
    hide Decline, RunningDrawdown;
    var m := RunningAttained(navs);
    var peak := Highest(navs[..m + 1]);
    TotalLossIsNegative(peak, navs[m]) by {
      assert navs[..m + 1][m] == navs[m];
    }
    if IsMaxDecline(navs, RunningDrawdown(navs)) {
      forall i, j | 0 <= i <= j < |navs| && navs[i] > 0.0 && navs[j] < 0.0
        ensures MatchedFromPeak(navs, Decline(navs[i], navs[j]))
      {
        TotalLossIsNegative(navs[i], navs[j]);
      }
    }
    if FallsMatchedFromPeak(navs) {
      forall i, j | 0 <= i <= j < |navs| ensures Decline(navs[i], navs[j]) <= RunningDrawdown(navs) {
        MatchedPair(navs, i, j);
      }
      var i :| 0 <= i < |navs[..m + 1]| && navs[..m + 1][i] == peak;
      assert Decline(navs[i], navs[m]) == RunningDrawdown(navs);
    }
  }

  lemma MatchedPair(navs: seq<real>, i: nat, j: nat)
    requires i <= j < |navs| && FallsMatchedFromPeak(navs)
    ensures Decline(navs[i], navs[j]) <= RunningDrawdown(navs)
  {
    hide RunningDrawdown;
    RunningBounds(navs, j);
    if navs[i] > 0.0 {
      if navs[j] < 0.0 {
        var fall := Decline(navs[i], navs[j]);
        var m :| 0 <= m < |navs| && navs[m] < 0.0 && Decline(Highest(navs[..m + 1]), navs[m]) >= fall;
        RunningBounds(navs, m);
      } else {
        assert navs[..j + 1][i] == navs[i] && navs[..j + 1][j] == navs[j];
        DeclineGrowsWithPeak(navs[i], Highest(navs[..j + 1]), navs[j]);
      }
    }
  }

  /** So it does for any NAVs that are not negative. */
  lemma OnePassIsMaxOverPairs(navs: seq<real>)
    requires navs != [] && NonNegative(navs)
    ensures IsMaxDecline(navs, RunningDrawdown(navs))
    ensures RunningDrawdown(navs) >= 0.0
  {
    OnePassIsMaxExactly(navs);
    RunningBounds(navs, 0);
  }

  lemma SelfDecline(nav: real)
    ensures Decline(nav, nav) == 0.0
  {
    if nav > 0.0 {
      OverSign(0.0, nav);
    }
  }

  /** With positive NAVs a drawdown is a proper fraction. */
  lemma {:induction false} DrawdownIsAFraction(navs: seq<real>)
    requires navs != [] && forall i :: 0 <= i < |navs| ==> navs[i] > 0.0
    ensures 0.0 <= RunningDrawdown(navs) < 1.0
  {
    hide Decline;
    if |navs| > 1 {
      DrawdownIsAFraction(navs[..|navs| - 1]);
      DeclineGrowsWithPeak(Highest(navs), Highest(navs), navs[|navs| - 1]);
    }
  }

  /** With a negative NAV the claim fails: the loop divides by the highest peak, a lower one gives more. */
  lemma NegativeNavBreaksTheMaximum()
    ensures var navs := [1.0, 2.0, -1.0];
            RunningDrawdown(navs) == 1.5 && Decline(navs[0], navs[2]) == 2.0 && !IsMaxDecline(navs, 1.5)
  {
    var navs := [1.0, 2.0, -1.0];
    assert navs[..2] == [1.0, 2.0] && [1.0, 2.0][..1] == [1.0];
    assert Highest([1.0]) == 1.0 && Highest([1.0, 2.0]) == 2.0 && Highest(navs) == 2.0;
    assert Decline(2.0, 2.0) == 0.0 && Decline(2.0, -1.0) == 1.5;
    assert RunningDrawdown([1.0]) == 0.0 && RunningDrawdown([1.0, 2.0]) == 0.0;
  }

  ghost function Scaled(navs: seq<real>, factor: real): (scaled: seq<real>)
    ensures |scaled| == |navs|
  {
    seq(|navs|, i requires 0 <= i < |navs| => Times(navs[i], factor))
  }

  lemma DeclineScales(peak: real, nav: real, factor: real)
    requires factor > 0.0
    ensures Decline(Times(peak, factor), Times(nav, factor)) == Decline(peak, nav)
  {
    hide Times, Over;
    if peak > 0.0 {
      var d := Over(peak - nav, peak);
      TimesSign(peak, factor);
      TimesOver(peak - nav, peak);
      Reassociate(d, peak, factor);
      TimesMinusLeft(peak, nav, factor);
      OverUnique(Times(peak, factor) - Times(nav, factor), Times(peak, factor), d);
    } else {
      TimesSign(-peak, factor);
      TimesNegate(peak, factor);
    }
  }

  /** Drawdown does not depend on the currency unit. */
  lemma {:induction false} DrawdownIsScaleFree(navs: seq<real>, factor: real)
    requires navs != [] && factor > 0.0
    ensures RunningDrawdown(Scaled(navs, factor)) == RunningDrawdown(navs)
    ensures Highest(Scaled(navs, factor)) == Times(Highest(navs), factor)
  {
    hide Decline, Times;
    if |navs| > 1 {
      var n := |navs| - 1;
      DrawdownIsScaleFree(navs[..n], factor);
      assert Scaled(navs, factor)[..n] == Scaled(navs[..n], factor);
      var a, b := Highest(navs[..n]), navs[n];
      if a <= b {
        TimesOrder(a, b, factor);
      } else {
        TimesOrder(b, a, factor);
      }
      DeclineScales(Highest(navs), b, factor);
    }
  }

  // ---- Returns ------------------------------------------------------------------------------

  /** The growth factor of a series of returns. */
  ghost function Compounded(series: seq<real>): real {
    if series == [] then 1.0 else Times(Compounded(series[..|series| - 1]), 1.0 + series[|series| - 1])
  }

  /** Each return is the move as a fraction of the NAV before it; after a NAV that is not positive it is 0. */
  lemma {:induction false} ReturnsExactly(navs: seq<real>, i: nat)
    requires i + 1 < |navs|
    ensures if navs[i] > 0.0 then Times(Returns(navs)[i], navs[i]) == navs[i + 1] - navs[i] else Returns(navs)[i] == 0.0
    decreases |navs|
  {
    hide Times, Over;
    var n := |navs| - 1;
    if i + 1 < n {
      ReturnsExactly(navs[..n], i);
    } else if navs[i] > 0.0 {
      TimesOver(navs[n] - navs[n - 1], navs[n - 1]);
    }
  }

  /** Compounding the returns of positive NAVs leads from the first NAV exactly to the last. */
  lemma {:induction false} ReturnsCompound(navs: seq<real>)
    requires navs != [] && forall i :: 0 <= i < |navs| ==> navs[i] > 0.0
    ensures Times(navs[0], Compounded(Returns(navs))) == navs[|navs| - 1]
  {
    hide Times, Over;
    if |navs| == 1 {
      TimesUnits(navs[0]);
    } else {
      var n := |navs| - 1;
      var r := Return(navs[n - 1], navs[n]);
      ReturnsCompound(navs[..n]);
      assert Returns(navs)[..n - 1] == Returns(navs[..n]);
      TimesOver(navs[n] - navs[n - 1], navs[n - 1]);
      TimesSplit(navs[n - 1], 1.0, r);
      TimesUnits(navs[n - 1]);
      Reassociate(navs[0], Compounded(Returns(navs[..n])), 1.0 + r);
    }
  }

  lemma Reassociate(x: real, y: real, z: real)
    ensures Times(x, Times(y, z)) == Times(Times(x, y), z)
  {
  }
}
