/** Escalation of repeated recoverable errors (qtrader/core/fail_fast_engine.py). */
module FailFast {
  import opened Base

  /** The error taxonomy; an exception outside it is classified as fatal. */
  datatype Error = Recoverable | Validation | Critical | Fatal | Unclassified

  datatype Response = Retry | Isolate | Halt

  datatype Escalation = Escalation(count: nat, first: real)

  /**
   One handled error. `now` is the clock reading of the window check, `created` the later reading
   that a source's first entry takes as its window start.
   */
  datatype Entry = Entry(source: string, error: Error, now: real, created: real)

  datatype Config = Config(maxRetries: nat, window: real)

  type Windows = map<string, Escalation>

  function Classify(e: Error): Error {
    if e == Unclassified then Fatal else e
  }

  function Severity(e: Error): int {
    match Classify(e)
    case Recoverable | Validation => 1
    case Critical => 2
    case _ => 3
  }

  /** The window an error of this source falls into, with the error counted. */
  function Counted(cfg: Config, windows: Windows, e: Entry): Escalation {
    var state := Get(windows, e.source, Escalation(0, e.created));
    if e.now - state.first > cfg.window then Escalation(1, e.now) else state.(count := state.count + 1)
  }

  predicate Escalates(cfg: Config, windows: Windows, e: Entry) {
    e.error.Recoverable? && Counted(cfg, windows, e).count > cfg.maxRetries
  }

  function Handle(cfg: Config, windows: Windows, e: Entry): Windows {
    if e.error.Recoverable? then windows[e.source := Counted(cfg, windows, e)] else windows
  }

  /** A recoverable error that was not escalated. */
  predicate Passes(cfg: Config, windows: Windows, e: Entry) {
    e.error.Recoverable? && !Escalates(cfg, windows, e)
  }

  function Respond(cfg: Config, windows: Windows, e: Entry): Response {
    if Escalates(cfg, windows, e) then Isolate
    else if Severity(e.error) >= 3 then Halt
    else if Severity(e.error) == 2 then Isolate
    else Retry
  }

  /** Only fatal and unclassified errors halt the system; escalation never does. */
  lemma OnlyFatalHalts(cfg: Config, windows: Windows, e: Entry)
    ensures Respond(cfg, windows, e) == Halt <==> e.error in {Fatal, Unclassified}
    ensures Respond(cfg, windows, e) == Retry <==> e.error == Validation || Passes(cfg, windows, e)
  {
  }

  class FailFastEngine {
    const config: Config
    var windows: Windows
    var triggerCount: nat
    var haltCount: nat

    constructor (config: Config)
      ensures this.config == config && windows == map[] && triggerCount == 0 && haltCount == 0
    {
      this.config := config;
      windows, triggerCount, haltCount := map[], 0, 0;
    }

    /** `handle_error` */
    method HandleError(e: Entry) returns (response: Response)
      modifies this
      ensures windows == Handle(config, old(windows), e)
      ensures response == Respond(config, old(windows), e)
      ensures triggerCount == old(triggerCount) + 1
      ensures haltCount == old(haltCount) + if e.error in {Fatal, Unclassified} then 1 else 0
    {
      triggerCount := triggerCount + 1;
      var classified := if e.error == Unclassified then Fatal else e.error;
      var final := ApplyEscalation(classified, e);
      var severity := Severity(final);
      if severity >= 3 {
        haltCount := haltCount + 1;
        response := Halt;
      } else if severity == 2 {
        response := Isolate;
      } else {
        response := Retry;
      }
    }

    /** `_apply_escalation` */
    method ApplyEscalation(classified: Error, e: Entry) returns (final: Error)
      requires classified == Classify(e.error)
      modifies this`windows
      ensures windows == Handle(config, old(windows), e)
      ensures final == if Escalates(config, old(windows), e) then Critical else classified
    {
      if classified != Recoverable {
        return classified;
      }
      var state := Get(windows, e.source, Escalation(0, e.created));
      if e.now - state.first > config.window {
        state := Escalation(0, e.now);
      }
      state := state.(count := state.count + 1);
      windows := windows[e.source := state];
      if state.count > config.maxRetries {
        return Critical;
      }
      final := classified;
    }
  }

  // ---- Runs ---------------------------------------------------------------------------------

  function Run(cfg: Config, entries: seq<Entry>): Windows {
    if entries == [] then map[] else Handle(cfg, Run(cfg, entries[..|entries| - 1]), entries[|entries| - 1])
  }

  /** A non-decreasing clock, read in order. */
  ghost predicate Ordered(entries: seq<Entry>) {
    && (forall i :: 0 <= i < |entries| ==> entries[i].now <= entries[i].created)
    && (forall i, j :: 0 <= i < j < |entries| ==> entries[i].created <= entries[j].now)
  }

  predicate IsOwn(e: Entry, source: string) {
    e.source == source && e.error.Recoverable?
  }

  /** Errors of the source let through at times in `[low, high]`. */
  ghost function PassedWithin(cfg: Config, entries: seq<Entry>, source: string, low: real, high: real): nat {
    if entries == [] then 0
    else
      var shorter, e := entries[..|entries| - 1], entries[|entries| - 1];
      PassedWithin(cfg, shorter, source, low, high)
        + (if e.source == source && low <= e.now <= high && Passes(cfg, Run(cfg, shorter), e) then 1 else 0)
  }

  /** Those of them that fall into the source's current window. */
  ghost function PassedInWindow(cfg: Config, entries: seq<Entry>, source: string, low: real, high: real): nat {
    if entries == [] then 0
    else
      var shorter, e := entries[..|entries| - 1], entries[|entries| - 1];
      var before := Run(cfg, shorter);
      if e.source != source || !e.error.Recoverable? then PassedInWindow(cfg, shorter, source, low, high)
      else
        (if Counted(cfg, before, e).count == 1 then 0 else PassedInWindow(cfg, shorter, source, low, high))
          + (if low <= e.now <= high && Passes(cfg, before, e) then 1 else 0)
  }

  /**
   Why two windows at most matter: errors let through in an earlier window put the start of the
   current one after `low`, so the window after it starts after `high`. `all` errors passed within
   `[low, high]`, `current` of them in the present window; `over` says that the clock is past `high`.
   */
  ghost predicate Fits(cfg: Config, window: Option<Escalation>, all: nat, current: nat, low: real, high: real,
                       over: bool)
  {
    match window
    case None => all == 0 && current == 0
    case Some(w) =>
      && w.count >= 1
      && current <= (if w.count <= cfg.maxRetries then w.count else cfg.maxRetries)
      && current <= all
      && (all > 0 ==> low <= high && low <= w.first + cfg.window)
      && (|| (all - current <= cfg.maxRetries && (all > current ==> low < w.first))
          || (all <= 2 * cfg.maxRetries && over))
  }

  function WindowOf(windows: Windows, source: string): Option<Escalation> {
    if source in windows then Some(windows[source]) else None
  }

  ghost predicate TwoWindows(cfg: Config, entries: seq<Entry>, source: string, low: real, high: real) {
    Fits(cfg, WindowOf(Run(cfg, entries), source), PassedWithin(cfg, entries, source, low, high),
         PassedInWindow(cfg, entries, source, low, high), low, high,
         entries != [] && high < entries[|entries| - 1].created)
  }

  /** One own error, on the values alone. */
  lemma OwnErrorFits(cfg: Config, windows: Windows, e: Entry, all: nat, current: nat, low: real, high: real, over: bool)
    requires e.error.Recoverable? && e.now <= e.created && high - low <= cfg.window && (over ==> high < e.now)
    requires Fits(cfg, WindowOf(windows, e.source), all, current, low, high, over)
    ensures var after := Counted(cfg, windows, e);
            var passes := if low <= e.now <= high && after.count <= cfg.maxRetries then 1 else 0;
            Fits(cfg, Some(after), all + passes, (if after.count == 1 then 0 else current) + passes, low, high,
                 high < e.created)
  {
  }

  /** Errors of other sources and kinds change nothing but the clock. */
  lemma OtherErrorFits(cfg: Config, windows: Windows, e: Entry, source: string, all: nat, current: nat, low: real,
                       high: real, over: bool)
    requires !IsOwn(e, source) && e.now <= e.created && (over ==> high < e.now)
    requires Fits(cfg, WindowOf(windows, source), all, current, low, high, over)
    ensures Fits(cfg, WindowOf(Handle(cfg, windows, e), source), all, current, low, high, high < e.created)
  {
    hide Counted;
  }

  lemma StepKeepsTwoWindows(cfg: Config, entries: seq<Entry>, source: string, low: real, high: real)
    requires entries != [] && Ordered(entries) && high - low <= cfg.window
    requires TwoWindows(cfg, entries[..|entries| - 1], source, low, high)
    ensures TwoWindows(cfg, entries, source, low, high)
  {
    hide Fits, Counted, Run, PassedWithin, PassedInWindow, WindowOf, Ordered;
    var n := |entries| - 1;
    var shorter, e := entries[..n], entries[n];
    var all, current := PassedWithin(cfg, shorter, source, low, high), PassedInWindow(cfg, shorter, source, low, high);
    var over := shorter != [] && high < shorter[|shorter| - 1].created;
    ClockMovesOn(entries);
    LastEntry(cfg, entries, source, low, high);
    if IsOwn(e, source) {
      OwnErrorFits(cfg, Run(cfg, shorter), e, all, current, low, high, over);
    } else {
      OtherErrorFits(cfg, Run(cfg, shorter), e, source, all, current, low, high, over);
    }
  }

  lemma ClockMovesOn(entries: seq<Entry>)
    requires entries != [] && Ordered(entries)
    ensures entries[|entries| - 1].now <= entries[|entries| - 1].created
    ensures |entries| > 1 ==> entries[|entries| - 2].created <= entries[|entries| - 1].now
  {
  }

  /** What the last entry adds to the windows and to the two counts. */
  lemma LastEntry(cfg: Config, entries: seq<Entry>, source: string, low: real, high: real)
    requires entries != []
    ensures var shorter, e := entries[..|entries| - 1], entries[|entries| - 1];
            var before, after := Run(cfg, shorter), Counted(cfg, Run(cfg, shorter), e);
            var passes := if IsOwn(e, source) && low <= e.now <= high && after.count <= cfg.maxRetries then 1 else 0;
            && Run(cfg, entries) == Handle(cfg, before, e)
            && PassedWithin(cfg, entries, source, low, high) == PassedWithin(cfg, shorter, source, low, high) + passes
            && PassedInWindow(cfg, entries, source, low, high)
                 == (if IsOwn(e, source) && after.count == 1 then 0
                     else PassedInWindow(cfg, shorter, source, low, high)) + passes
            && (IsOwn(e, source) ==> WindowOf(Run(cfg, entries), source) == Some(after))
  {
    hide Counted;
  }

  lemma {:induction false} RunKeepsTwoWindows(cfg: Config, entries: seq<Entry>, source: string, low: real, high: real)
    requires Ordered(entries) && high - low <= cfg.window
    ensures TwoWindows(cfg, entries, source, low, high)
  {
    hide Run, PassedWithin, PassedInWindow;
    if entries == [] {
      NothingPassed(cfg, source, low, high);
    } else {
      RunKeepsTwoWindows(cfg, entries[..|entries| - 1], source, low, high);
      StepKeepsTwoWindows(cfg, entries, source, low, high);
    }
  }

  lemma NothingPassed(cfg: Config, source: string, low: real, high: real)
    ensures TwoWindows(cfg, [], source, low, high)
  {
  }

  /**
   The escalation bound: any closed interval no longer than the window contains at most
   `2 * maxRetries` recoverable errors of one source that are not escalated.
   */
  lemma EscalationBound(cfg: Config, entries: seq<Entry>, source: string, low: real, high: real)
    requires Ordered(entries) && high - low <= cfg.window
    ensures PassedWithin(cfg, entries, source, low, high) <= 2 * cfg.maxRetries
  {
    RunKeepsTwoWindows(cfg, entries, source, low, high);
  }

  /** The recoverable errors of the source, among errors of any source and kind. */
  function Own(entries: seq<Entry>, source: string): nat {
    if entries == [] then 0
    else Own(entries[..|entries| - 1], source) + (if IsOwn(entries[|entries| - 1], source) then 1 else 0)
  }

  ghost predicate WithinWindow(cfg: Config, first: real, more: seq<Entry>, source: string) {
    forall i :: 0 <= i < |more| && IsOwn(more[i], source) ==> more[i].now - first <= cfg.window
  }

  /** Inside a window a source's state just counts its own errors, whatever else happens in between. */
  lemma {:induction false} WindowCounts(cfg: Config, entries: seq<Entry>, more: seq<Entry>, source: string)
    requires source in Run(cfg, entries) && WithinWindow(cfg, Run(cfg, entries)[source].first, more, source)
    ensures var state, after := Run(cfg, entries)[source], Run(cfg, entries + more);
            source in after && after[source] == Escalation(state.count + Own(more, source), state.first)
  {
    if more == [] {
      assert entries + more == entries;
    } else {
      var n, longer := |more| - 1, entries + more;
      WindowCounts(cfg, entries, more[..n], source);
      assert longer[..|longer| - 1] == entries + more[..n] && longer[|longer| - 1] == more[n];
    }
  }

  /** The error opens a window: it is the source's first, or the previous window has expired. */
  predicate OpensWindow(cfg: Config, windows: Windows, e: Entry) {
    e.source !in windows || e.now - windows[e.source].first > cfg.window
  }

  /** When an opened window starts: at the first error of a source, or at the error that found the old one expired. */
  lemma WindowStart(cfg: Config, windows: Windows, e: Entry)
    requires OpensWindow(cfg, windows, e)
    ensures Counted(cfg, windows, e).first
         == (if e.source !in windows && e.now - e.created <= cfg.window then e.created else e.now)
  {
  }

  /**
   Within one window exactly the first `maxRetries` errors of a source are let through, the opening
   one included: an error of the source passes if and only if fewer than `maxRetries` of its errors
   came before it since the window opened, with errors of other sources and kinds in between or not.
   */
  lemma FirstRetriesPass(cfg: Config, entries: seq<Entry>, more: seq<Entry>, source: string, i: nat)
    requires i < |more| && IsOwn(more[0], source) && IsOwn(more[i], source)
    requires OpensWindow(cfg, Run(cfg, entries), more[0])
    requires var first := source !in Run(cfg, entries) && more[0].now - more[0].created <= cfg.window;
             WithinWindow(cfg, if first then more[0].created else more[0].now, more[1..], source)
    ensures Passes(cfg, Run(cfg, entries + more[..i]), more[i]) <==> Own(more[..i], source) < cfg.maxRetries
  {
    hide Run, Counted, Own;
    WindowStart(cfg, Run(cfg, entries), more[0]);
    if i == 0 {
      assert entries + more[..0] == entries && more[..0] == [];
      OpeningError(cfg, Run(cfg, entries), more[0], source);
    } else {
      var middle := more[1..i];
      assert forall k :: 0 <= k < |middle| ==> middle[k] == more[1..][k];
      AfterOpening(cfg, entries, more[0], middle, source);
      assert more[..i] == [more[0]] + middle && entries + more[..i] == entries + [more[0]] + middle;
      LaterError(cfg, Run(cfg, entries + more[..i]), more[i]) by {
        assert more[i] == more[1..][i - 1];
      }
    }
  }

  lemma OpeningError(cfg: Config, windows: Windows, e: Entry, source: string)
    requires e.error.Recoverable? && OpensWindow(cfg, windows, e)
    ensures (Passes(cfg, windows, e) <==> 0 < cfg.maxRetries) && Own([], source) == 0
  {
  }

  lemma LaterError(cfg: Config, windows: Windows, e: Entry)
    requires e.error.Recoverable? && !OpensWindow(cfg, windows, e)
    ensures Passes(cfg, windows, e) <==> windows[e.source].count < cfg.maxRetries
  {
  }

  /** The window right after the error that opened it, and some errors further. */
  lemma AfterOpening(cfg: Config, entries: seq<Entry>, opening: Entry, middle: seq<Entry>, source: string)
    requires IsOwn(opening, source) && OpensWindow(cfg, Run(cfg, entries), opening)
    requires WithinWindow(cfg, Counted(cfg, Run(cfg, entries), opening).first, middle, source)
    ensures var after := Run(cfg, entries + [opening] + middle);
            && source in after && after[source].count == Own([opening] + middle, source)
            && after[source].first == Counted(cfg, Run(cfg, entries), opening).first
  {
    var longer := entries + [opening];
    assert longer[..|entries|] == entries;
    WindowCounts(cfg, longer, middle, source);
    OwnAfterFirst([opening] + middle, source);
    assert ([opening] + middle)[1..] == middle;
  }

  lemma {:induction false} OwnAfterFirst(entries: seq<Entry>, source: string)
    requires entries != []
    ensures Own(entries, source) == Own(entries[1..], source) + (if IsOwn(entries[0], source) then 1 else 0)
  {
    var n := |entries| - 1;
    if n > 0 {
      OwnAfterFirst(entries[..n], source);
      assert entries[..n][1..] == entries[1..][..n - 1];
    }
  }

  /** From inside a window likewise, counting on from what the window already holds. */
  lemma LaterRetriesPass(cfg: Config, entries: seq<Entry>, more: seq<Entry>, source: string, i: nat)
    requires i < |more| && IsOwn(more[i], source) && source in Run(cfg, entries)
    requires WithinWindow(cfg, Run(cfg, entries)[source].first, more, source)
    ensures Passes(cfg, Run(cfg, entries + more[..i]), more[i])
       <==> Run(cfg, entries)[source].count + Own(more[..i], source) < cfg.maxRetries
  {
    WindowCounts(cfg, entries, more[..i], source);
  }

  /** Errors of other sources, and errors of other kinds, leave a source's window alone. */
  lemma SourcesAreIndependent(cfg: Config, windows: Windows, e: Entry, source: string)
    requires e.source != source || !e.error.Recoverable?
    ensures Get(Handle(cfg, windows, e), source, Escalation(0, 0.0)) == Get(windows, source, Escalation(0, 0.0))
  {
  }
}
