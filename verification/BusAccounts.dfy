/**
 Exact accounts of the event bus over every run: what became of each publication, of each event a
 worker finished and of each one a stop met, told from the actions and the queues alone.
 */
module BusAccounts {
  import opened Base
  import opened Routing
  import opened BusSpec
  import opened BusTheorems

  // ---- Load shedding ------------------------------------------------------------------------

  const CRITICAL_KINDS: set<EventType> := {Order, Fill, Risk, Signal, GapDetected, System, Error}
  const LOW_KINDS: set<EventType> := {Heartbeat, ClockSync, FeedbackUpdate, Drift}

  /** The queue is longer than an event of this type may meet. */
  predicate TooLong(limits: Thresholds, kind: EventType, size: nat) {
    kind !in CRITICAL_KINDS && size > (if kind in LOW_KINDS then limits.warning else limits.throttle)
  }

  lemma ShedsExactly(limits: Thresholds, kind: EventType, size: nat)
    ensures ShouldDrop(limits, size, kind) <==> TooLong(limits, kind, size)
    ensures GetPriority(kind) == Critical <==> kind in CRITICAL_KINDS
    ensures GetPriority(kind) == Low <==> kind in LOW_KINDS
  {
  }

  /** The queue that an event would join. */
  ghost function QueueAhead(cfg: Config, b: Bus, e: Event): nat
    requires ValidConfig(cfg) && |b.parts| == cfg.partitions
  {
    |b.parts[Route(cfg, e)].queue|
  }

  /** A publication to a running bus, and whether its queue was too long for it. */
  predicate Live(b: Bus, a: Action) {
    a.DoPublish? && b.running
  }

  ghost predicate Shed(cfg: Config, b: Bus, a: Action)
    requires ValidConfig(cfg) && |b.parts| == cfg.partitions
  {
    Live(b, a) && TooLong(cfg.limits, a.event.kind, QueueAhead(cfg, b, a.event))
  }

  ghost function LiveCount(cfg: Config, actions: seq<Action>): nat
    requires ValidConfig(cfg)
  {
    if actions == [] then 0
    else
      var n := |actions| - 1;
      LiveCount(cfg, actions[..n]) + (if Live(Run(cfg, actions[..n]), actions[n]) then 1 else 0)
  }

  ghost function ShedCount(cfg: Config, actions: seq<Action>): nat
    requires ValidConfig(cfg)
  {
    if actions == [] then 0
    else
      var n := |actions| - 1;
      ShedCount(cfg, actions[..n]) + (if Shed(cfg, Run(cfg, actions[..n]), actions[n]) then 1 else 0)
  }

  /** How often the event, keyed as `publish` keys it, met a queue too long for it. */
  ghost function ShedPublications(cfg: Config, actions: seq<Action>, x: Event): nat
    requires ValidConfig(cfg)
  {
    if actions == [] then 0
    else
      var n := |actions| - 1;
      ShedPublications(cfg, actions[..n], x)
        + (if Shed(cfg, Run(cfg, actions[..n]), actions[n]) then Once(Keyed(actions[n].event), x) else 0)
  }

  lemma PublishAccount(cfg: Config, b: Bus, e: Event, x: Event)
    requires ValidConfig(cfg) && |b.parts| == cfg.partitions
    ensures var after, kept := Publish(cfg, b, e), b.running && !Shed(cfg, b, DoPublish(e));
            && Kept(after, x) == Kept(b, x) + (if kept then Once(Keyed(e), x) else 0)
            && |after.log| + |after.blocked| == |b.log| + |b.blocked| + (if kept then 1 else 0)
            && after.dropped == b.dropped + (if Shed(cfg, b, DoPublish(e)) then 1 else 0)
  {
    hide Occurrences, Route;
    ShedsExactly(cfg.limits, e.kind, QueueAhead(cfg, b, e));
    OccurrencesAppend(b.log, Keyed(e), x);
    OccurrencesAppend(b.blocked, Keyed(e), x);
  }

  lemma OtherStepsAccount(cfg: Config, b: Bus, a: Action)
    requires ValidConfig(cfg) && |b.parts| == cfg.partitions && !a.DoPublish?
    ensures var after := Step(cfg, b, a);
            |after.log| + |after.blocked| == |b.log| + |b.blocked| && after.dropped == b.dropped
  {
    hide Take, Deliver, Finish, Cancel, Route;
  }

  /** Every publication to a running bus is accepted, waits for room, or is dropped - for a too long queue. */
  lemma {:induction false} PublicationsAccounted(cfg: Config, actions: seq<Action>)
    requires ValidConfig(cfg)
    ensures var b := Run(cfg, actions);
            && |b.log| + |b.blocked| + b.dropped == LiveCount(cfg, actions)
            && b.dropped == ShedCount(cfg, actions)
  {
    hide Step, Publish, Shed;
    if actions != [] {
      var n := |actions| - 1;
      var b, a := Run(cfg, actions[..n]), actions[n];
      PublicationsAccounted(cfg, actions[..n]);
      if a.DoPublish? {
        PublishAccount(cfg, b, a.event, a.event);
        PublishStep(cfg, b, a.event);
        NothingShedWhenStopped(cfg, b, a);
      } else {
        OtherStepsAccount(cfg, b, a);
        NothingShedWhenStopped(cfg, b, a);
      }
    }
  }

  lemma NothingShedWhenStopped(cfg: Config, b: Bus, a: Action)
    requires ValidConfig(cfg) && |b.parts| == cfg.partitions
    ensures Shed(cfg, b, a) ==> Live(b, a)
  {
  }

  lemma PublishStep(cfg: Config, b: Bus, e: Event)
    requires ValidConfig(cfg) && |b.parts| == cfg.partitions
    ensures Step(cfg, b, DoPublish(e)) == Publish(cfg, b, e)
  {
  }

  /** Event by event: the copies kept are its publications, less those that met a queue too long for it. */
  lemma {:induction false} KeptExactly(cfg: Config, actions: seq<Action>, x: Event)
    requires ValidConfig(cfg)
    ensures Kept(Run(cfg, actions), x) + ShedPublications(cfg, actions, x) == LivePublications(cfg, actions, x)
  {
    hide Step, Publish, Shed, Kept;
    if actions == [] {
      assert Kept(Initial(cfg), x) == 0 by { NothingKept(cfg, x); }
    } else {
      var n := |actions| - 1;
      var b, a := Run(cfg, actions[..n]), actions[n];
      KeptExactly(cfg, actions[..n], x);
      NothingShedWhenStopped(cfg, b, a);
      if a.DoPublish? {
        PublishAccount(cfg, b, a.event, x);
        PublishStep(cfg, b, a.event);
      } else {
        OtherStepsKeep(cfg, b, a, x);
      }
    }
  }

  lemma NothingKept(cfg: Config, x: Event)
    requires ValidConfig(cfg)
    ensures Kept(Initial(cfg), x) == 0
  {
  }

  /** No publication of the event meets a queue too long for its type. */
  ghost predicate QueuesShortEnough(cfg: Config, actions: seq<Action>, x: Event)
    requires ValidConfig(cfg)
  {
    forall i :: 0 <= i < |actions| && actions[i].DoPublish? && Keyed(actions[i].event) == x ==>
      !TooLong(cfg.limits, x.kind, QueueAhead(cfg, Run(cfg, actions[..i]), x))
  }

  /** In a run that never gets too busy for its type, every live publication of an event is kept. */
  lemma CalmRunsKeepEverything(cfg: Config, actions: seq<Action>, x: Event)
    requires ValidConfig(cfg) && QueuesShortEnough(cfg, actions, x)
    ensures Kept(Run(cfg, actions), x) == LivePublications(cfg, actions, x)
  {
    KeptExactly(cfg, actions, x);
    NothingShed(cfg, actions, x);
  }

  lemma {:induction false} NothingShed(cfg: Config, actions: seq<Action>, x: Event)
    requires ValidConfig(cfg) && QueuesShortEnough(cfg, actions, x)
    ensures ShedPublications(cfg, actions, x) == 0
  {
    hide Step, TooLong, Route;
    if actions != [] {
      var n := |actions| - 1;
      assert QueuesShortEnough(cfg, actions[..n], x) by {
        assert forall i :: 0 <= i < n ==> actions[..n][i] == actions[i] && actions[..n][..i] == actions[..i];
      }
      NothingShed(cfg, actions[..n], x);
      if actions[n].DoPublish? {
        RoutesAgree(cfg, actions[n].event);
      }
    }
  }

  // ---- Waiting publishers -------------------------------------------------------------------

  /** A publication that is not shed waits exactly when its queue is full; otherwise it is the last of it. */
  lemma WaitsExactlyWhenFull(cfg: Config, b: Bus, e: Event)
    requires ValidConfig(cfg) && |b.parts| == cfg.partitions && b.running && !Shed(cfg, b, DoPublish(e))
    ensures var after := Publish(cfg, b, e);
            if QueueAhead(cfg, b, e) < cfg.capacity
            then after.log == b.log + [Keyed(e)] && after.blocked == b.blocked
                 && after.parts[Route(cfg, e)].queue == b.parts[Route(cfg, e)].queue + [Keyed(e)]
            else after.blocked == b.blocked + [Keyed(e)] && after.log == b.log && after.parts == b.parts
  {
    ShedsExactly(cfg.limits, e.kind, QueueAhead(cfg, b, e));
    RoutesAgree(cfg, e);
  }

  /** A waiting publisher gets in exactly when there is room, and then its event is the last of its queue. */
  lemma AdmittedExactly(cfg: Config, b: Bus, k: nat)
    requires ValidConfig(cfg) && |b.parts| == cfg.partitions && k < |b.blocked|
    ensures var after, e := Admit(cfg, b, k), b.blocked[k];
            if QueueAhead(cfg, b, e) < cfg.capacity
            then after.log == b.log + [e] && after.blocked == b.blocked[..k] + b.blocked[k + 1..]
                 && after.parts[Route(cfg, e)].queue == b.parts[Route(cfg, e)].queue + [e]
            else after == b
  {
  }

  // ---- Progress -----------------------------------------------------------------------------

  lemma OneMoreStep(cfg: Config, actions: seq<Action>, a: Action)
    requires ValidConfig(cfg)
    ensures Run(cfg, actions + [a]) == Step(cfg, Run(cfg, actions), a)
  {
    assert (actions + [a])[..|actions|] == actions;
  }

  predicate WorkerStep(a: Action, p: nat) {
    a == DoTake(p) || a == DoDeliver(p) || a == DoFinish(p, true)
  }

  function TurnsLeft(cfg: Config, worker: Worker): nat {
    match worker
    case Busy(e, served) => if served <= |cfg.handlers(e.kind)| then |cfg.handlers(e.kind)| - served + 1 else 1
    case _ => 0
  }

  /**
   No event is stuck: from every reachable state of a running bus the steps of one worker alone lead to
   where its queue is empty and its hands are free - so everything accepted there has been delivered.
   */
  lemma {:induction false} WorkerDrains(cfg: Config, actions: seq<Action>, p: nat) returns (more: seq<Action>)
    requires ValidConfig(cfg) && p < cfg.partitions && Run(cfg, actions).running
    ensures forall i :: 0 <= i < |more| ==> WorkerStep(more[i], p)
    ensures var part := Run(cfg, actions + more).parts[p];
            part.queue == [] && part.worker == Idle
            && Events(part.retired) == AcceptedBy(cfg, Run(cfg, actions).log, p)
    decreases |Run(cfg, actions).parts[p].queue|, TurnsLeft(cfg, Run(cfg, actions).parts[p].worker)
  {
    hide Run, AcceptedBy, Route;
    RunKeepsInvariant(cfg, actions);
    var part := Run(cfg, actions).parts[p];
    if part.worker == Idle && part.queue == [] {
      more := [];
      assert actions + [] == actions;
      assert Events(part.retired) + [] + [] == Events(part.retired);
    } else {
      var a := if part.worker.Idle? then DoTake(p)
               else if part.worker.served < |cfg.handlers(part.worker.event.kind)| then DoDeliver(p)
               else DoFinish(p, true);
      OneMoreStep(cfg, actions, a);
      var rest := WorkerDrains(cfg, actions + [a], p);
      more := [a] + rest;
      assert actions + more == actions + [a] + rest;
    }
  }

  // ---- Finished events ----------------------------------------------------------------------

  /** The worker of partition `p` has an event that every handler has had. */
  predicate Done(cfg: Config, b: Bus, p: nat) {
    p < |b.parts| && b.parts[p].worker.Busy? && b.parts[p].worker.served >= |cfg.handlers(b.parts[p].worker.event.kind)|
  }

  /** The events of partition `p` whose store append succeeded, in the order of the finishing steps. */
  ghost function Stored(cfg: Config, actions: seq<Action>, p: nat): seq<Event>
    requires ValidConfig(cfg)
  {
    if actions == [] then []
    else
      var n := |actions| - 1;
      var b := Run(cfg, actions[..n]);
      Stored(cfg, actions[..n], p)
        + (if actions[n] == DoFinish(p, true) && Done(cfg, b, p) then [b.parts[p].worker.event] else [])
  }

  /** The events finished in any partition, but for those whose append to a configured store failed. */
  ghost function FinishedCount(cfg: Config, actions: seq<Action>): nat
    requires ValidConfig(cfg)
  {
    if actions == [] then 0
    else
      var n := |actions| - 1;
      var a := actions[n];
      FinishedCount(cfg, actions[..n])
        + (if a.DoFinish? && Done(cfg, Run(cfg, actions[..n]), a.worker) && (a.stored || !cfg.store) then 1 else 0)
  }

  lemma PersistedStep(cfg: Config, b: Bus, a: Action, p: nat)
    requires ValidConfig(cfg) && |b.parts| == cfg.partitions && p < cfg.partitions
    ensures Step(cfg, b, a).parts[p].persisted
         == b.parts[p].persisted
            + (if cfg.store && a == DoFinish(p, true) && Done(cfg, b, p) then [b.parts[p].worker.event] else [])
  {
    hide Route;
    assert b.parts[p].persisted + [] == b.parts[p].persisted;
  }

  /** With a store, exactly the events whose append succeeded are persisted; without one, none is. */
  lemma {:induction false} PersistedExactly(cfg: Config, actions: seq<Action>, p: nat)
    requires ValidConfig(cfg) && p < cfg.partitions
    ensures Run(cfg, actions).parts[p].persisted == (if cfg.store then Stored(cfg, actions, p) else [])
  {
    hide Step, Done;
    if actions != [] {
      var n := |actions| - 1;
      PersistedExactly(cfg, actions[..n], p);
      PersistedStep(cfg, Run(cfg, actions[..n]), actions[n], p);
    }
  }

  lemma ProcessedStep(cfg: Config, b: Bus, a: Action)
    requires ValidConfig(cfg) && |b.parts| == cfg.partitions
    ensures Step(cfg, b, a).processed
         == b.processed + (if a.DoFinish? && Done(cfg, b, a.worker) && (a.stored || !cfg.store) then 1 else 0)
  {
    hide Route;
  }

  /** The counter of processed events counts exactly the finished ones that were not lost to the store. */
  lemma {:induction false} ProcessedExactly(cfg: Config, actions: seq<Action>)
    requires ValidConfig(cfg)
    ensures Run(cfg, actions).processed == FinishedCount(cfg, actions)
  {
    hide Step, Done;
    if actions != [] {
      var n := |actions| - 1;
      ProcessedExactly(cfg, actions[..n]);
      ProcessedStep(cfg, Run(cfg, actions[..n]), actions[n]);
    }
  }

  // ---- Stops --------------------------------------------------------------------------------

  /** Stops that met the worker of partition `p` with an event in hand. */
  ghost function Interruptions(cfg: Config, actions: seq<Action>, p: nat): nat
    requires ValidConfig(cfg) && p < cfg.partitions
  {
    if actions == [] then 0
    else
      var n := |actions| - 1;
      var b := Run(cfg, actions[..n]);
      Interruptions(cfg, actions[..n], p)
        + (if actions[n].DoStop? && b.running && b.parts[p].worker.Busy? then 1 else 0)
  }

  lemma CancelledStep(cfg: Config, b: Bus, a: Action, p: nat)
    requires ValidConfig(cfg) && |b.parts| == cfg.partitions && p < cfg.partitions
    ensures CountCancelled(Step(cfg, b, a).parts[p].retired)
         == CountCancelled(b.parts[p].retired) + (if a.DoStop? && b.running && b.parts[p].worker.Busy? then 1 else 0)
  {
    hide Take, Deliver, Finish, Cancel, CountCancelled, Judge, Route;
    PartCancels(cfg, b.parts[p], a.DoFinish? && a.stored);
  }

  /** Exactly the events that a stop found in a worker's hand are abandoned. */
  lemma {:induction false} CancelledExactly(cfg: Config, actions: seq<Action>, p: nat)
    requires ValidConfig(cfg) && p < cfg.partitions
    ensures CountCancelled(Run(cfg, actions).parts[p].retired) == Interruptions(cfg, actions, p)
  {
    hide Step;
    if actions != [] {
      var n := |actions| - 1;
      CancelledExactly(cfg, actions[..n], p);
      CancelledStep(cfg, Run(cfg, actions[..n]), actions[n], p);
    }
  }

  lemma BridgeStep(cfg: Config, b: Bus, a: Action)
    requires ValidConfig(cfg) && |b.parts| == cfg.partitions && b.bridged == (b.running && cfg.redis)
    ensures var after := Step(cfg, b, a);
            && after.bridged == (after.running && cfg.redis)
            && after.running == (if a.DoStart? then true else if a.DoStop? then false else b.running)
  {
    hide Take, Deliver, Finish, Cancel, Route;
  }

  /** The bus runs exactly between a start and the next stop, and its bridge is up exactly then. */
  ghost function Started(actions: seq<Action>): bool {
    if actions == [] then false
    else
      var a := actions[|actions| - 1];
      if a.DoStart? then true else if a.DoStop? then false else Started(actions[..|actions| - 1])
  }

  lemma {:induction false} RunsBetweenStartAndStop(cfg: Config, actions: seq<Action>)
    requires ValidConfig(cfg)
    ensures Run(cfg, actions).running == Started(actions)
    ensures Run(cfg, actions).bridged == (Started(actions) && cfg.redis)
  {
    hide Step;
    if actions != [] {
      RunsBetweenStartAndStop(cfg, actions[..|actions| - 1]);
      BridgeStep(cfg, Run(cfg, actions[..|actions| - 1]), actions[|actions| - 1]);
    }
  }
}
