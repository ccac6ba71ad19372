/** Order, loss, delivery, persistence and occupancy over every run of the event bus. */
module BusTheorems {
  import opened Base
  import opened Routing
  import opened BusSpec

  // ---- One partition ------------------------------------------------------------------------

  /** The history of one partition accounts for every accepted event, delivery and stored event. */
  ghost predicate Accounted(cfg: Config, accepted: seq<Event>, part: Partition) {
    && accepted == Events(part.retired) + InFlight(part.worker) + part.queue
    && ServedWithinList(cfg, part.retired)
    && (forall i :: 0 <= i < |part.retired| && part.retired[i].outcome != Cancelled ==>
          part.retired[i].served == |cfg.handlers(part.retired[i].event.kind)|)
    && (part.worker.Busy? ==> part.worker.served <= |cfg.handlers(part.worker.event.kind)|)
    && part.deliveries == AllTurns(cfg, part.retired) + CurrentTurns(cfg, part)
    && part.persisted == (if cfg.store then Persisted(part.retired) else [])
  }

  ghost function CurrentTurns(cfg: Config, part: Partition): seq<Delivery>
    requires part.worker.Busy? ==> part.worker.served <= |cfg.handlers(part.worker.event.kind)|
  {
    match part.worker
    case Busy(e, served) => Turns(cfg, |part.retired|, e, served)
    case _ => []
  }

  lemma TakeAccounted(cfg: Config, accepted: seq<Event>, part: Partition)
    requires Accounted(cfg, accepted, part)
    ensures Accounted(cfg, accepted, Take(part))
  {
    if part.worker.Idle? && part.queue != [] {
      assert [part.queue[0]] + part.queue[1..] == part.queue;
      assert Events(part.retired) + [] + part.queue == Events(part.retired) + [part.queue[0]] + part.queue[1..];
      assert Turns(cfg, |part.retired|, part.queue[0], 0) == [];
    }
  }

  lemma DeliverAccounted(cfg: Config, accepted: seq<Event>, part: Partition)
    requires Accounted(cfg, accepted, part)
    ensures Accounted(cfg, accepted, Deliver(cfg, part))
  {
    if part.worker.Busy? && part.worker.served < |cfg.handlers(part.worker.event.kind)| {
      var e, k, n := part.worker.event, part.worker.served, |part.retired|;
      assert Turns(cfg, n, e, k + 1) == Turns(cfg, n, e, k) + [Delivery(n, e, cfg.handlers(e.kind)[k])];
    }
  }

  lemma EventsAppend(retired: seq<Retired>, last: Retired)
    ensures Events(retired + [last]) == Events(retired) + [last.event]
  {
  }

  lemma ServedAppend(cfg: Config, retired: seq<Retired>, last: Retired)
    requires ServedWithinList(cfg, retired) && last.served <= |cfg.handlers(last.event.kind)|
    ensures ServedWithinList(cfg, retired + [last])
  {
  }

  lemma TurnsAppend(cfg: Config, retired: seq<Retired>, last: Retired)
    requires ServedWithinList(cfg, retired) && last.served <= |cfg.handlers(last.event.kind)|
    ensures ServedWithinList(cfg, retired + [last])
    ensures AllTurns(cfg, retired + [last])
         == AllTurns(cfg, retired) + Turns(cfg, |retired|, last.event, last.served)
  {
    hide Turns, ServedWithinList;
    ServedAppend(cfg, retired, last);
    assert (retired + [last])[..|retired|] == retired;
  }

  lemma PersistedAppend(retired: seq<Retired>, last: Retired)
    ensures Persisted(retired + [last])
         == Persisted(retired) + (if last.outcome == Processed then [last.event] else [])
  {
    assert (retired + [last])[..|retired|] == retired;
  }

  lemma RetireAccounted(cfg: Config, accepted: seq<Event>, part: Partition, last: Retired, after: Partition)
    requires Accounted(cfg, accepted, part) && part.worker.Busy?
    requires last.event == part.worker.event && last.served == part.worker.served
    requires last.outcome != Cancelled ==> last.served == |cfg.handlers(last.event.kind)|
    requires after.queue == part.queue && after.deliveries == part.deliveries && !after.worker.Busy?
    requires after.retired == part.retired + [last]
    requires after.persisted == part.persisted + (if cfg.store && last.outcome == Processed then [last.event] else [])
    ensures Accounted(cfg, accepted, after)
  {
    hide Events, AllTurns, Turns, Persisted;
    EventsAppend(part.retired, last);
    TurnsAppend(cfg, part.retired, last);
    PersistedAppend(part.retired, last);
  }

  lemma FinishAccounted(cfg: Config, accepted: seq<Event>, part: Partition, stored: bool)
    requires Accounted(cfg, accepted, part)
    ensures Accounted(cfg, accepted, Finish(cfg, part, stored))
  {
    if Finishable(cfg, part) {
      var after := Finish(cfg, part, stored);
      RetireAccounted(cfg, accepted, part, after.retired[|part.retired|], after);
    }
  }

  lemma CancelAccounted(cfg: Config, accepted: seq<Event>, part: Partition)
    requires Accounted(cfg, accepted, part)
    ensures Accounted(cfg, accepted, Cancel(part))
  {
    if part.worker.Busy? {
      var after := Cancel(part);
      RetireAccounted(cfg, accepted, part, after.retired[|part.retired|], after);
    }
  }

  // ---- The bus ------------------------------------------------------------------------------

  ghost predicate BusInvariant(cfg: Config, b: Bus)
    requires ValidConfig(cfg)
  {
    && |b.parts| == cfg.partitions
    && (forall p :: 0 <= p < |b.parts| ==> Accounted(cfg, AcceptedBy(cfg, b.log, p), b.parts[p]))
    && (forall p :: 0 <= p < |b.parts| ==> (b.parts[p].worker.Absent? <==> !b.running))
  }

  lemma PartsKept(cfg: Config, b: Bus)
    requires ValidConfig(cfg) && BusInvariant(cfg, b)
    ensures |b.parts| == cfg.partitions
  {
  }

  lemma AcceptedAppend(cfg: Config, log: seq<Event>, e: Event, p: nat)
    requires ValidConfig(cfg)
    ensures AcceptedBy(cfg, log + [e], p) == AcceptedBy(cfg, log, p) + (if Route(cfg, e) == p then [e] else [])
  {
    assert (log + [e])[..|log|] == log;
  }

  lemma EnqueueAccounted(cfg: Config, accepted: seq<Event>, part: Partition, e: Event)
    requires Accounted(cfg, accepted, part)
    ensures Accounted(cfg, accepted + [e], part.(queue := part.queue + [e]))
  {
    hide AllTurns, Persisted, Turns;
    var gone := Events(part.retired) + InFlight(part.worker);
    assert (gone + part.queue) + [e] == gone + (part.queue + [e]);
  }

  lemma EnqueueKeepsInvariant(cfg: Config, b: Bus, e: Event)
    requires ValidConfig(cfg) && BusInvariant(cfg, b)
    ensures BusInvariant(cfg, Enqueue(cfg, b, e))
  {
    hide Accounted, AcceptedBy, Route;
    var after := Enqueue(cfg, b, e);
    forall p | 0 <= p < |b.parts|
      ensures Accounted(cfg, AcceptedBy(cfg, after.log, p), after.parts[p])
    {
      AcceptedAppend(cfg, b.log, e, p);
      if p == Route(cfg, e) {
        EnqueueAccounted(cfg, AcceptedBy(cfg, b.log, p), b.parts[p], e);
      } else {
        assert AcceptedBy(cfg, b.log, p) + [] == AcceptedBy(cfg, b.log, p);
      }
    }
  }

  lemma StartKeepsInvariant(cfg: Config, b: Bus)
    requires ValidConfig(cfg) && BusInvariant(cfg, b)
    ensures BusInvariant(cfg, Start(cfg, b))
  {
    var after := Start(cfg, b);
    forall p | 0 <= p < |b.parts|
      ensures Accounted(cfg, AcceptedBy(cfg, after.log, p), after.parts[p])
    {
      assert Accounted(cfg, AcceptedBy(cfg, b.log, p), b.parts[p]);
    }
  }

  lemma StopKeepsInvariant(cfg: Config, b: Bus)
    requires ValidConfig(cfg) && BusInvariant(cfg, b)
    ensures BusInvariant(cfg, Stop(b))
  {
    if b.running {
      forall p | 0 <= p < |b.parts|
        ensures Accounted(cfg, AcceptedBy(cfg, b.log, p), Cancel(b.parts[p]))
      {
        CancelAccounted(cfg, AcceptedBy(cfg, b.log, p), b.parts[p]);
      }
    }
  }

  lemma StepKeepsInvariant(cfg: Config, b: Bus, a: Action)
    requires ValidConfig(cfg) && BusInvariant(cfg, b)
    ensures BusInvariant(cfg, Step(cfg, b, a))
  {
    hide Accounted, Enqueue, Take, Deliver, Finish, Start, Stop;
    match a
    case DoStart => StartKeepsInvariant(cfg, b);
    case DoStop => StopKeepsInvariant(cfg, b);
    case DoPublish(e) =>
      if Judge(cfg, b, e) == Published {
        EnqueueKeepsInvariant(cfg, b, Keyed(e));
      }
    case DoAdmit(k) =>
      if k < |b.blocked| {
        EnqueueKeepsInvariant(cfg, b.(blocked := RemoveAt(b.blocked, k)), b.blocked[k]);
      }
    case DoTake(p) =>
      if p < |b.parts| {
        TakeAccounted(cfg, AcceptedBy(cfg, b.log, p), b.parts[p]);
        WorkersStay(cfg, b.parts[p], false);
      }
    case DoDeliver(p) =>
      if p < |b.parts| {
        DeliverAccounted(cfg, AcceptedBy(cfg, b.log, p), b.parts[p]);
        WorkersStay(cfg, b.parts[p], false);
      }
    case DoFinish(p, stored) =>
      if p < |b.parts| {
        FinishAccounted(cfg, AcceptedBy(cfg, b.log, p), b.parts[p], stored);
        WorkersStay(cfg, b.parts[p], stored);
      }
  }

  lemma WorkersStay(cfg: Config, part: Partition, stored: bool)
    ensures Take(part).worker.Absent? == Deliver(cfg, part).worker.Absent? == Finish(cfg, part, stored).worker.Absent?
         == part.worker.Absent?
  {
  }

  lemma {:induction false} RunKeepsInvariant(cfg: Config, actions: seq<Action>)
    requires ValidConfig(cfg)
    ensures BusInvariant(cfg, Run(cfg, actions))
  {
    hide BusInvariant, Step, Initial;
    if actions == [] {
      InitialInvariant(cfg);
    } else {
      RunKeepsInvariant(cfg, actions[..|actions| - 1]);
      StepKeepsInvariant(cfg, Run(cfg, actions[..|actions| - 1]), actions[|actions| - 1]);
    }
  }

  lemma InitialInvariant(cfg: Config)
    requires ValidConfig(cfg)
    ensures BusInvariant(cfg, Initial(cfg))
  {
  }

  /**
   No loss: in every interleaving, stops included, the accepted events of each partition are those
   that left its worker, then the one in hand, then the queue - in order of acceptance.
   */
  lemma NothingIsLost(cfg: Config, actions: seq<Action>, p: nat)
    requires ValidConfig(cfg) && p < cfg.partitions
    ensures var b := Run(cfg, actions);
            AcceptedBy(cfg, b.log, p) == Events(b.parts[p].retired) + InFlight(b.parts[p].worker) + b.parts[p].queue
  {
    RunKeepsInvariant(cfg, actions);
  }

  // ---- Cancelled events ---------------------------------------------------------------------

  ghost function Stops(actions: seq<Action>): nat {
    if actions == [] then 0
    else Stops(actions[..|actions| - 1]) + (if actions[|actions| - 1].DoStop? then 1 else 0)
  }

  lemma CountAppend(retired: seq<Retired>, last: Retired)
    ensures CountCancelled(retired + [last]) == CountCancelled(retired) + (if last.outcome == Cancelled then 1 else 0)
  {
    assert (retired + [last])[..|retired|] == retired;
  }

  lemma PartCancels(cfg: Config, part: Partition, stored: bool)
    ensures Take(part).retired == Deliver(cfg, part).retired == part.retired
    ensures CountCancelled(Finish(cfg, part, stored).retired) == CountCancelled(part.retired)
    ensures CountCancelled(Cancel(part).retired) == CountCancelled(part.retired) + |InFlight(part.worker)|
  {
    hide CountCancelled;
    if part.worker.Busy? {
      var e, served := part.worker.event, part.worker.served;
      CountAppend(part.retired, Retired(e, Cancelled, served));
      CountAppend(part.retired, Retired(e, Processed, served));
      CountAppend(part.retired, Retired(e, PersistFailed, served));
    }
  }

  lemma StepCancels(cfg: Config, b: Bus, a: Action, p: nat)
    requires ValidConfig(cfg) && |b.parts| == cfg.partitions && p < cfg.partitions
    ensures CountCancelled(Step(cfg, b, a).parts[p].retired)
         <= CountCancelled(b.parts[p].retired) + (if a.DoStop? then 1 else 0)
  {
    hide Take, Deliver, Finish, Cancel, CountCancelled, Judge, Route;
    PartCancels(cfg, b.parts[p], a.DoFinish? && a.stored);
  }

  /** Each stop cancels at most one event per partition; without a stop none is ever cancelled. */
  lemma {:induction false} OnlyStopsCancel(cfg: Config, actions: seq<Action>, p: nat)
    requires ValidConfig(cfg) && p < cfg.partitions
    ensures CountCancelled(Run(cfg, actions).parts[p].retired) <= Stops(actions)
  {
    hide Step;
    if actions != [] {
      var b, a := Run(cfg, actions[..|actions| - 1]), actions[|actions| - 1];
      OnlyStopsCancel(cfg, actions[..|actions| - 1], p);
      StepCancels(cfg, b, a, p);
    }
  }

  // ---- Delivery -----------------------------------------------------------------------------

  /** The delivery history is exactly the turns of the retired events and of the one in hand. */
  lemma DeliveriesAreExact(cfg: Config, actions: seq<Action>, p: nat)
    requires ValidConfig(cfg) && p < cfg.partitions
    ensures var part := Run(cfg, actions).parts[p];
            && ServedWithinList(cfg, part.retired)
            && (part.worker.Busy? ==> part.worker.served <= |cfg.handlers(part.worker.event.kind)|)
            && part.deliveries == AllTurns(cfg, part.retired) + CurrentTurns(cfg, part)
            && forall i :: 0 <= i < |part.retired| && part.retired[i].outcome != Cancelled ==>
                 part.retired[i].served == |cfg.handlers(part.retired[i].event.kind)|
  {
    RunKeepsInvariant(cfg, actions);
  }

  /** Deliveries come in order of acceptance, and each names the event accepted at its position. */
  ghost predicate InOrder(deliveries: seq<Delivery>, accepted: seq<Event>) {
    && (forall i :: 0 <= i < |deliveries| ==>
          deliveries[i].position < |accepted| && accepted[deliveries[i].position] == deliveries[i].event)
    && (forall i, j :: 0 <= i < j < |deliveries| ==> deliveries[i].position <= deliveries[j].position)
  }

  lemma {:induction false} TurnsInOrder(cfg: Config, retired: seq<Retired>)
    requires ServedWithinList(cfg, retired)
    ensures InOrder(AllTurns(cfg, retired), Events(retired))
    ensures forall i :: 0 <= i < |AllTurns(cfg, retired)| ==> AllTurns(cfg, retired)[i].position < |retired|
  {
    if retired != [] {
      var n := |retired| - 1;
      TurnsInOrder(cfg, retired[..n]);
      assert Events(retired)[..n] == Events(retired[..n]);
    }
  }

  lemma PartitionInOrder(cfg: Config, accepted: seq<Event>, part: Partition)
    requires Accounted(cfg, accepted, part)
    ensures InOrder(part.deliveries, accepted)
  {
    hide AllTurns, Turns;
    // Were the worker cancelled now, the turns of the event in hand would join the retired ones.
    CancelAccounted(cfg, accepted, part);
    TurnsInOrder(cfg, Cancel(part).retired);
    assert accepted[..|Events(Cancel(part).retired)|] == Events(Cancel(part).retired);
  }

  /** Strict ordering per partition: an event is delivered only after all deliveries of earlier ones. */
  lemma DeliveryFollowsAcceptance(cfg: Config, actions: seq<Action>, p: nat)
    requires ValidConfig(cfg) && p < cfg.partitions
    ensures var b := Run(cfg, actions);
            InOrder(b.parts[p].deliveries, AcceptedBy(cfg, b.log, p))
  {
    hide Run, AcceptedBy, Accounted, InOrder;
    RunKeepsInvariant(cfg, actions);
    PartitionInOrder(cfg, AcceptedBy(cfg, Run(cfg, actions).log, p), Run(cfg, actions).parts[p]);
  }

  /** How many events of partition `p` were accepted before the `i`-th event of the log. */
  ghost function Position(cfg: Config, log: seq<Event>, i: nat): nat
    requires ValidConfig(cfg) && i < |log|
  {
    |AcceptedBy(cfg, log[..i], Route(cfg, log[i]))|
  }

  lemma {:induction false} AcceptedPrefix(cfg: Config, log: seq<Event>, i: nat, p: nat)
    requires ValidConfig(cfg) && i <= |log|
    ensures AcceptedBy(cfg, log[..i], p) <= AcceptedBy(cfg, log, p)
    decreases |log|
  {
    if i < |log| {
      var shorter := log[..|log| - 1];
      AcceptedPrefix(cfg, shorter, i, p);
      assert shorter[..i] == log[..i];
    } else {
      assert log[..i] == log;
    }
  }

  lemma PositionHolds(cfg: Config, log: seq<Event>, i: nat)
    requires ValidConfig(cfg) && i < |log|
    ensures var p := Route(cfg, log[i]);
            && Position(cfg, log, i) < |AcceptedBy(cfg, log, p)|
            && AcceptedBy(cfg, log, p)[Position(cfg, log, i)] == log[i]
  {
    var p := Route(cfg, log[i]);
    AcceptedAppend(cfg, log[..i], log[i], p);
    assert log[..i] + [log[i]] == log[..i + 1];
    AcceptedPrefix(cfg, log, i + 1, p);
  }

  /**
   Events with the same payload key share a partition, whatever partition keys were preset, and
   keep their order there.
   */
  lemma EqualKeysKeepTheirOrder(cfg: Config, log: seq<Event>, i: nat, j: nat)
    requires ValidConfig(cfg) && i < j < |log| && PartitionKey(log[i]) == PartitionKey(log[j])
    ensures Route(cfg, log[i]) == Route(cfg, log[j])
    ensures Position(cfg, log, i) < Position(cfg, log, j)
  {
    PositionHolds(cfg, log[..j], i);
    assert log[..j][..i] == log[..i];
  }

  /**
   Of two accepted events with the same key, no delivery of the later one - to any handler -
   comes before a delivery of the earlier one.
   */
  lemma SameKeyDeliveredInOrder(cfg: Config, actions: seq<Action>, i: nat, j: nat, a: nat, c: nat)
    requires ValidConfig(cfg)
    requires i < j < |Run(cfg, actions).log|
    requires PartitionKey(Run(cfg, actions).log[i]) == PartitionKey(Run(cfg, actions).log[j])
    requires var b := Run(cfg, actions);
             var deliveries := b.parts[Route(cfg, b.log[i])].deliveries;
             && a < |deliveries| && deliveries[a].position == Position(cfg, b.log, i)
             && c < |deliveries| && deliveries[c].position == Position(cfg, b.log, j)
    ensures var b := Run(cfg, actions);
            var deliveries := b.parts[Route(cfg, b.log[i])].deliveries;
            a < c && deliveries[a].event == b.log[i] && deliveries[c].event == b.log[j]
  {
    hide Run, AcceptedBy, Route;
    var b := Run(cfg, actions);
    EqualKeysKeepTheirOrder(cfg, b.log, i, j);
    PositionHolds(cfg, b.log, i);
    PositionHolds(cfg, b.log, j);
    DeliveryFollowsAcceptance(cfg, actions, Route(cfg, b.log[i]));
  }

  // ---- Persistence --------------------------------------------------------------------------

  /** `kept` arises from `all` by leaving elements out. */
  ghost predicate Subsequence(kept: seq<Event>, all: seq<Event>) {
    if kept == [] then true
    else if all == [] then false
    else
      var k, a := |kept| - 1, |all| - 1;
      Subsequence(kept, all[..a]) || (kept[k] == all[a] && Subsequence(kept[..k], all[..a]))
  }

  lemma {:induction false} PersistedIsSubsequence(retired: seq<Retired>)
    ensures Subsequence(Persisted(retired), Events(retired))
  {
    if retired != [] {
      var n := |retired| - 1;
      PersistedIsSubsequence(retired[..n]);
      var kept, all := Persisted(retired[..n]), Events(retired);
      assert all[..n] == Events(retired[..n]);
      if retired[n].outcome == Processed {
        assert (kept + [retired[n].event])[..|kept|] == kept;
      } else {
        assert Persisted(retired) == kept;
      }
    }
  }

  lemma {:induction false} SubsequenceExtends(kept: seq<Event>, all: seq<Event>, more: seq<Event>)
    requires Subsequence(kept, all)
    ensures Subsequence(kept, all + more)
    decreases |more|
  {
    if more == [] {
      assert all + more == all;
    } else {
      SubsequenceExtends(kept, all, more[..|more| - 1]);
      assert (all + more)[..|all + more| - 1] == all + more[..|more| - 1];
    }
  }

  lemma PartitionStore(cfg: Config, accepted: seq<Event>, part: Partition)
    requires Accounted(cfg, accepted, part)
    ensures Subsequence(part.persisted, accepted)
  {
    hide AllTurns, Turns, Subsequence, Persisted;
    var rest := InFlight(part.worker) + part.queue;
    assert Events(part.retired) + rest == accepted;
    if cfg.store {
      PersistedIsSubsequence(part.retired);
      SubsequenceExtends(part.persisted, Events(part.retired), rest);
    } else {
      EmptyIsSubsequence(accepted);
    }
  }

  /** What the store holds for a partition is a subsequence of what the partition accepted. */
  lemma StoreFollowsAcceptance(cfg: Config, actions: seq<Action>, p: nat)
    requires ValidConfig(cfg) && p < cfg.partitions
    ensures var b := Run(cfg, actions);
            Subsequence(b.parts[p].persisted, AcceptedBy(cfg, b.log, p))
  {
    hide Run, AcceptedBy, Accounted, Subsequence;
    RunKeepsInvariant(cfg, actions);
    PartitionStore(cfg, AcceptedBy(cfg, Run(cfg, actions).log, p), Run(cfg, actions).parts[p]);
  }

  lemma EmptyIsSubsequence(all: seq<Event>)
    ensures Subsequence([], all)
  {
  }

  // ---- Occupancy ----------------------------------------------------------------------------

  ghost function CountLow(queue: seq<Event>): nat {
    if queue == [] then 0
    else CountLow(queue[1..]) + (if GetPriority(queue[0].kind) == Low then 1 else 0)
  }

  ghost function CountSheddable(queue: seq<Event>): nat {
    if queue == [] then 0
    else CountSheddable(queue[1..]) + (if GetPriority(queue[0].kind) == Critical then 0 else 1)
  }

  lemma {:induction false} CountsAppend(queue: seq<Event>, e: Event)
    ensures CountLow(queue + [e]) == CountLow(queue) + (if GetPriority(e.kind) == Low then 1 else 0)
    ensures CountSheddable(queue + [e]) == CountSheddable(queue) + (if GetPriority(e.kind) == Critical then 0 else 1)
    ensures CountLow(queue) <= CountSheddable(queue) <= |queue|
  {
    if queue != [] {
      CountsAppend(queue[1..], e);
      assert (queue + [e])[1..] == queue[1..] + [e];
    } else {
      assert [e][1..] == [];
    }
  }

  ghost predicate AtMostOneOver(count: nat, threshold: int) {
    count == 0 || count <= threshold + 1
  }

  ghost predicate QueueBounded(limits: Thresholds, queue: seq<Event>) {
    && AtMostOneOver(CountLow(queue), limits.warning)
    && (limits.warning <= limits.throttle ==> AtMostOneOver(CountSheddable(queue), limits.throttle))
  }

  /** A publisher suspended on a full queue passed its check, so the capacity is within its threshold. */
  ghost predicate WaiterBounded(cfg: Config, e: Event) {
    match GetPriority(e.kind)
    case Critical => true
    case Low => cfg.capacity <= cfg.limits.warning
    case Normal => cfg.capacity <= cfg.limits.throttle
  }

  ghost predicate Occupancy(cfg: Config, b: Bus) {
    && |b.parts| == cfg.partitions
    && (forall p :: 0 <= p < |b.parts| ==> QueueBounded(cfg.limits, b.parts[p].queue))
    && (forall k :: 0 <= k < |b.blocked| ==> WaiterBounded(cfg, b.blocked[k]))
  }

  lemma QueueGrows(limits: Thresholds, queue: seq<Event>, e: Event)
    requires QueueBounded(limits, queue) && !ShouldDrop(limits, |queue|, e.kind)
    ensures QueueBounded(limits, queue + [e])
  {
    CountsAppend(queue, e);
  }

  lemma QueueShrinks(limits: Thresholds, queue: seq<Event>)
    requires QueueBounded(limits, queue) && queue != []
    ensures QueueBounded(limits, queue[1..])
  {
  }

  lemma PartQueues(cfg: Config, part: Partition, stored: bool)
    requires QueueBounded(cfg.limits, part.queue)
    ensures QueueBounded(cfg.limits, Take(part).queue)
    ensures Deliver(cfg, part).queue == Finish(cfg, part, stored).queue == Cancel(part).queue == part.queue
  {
    if part.queue != [] {
      QueueShrinks(cfg.limits, part.queue);
    }
  }

  lemma StepKeepsOccupancy(cfg: Config, b: Bus, a: Action)
    requires ValidConfig(cfg) && Occupancy(cfg, b)
    ensures Occupancy(cfg, Step(cfg, b, a))
  {
    hide Take, Deliver, Finish, Cancel, QueueBounded, Route, CountLow, CountSheddable;
    forall p | 0 <= p < |b.parts|
      ensures QueueBounded(cfg.limits, Take(b.parts[p]).queue)
      ensures Deliver(cfg, b.parts[p]).queue == Cancel(b.parts[p]).queue == b.parts[p].queue
      ensures Finish(cfg, b.parts[p], a.DoFinish? && a.stored).queue == b.parts[p].queue
    {
      PartQueues(cfg, b.parts[p], a.DoFinish? && a.stored);
    }
    match a
    case DoPublish(e) =>
      RouteIsStable(cfg.hash, cfg.partitions, e);
      assert Route(cfg, Keyed(e)) == Route(cfg, e) by { RoutesAgree(cfg, e); }
      if Judge(cfg, b, e) == Published {
        QueueGrows(cfg.limits, b.parts[Route(cfg, e)].queue, Keyed(e));
      }
    case DoAdmit(k) =>
      if k < |b.blocked| {
        var e := b.blocked[k];
        var queue := b.parts[Route(cfg, e)].queue;
        if |queue| < cfg.capacity {
          assert WaiterBounded(cfg, e);
          QueueGrows(cfg.limits, queue, e);
        }
      }
    case _ =>
  }

  lemma RoutesAgree(cfg: Config, e: Event)
    requires ValidConfig(cfg)
    ensures Route(cfg, Keyed(e)) == Route(cfg, e)
  {
    RouteIsStable(cfg.hash, cfg.partitions, e);
  }

  /**
   In every reachable state each queue holds at most `warning + 1` LOW events and, when the warning
   level is the lower one, at most `throttle + 1` events that are not CRITICAL.
   */
  lemma {:induction false} OccupancyByPriority(cfg: Config, actions: seq<Action>)
    requires ValidConfig(cfg)
    ensures Occupancy(cfg, Run(cfg, actions))
  {
    hide Step;
    if actions != [] {
      OccupancyByPriority(cfg, actions[..|actions| - 1]);
      StepKeepsOccupancy(cfg, Run(cfg, actions[..|actions| - 1]), actions[|actions| - 1]);
    }
  }

  /** With both thresholds below the capacity only CRITICAL publishers ever wait for room. */
  lemma OnlyCriticalWaits(cfg: Config, actions: seq<Action>, k: nat)
    requires ValidConfig(cfg) && cfg.limits.warning < cfg.capacity && cfg.limits.throttle < cfg.capacity
    requires k < |Run(cfg, actions).blocked|
    ensures GetPriority(Run(cfg, actions).blocked[k].kind) == Critical
  {
    hide Run;
    OccupancyByPriority(cfg, actions);
    assert WaiterBounded(cfg, Run(cfg, actions).blocked[k]);
  }

  // ---- CRITICAL events ----------------------------------------------------------------------

  function Once(e: Event, x: Event): nat {
    if e == x then 1 else 0
  }

  ghost function Occurrences(events: seq<Event>, x: Event): nat {
    if events == [] then 0 else Occurrences(events[..|events| - 1], x) + Once(events[|events| - 1], x)
  }

  /** How often the event, keyed as `publish` keys it, was published while the bus was running. */
  ghost function LivePublications(cfg: Config, actions: seq<Action>, x: Event): nat
    requires ValidConfig(cfg)
  {
    if actions == [] then 0
    else
      var shorter, a := actions[..|actions| - 1], actions[|actions| - 1];
      LivePublications(cfg, shorter, x) + LivePublication(Run(cfg, shorter), a, x)
  }

  function LivePublication(b: Bus, a: Action, x: Event): nat {
    if a.DoPublish? && b.running then Once(Keyed(a.event), x) else 0
  }

  /** The copies of the event that the bus accepted or that wait for room. */
  ghost function Kept(b: Bus, x: Event): nat {
    Occurrences(b.log, x) + Occurrences(b.blocked, x)
  }

  lemma OccurrencesAppend(events: seq<Event>, e: Event, x: Event)
    ensures Occurrences(events + [e], x) == Occurrences(events, x) + Once(e, x)
  {
    assert (events + [e])[..|events|] == events;
  }

  lemma {:induction false} OccurrencesSplit(a: seq<Event>, b: seq<Event>, x: Event)
    ensures Occurrences(a + b, x) == Occurrences(a, x) + Occurrences(b, x)
    decreases |b|
  {
    if b == [] {
      assert a + b == a;
    } else {
      OccurrencesSplit(a, b[..|b| - 1], x);
      assert (a + b)[..|a + b| - 1] == a + b[..|b| - 1];
    }
  }

  lemma OccurrencesRemove(events: seq<Event>, k: nat, x: Event)
    requires k < |events|
    ensures Occurrences(events, x) == Occurrences(RemoveAt(events, k), x) + Once(events[k], x)
  {
    hide Occurrences;
    var before, behind := events[..k], events[k + 1..];
    OccurrencesSplit(before, behind, x);
    OccurrencesAppend(before, events[k], x);
    OccurrencesSplit(before + [events[k]], behind, x);
    assert events == before + [events[k]] + behind;
  }

  lemma PublishKeeps(cfg: Config, b: Bus, e: Event, x: Event)
    requires ValidConfig(cfg) && |b.parts| == cfg.partitions
    ensures Kept(Publish(cfg, b, e), x) <= Kept(b, x) + LivePublication(b, DoPublish(e), x)
    ensures GetPriority(x.kind) == Critical ==>
              Kept(Publish(cfg, b, e), x) == Kept(b, x) + LivePublication(b, DoPublish(e), x)
  {
    hide Occurrences, Route;
    OccurrencesAppend(b.log, Keyed(e), x);
    OccurrencesAppend(b.blocked, Keyed(e), x);
  }

  lemma OtherStepsKeep(cfg: Config, b: Bus, a: Action, x: Event)
    requires ValidConfig(cfg) && |b.parts| == cfg.partitions && !a.DoPublish?
    ensures Kept(Step(cfg, b, a), x) == Kept(b, x)
  {
    hide Occurrences, Take, Deliver, Finish, Cancel, Route;
    if a.DoAdmit? && a.waiter < |b.blocked| {
      OccurrencesRemove(b.blocked, a.waiter, x);
      OccurrencesAppend(b.log, b.blocked[a.waiter], x);
    }
  }

  /**
   No CRITICAL event is ever dropped: in every run, the copies of it that were accepted or still wait
   for room are exactly its publications while the bus was running. Of no event are there more.
   */
  lemma {:induction false} CriticalIsNeverDropped(cfg: Config, actions: seq<Action>, x: Event)
    requires ValidConfig(cfg)
    ensures GetPriority(x.kind) == Critical ==> Kept(Run(cfg, actions), x) == LivePublications(cfg, actions, x)
    ensures Kept(Run(cfg, actions), x) <= LivePublications(cfg, actions, x)
  {
    hide Step, LivePublication;
    if actions != [] {
      var b, a := Run(cfg, actions[..|actions| - 1]), actions[|actions| - 1];
      CriticalIsNeverDropped(cfg, actions[..|actions| - 1], x);
      KeptStep(cfg, b, a, x);
    }
  }

  lemma KeptStep(cfg: Config, b: Bus, a: Action, x: Event)
    requires ValidConfig(cfg) && |b.parts| == cfg.partitions
    ensures Kept(Step(cfg, b, a), x) <= Kept(b, x) + LivePublication(b, a, x)
    ensures GetPriority(x.kind) == Critical ==> Kept(Step(cfg, b, a), x) == Kept(b, x) + LivePublication(b, a, x)
  {
    hide Kept, Publish;
    if a.DoPublish? {
      PublishKeeps(cfg, b, a.event, x);
    } else {
      OtherStepsKeep(cfg, b, a, x);
    }
  }
}
