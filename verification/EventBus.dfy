/**
 The event bus as the object the source keeps (qtrader/core/event_bus.py). Each method is the
 stretch of a coroutine between two awaits, proved to be the step of the same name in `BusSpec`;
 `SafeDeliver` is the retry loop inside one delivery.
 */
module EventBus {
  import opened Base
  import opened Routing
  import opened BusSpec
  import BusTheorems

  class Bus {
    const config: Config
    var running: bool
    var bridged: bool
    var parts: seq<Partition>
    var blocked: seq<Event>
    var outbox: seq<Event>
    var eventsDropped: nat
    var eventsProcessed: nat
    ghost var log: seq<Event>
    ghost var announced: seq<Event>

    ghost function Value(): BusSpec.Bus
      reads this
    {
      BusSpec.Bus(running, bridged, parts, log, blocked, announced, outbox, eventsDropped, eventsProcessed)
    }

    ghost predicate Valid()
      reads this
    {
      ValidConfig(config) && BusTheorems.BusInvariant(config, Value())
    }

    constructor (config: Config)
      requires ValidConfig(config)
      ensures Valid() && this.config == config && Value() == Initial(config)
    {
      this.config := config;
      running, bridged := false, false;
      parts := seq(config.partitions, _ => EmptyPartition());
      blocked, outbox, eventsDropped, eventsProcessed := [], [], 0, 0;
      log, announced := [], [];
      new;
      BusTheorems.InitialInvariant(config);
    }

    /** One worker per partition is created. */
    method Start()
      requires Valid()
      modifies this
      ensures Valid() && Value() == BusSpec.Start(config, old(Value()))
    {
      hide BusTheorems.Accounted, AcceptedBy;
      BusTheorems.StartKeepsInvariant(config, Value());
      if running {
        return;
      }
      var started: seq<Partition> := [];
      var i := 0;
      while i < |parts|
        invariant 0 <= i <= |parts| && |started| == i
        invariant forall k :: 0 <= k < i ==> started[k] == parts[k].(worker := Idle)
      {
        started := started + [parts[i].(worker := Idle)];
        i := i + 1;
      }
      running, bridged, parts := true, config.redis, started;
    }

    /** Every worker is cancelled; the queues keep their events. */
    method Stop()
      requires Valid()
      modifies this
      ensures Valid() && Value() == BusSpec.Stop(old(Value()))
    {
      hide BusTheorems.Accounted, AcceptedBy;
      BusTheorems.StopKeepsInvariant(config, Value());
      if !running {
        return;
      }
      var stopped: seq<Partition> := [];
      var i := 0;
      while i < |parts|
        invariant 0 <= i <= |parts| && |stopped| == i
        invariant forall k :: 0 <= k < i ==> stopped[k] == Cancel(parts[k])
      {
        stopped := stopped + [Cancel(parts[i])];
        i := i + 1;
      }
      running, bridged, parts := false, false, stopped;
    }

    /** `publish`: the running check, the backpressure check and the put. */
    method Publish(event: Event) returns (verdict: Verdict)
      requires Valid()
      modifies this
      ensures Valid() && Value() == BusSpec.Publish(config, old(Value()), event)
      ensures verdict == Judge(config, old(Value()), event)
      ensures verdict == Published ==> log == old(log) + [Keyed(event)]
      ensures verdict != Published ==> log == old(log)
    {
      hide BusTheorems.BusInvariant;
      BusTheorems.StepKeepsInvariant(config, Value(), DoPublish(event));
      BusTheorems.RoutesAgree(config, event);
      if !running {
        return Stopped;
      }
      var p := PartitionIndex(config.hash, config.partitions, event);
      assert |parts| == config.partitions by { BusTheorems.PartsKept(config, Value()); }
      var size := |parts[p].queue|;
      if ShouldDrop(config.limits, size, event.kind) {
        eventsDropped := eventsDropped + 1;
        return Dropped;
      }
      var keyed := event;
      if !Truthy(event.partitionKey) {
        keyed := event.(partitionKey := Some(PartitionKey(event)));
      }
      if size >= config.capacity {
        blocked := blocked + [keyed];
        return Suspended;
      }
      Put(p, keyed);
      verdict := Published;
    }

    /** A publisher that waited for room puts its event, unless the queue filled up again. */
    method AdmitWaiter(k: nat)
      requires Valid() && k < |blocked|
      modifies this
      ensures Valid() && Value() == Admit(config, old(Value()), k)
    {
      hide BusTheorems.BusInvariant;
      BusTheorems.StepKeepsInvariant(config, Value(), DoAdmit(k));
      assert |parts| == config.partitions by { BusTheorems.PartsKept(config, Value()); }
      var event := blocked[k];
      var p := PartitionIndex(config.hash, config.partitions, event);
      if |parts[p].queue| < config.capacity {
        blocked := blocked[..k] + blocked[k + 1..];
        Put(p, event);
      }
    }

    /** The `put` on the queue and the scheduling of the broadcast right after it. */
    method Put(p: nat, event: Event)
      requires ValidConfig(config) && |parts| == config.partitions && p == Route(config, event)
      modifies this`parts, this`log, this`announced, this`outbox
      ensures Value() == Enqueue(config, old(Value()), event)
    {
      parts := parts[p := parts[p].(queue := parts[p].queue + [event])];
      log := log + [event];
      if bridged && !event.isRemote {
        outbox := outbox + [event];
        announced := announced + [event];
      }
    }

    /** `_partition_worker`, from one `queue.get()` to the next, one await at a time. */
    method WorkerTakes(p: nat)
      requires Valid() && p < |parts|
      modifies this`parts
      ensures Valid() && Value() == Step(config, old(Value()), DoTake(p))
    {
      hide BusTheorems.BusInvariant;
      BusTheorems.StepKeepsInvariant(config, Value(), DoTake(p));
      assert |parts| == config.partitions by { BusTheorems.PartsKept(config, Value()); }
      var part := parts[p];
      if part.worker.Idle? && part.queue != [] {
        parts := parts[p := part.(queue := part.queue[1..], worker := Busy(part.queue[0], 0))];
      }
    }

    method WorkerDelivers(p: nat)
      requires Valid() && p < |parts|
      modifies this`parts
      ensures Valid() && Value() == Step(config, old(Value()), DoDeliver(p))
    {
      hide BusTheorems.BusInvariant;
      BusTheorems.StepKeepsInvariant(config, Value(), DoDeliver(p));
      assert |parts| == config.partitions by { BusTheorems.PartsKept(config, Value()); }
      var part := parts[p];
      if part.worker.Busy? {
        var event, served := part.worker.event, part.worker.served;
        var handlers := config.handlers(event.kind);
        if served < |handlers| {
          var delivery := Delivery(|part.retired|, event, handlers[served]);
          parts := parts[p := part.(worker := Busy(event, served + 1), deliveries := part.deliveries + [delivery])];
        }
      }
    }

    method WorkerFinishes(p: nat, stored: bool)
      requires Valid() && p < |parts|
      modifies this`parts, this`eventsProcessed
      ensures Valid() && Value() == Step(config, old(Value()), DoFinish(p, stored))
    {
      hide BusTheorems.BusInvariant;
      BusTheorems.StepKeepsInvariant(config, Value(), DoFinish(p, stored));
      assert |parts| == config.partitions by { BusTheorems.PartsKept(config, Value()); }
      var part := parts[p];
      if Finishable(config, part) {
        var event, served := part.worker.event, part.worker.served;
        var outcome, kept := Processed, part.persisted;
        assert part.persisted + [] == part.persisted;
        if config.store {
          if stored {
            kept := kept + [event];
          } else {
            outcome := PersistFailed;
          }
        }
        var retired := part.retired + [Retired(event, outcome, served)];
        parts := parts[p := part.(worker := Idle, retired := retired, persisted := kept)];
        if outcome == Processed {
          eventsProcessed := eventsProcessed + 1;
        }
      }
    }
  }

  // ---- Retries ------------------------------------------------------------------------------

  /** The first of the attempts `from..maxRetries + 1` that succeeds. */
  ghost predicate FirstSuccess(succeeds: nat -> bool, maxRetries: nat, attempt: nat) {
    1 <= attempt <= maxRetries + 1 && succeeds(attempt) && forall k :: 1 <= k < attempt ==> !succeeds(k)
  }

  /**
   `_safe_deliver`: the handler is called until it succeeds, at most `maxRetries + 1` times.
   `calls` lists the delivery-attempt number that each call of the handler sees.
   */
  method SafeDeliver(succeeds: nat -> bool, maxRetries: nat, firstNumber: nat)
    returns (calls: seq<nat>, delivered: bool)
    ensures 1 <= |calls| <= maxRetries + 1
    ensures calls[0] == firstNumber && forall k :: 1 <= k < |calls| ==> calls[k] == k + 1
    ensures delivered <==> exists k :: 1 <= k <= maxRetries + 1 && succeeds(k)
    ensures delivered ==> FirstSuccess(succeeds, maxRetries, |calls|)
    ensures !delivered ==> |calls| == maxRetries + 1
  {
    calls, delivered := [], false;
    var current := firstNumber;
    var attempt := 1;
    while attempt < maxRetries + 2
      invariant 1 <= attempt <= maxRetries + 2 && |calls| == attempt - 1
      invariant attempt == 1 ==> current == firstNumber
      invariant forall k :: 0 <= k < |calls| ==> calls[k] == (if k == 0 then firstNumber else k + 1)
      invariant forall k :: 1 <= k < attempt ==> !succeeds(k)
    {
      if attempt > 1 {
        current := attempt;
      }
      calls := calls + [current];
      if succeeds(attempt) {
        return calls, true;
      }
      attempt := attempt + 1;
    }
  }
}
