/**
 The partitioned event bus as a state machine (qtrader/core/event_bus.py). Publishers and the
 one worker per partition interleave at the points where the coroutines await. Apart from what the
 bus stores, a `Bus` remembers its history: every event it accepted, how each left its worker,
 what was delivered and what was persisted.
 */
module BusSpec {
  import opened Base
  import opened Routing

  type Handler = nat

  /**
   `handlers` are the subscribers of each event type, fixed during a run. `redis` says whether the
   bridge is configured, `store` whether events are persisted.
   */
  datatype Config = Config(partitions: nat, hash: string -> nat, handlers: EventType -> seq<Handler>,
                           limits: Thresholds, capacity: nat, store: bool, redis: bool)

  /** A worker waits for its queue, or holds one event of which `served` handlers have had their turn. */
  datatype Worker = Absent | Idle | Busy(event: Event, served: nat)

  /** How an accepted event left its worker. Only `stop` cancels. */
  datatype Outcome = Processed | PersistFailed | Cancelled

  datatype Retired = Retired(event: Event, outcome: Outcome, served: nat)

  /** The `position`-th event accepted by the partition was handed to `handler`. */
  datatype Delivery = Delivery(position: nat, event: Event, handler: Handler)

  datatype Partition = Partition(queue: seq<Event>, worker: Worker, retired: seq<Retired>,
                                 deliveries: seq<Delivery>, persisted: seq<Event>)

  /**
   `log` lists the accepted events in order of acceptance. `blocked` holds publishers suspended on
   a full queue. `announced` lists the events for which a broadcast was scheduled, `outbox` those
   not yet sent.
   */
  datatype Bus = Bus(running: bool, bridged: bool, parts: seq<Partition>, log: seq<Event>, blocked: seq<Event>,
                     announced: seq<Event>, outbox: seq<Event>, dropped: nat, processed: nat)

  ghost predicate ValidConfig(cfg: Config) {
    cfg.partitions > 0 && cfg.capacity > 0
  }

  function Route(cfg: Config, e: Event): (p: nat)
    requires ValidConfig(cfg)
    ensures p < cfg.partitions
  {
    PartitionIndex(cfg.hash, cfg.partitions, e)
  }

  // ---- Steps --------------------------------------------------------------------------------

  function EmptyPartition(): Partition {
    Partition([], Absent, [], [], [])
  }

  function Initial(cfg: Config): Bus {
    Bus(false, false, seq(cfg.partitions, _ => EmptyPartition()), [], [], [], [], 0, 0)
  }

  /** The event enters the queue of its partition, and is announced when the bridge is up and it is local. */
  function Enqueue(cfg: Config, b: Bus, e: Event): Bus
    requires ValidConfig(cfg) && |b.parts| == cfg.partitions
  {
    var p := Route(cfg, e);
    var part := b.parts[p];
    var announce := if b.bridged && !e.isRemote then [e] else [];
    b.(parts := b.parts[p := part.(queue := part.queue + [e])], log := b.log + [e],
       announced := b.announced + announce, outbox := b.outbox + announce)
  }

  datatype Verdict = Stopped | Dropped | Suspended | Published

  function Judge(cfg: Config, b: Bus, e: Event): Verdict
    requires ValidConfig(cfg) && |b.parts| == cfg.partitions
  {
    var size := |b.parts[Route(cfg, e)].queue|;
    if !b.running then Stopped
    else if ShouldDrop(cfg.limits, size, e.kind) then Dropped
    else if size >= cfg.capacity then Suspended
    else Published
  }

  /** `publish` up to its first suspension. */
  function Publish(cfg: Config, b: Bus, e: Event): Bus
    requires ValidConfig(cfg) && |b.parts| == cfg.partitions
  {
    match Judge(cfg, b, e)
    case Stopped => b
    case Dropped => b.(dropped := b.dropped + 1)
    case Suspended => b.(blocked := b.blocked + [Keyed(e)])
    case Published => Enqueue(cfg, b, Keyed(e))
  }

  function RemoveAt<T>(s: seq<T>, k: nat): seq<T>
    requires k < |s|
  {
    s[..k] + s[k + 1..]
  }

  /** A suspended publisher finds room; publishers may overtake one another. */
  function Admit(cfg: Config, b: Bus, k: nat): Bus
    requires ValidConfig(cfg) && |b.parts| == cfg.partitions && k < |b.blocked|
  {
    if |b.parts[Route(cfg, b.blocked[k])].queue| < cfg.capacity
    then Enqueue(cfg, b.(blocked := RemoveAt(b.blocked, k)), b.blocked[k])
    else b
  }

  /** The worker's `await queue.get()` returns. */
  function Take(part: Partition): Partition {
    if part.worker.Idle? && part.queue != [] then
      part.(queue := part.queue[1..], worker := Busy(part.queue[0], 0))
    else part
  }

  /** The next handler of the event in hand has been tried. */
  function Deliver(cfg: Config, part: Partition): Partition {
    if part.worker.Busy? && part.worker.served < |cfg.handlers(part.worker.event.kind)| then
      var e, k := part.worker.event, part.worker.served;
      part.(worker := Busy(e, k + 1),
            deliveries := part.deliveries + [Delivery(|part.retired|, e, cfg.handlers(e.kind)[k])])
    else part
  }

  predicate Finishable(cfg: Config, part: Partition) {
    part.worker.Busy? && part.worker.served >= |cfg.handlers(part.worker.event.kind)|
  }

  /** After the last handler the event is persisted; a failing store leaves it uncounted. */
  function Finish(cfg: Config, part: Partition, stored: bool): Partition {
    if Finishable(cfg, part) then
      var e, outcome := part.worker.event, if cfg.store && !stored then PersistFailed else Processed;
      part.(worker := Idle,
            retired := part.retired + [Retired(e, outcome, part.worker.served)],
            persisted := part.persisted + (if cfg.store && stored then [e] else []))
    else part
  }

  /** Cancelling a worker abandons the event it holds; its queue stays. */
  function Cancel(part: Partition): Partition {
    match part.worker
    case Absent => part
    case Idle => part.(worker := Absent)
    case Busy(e, served) => part.(worker := Absent, retired := part.retired + [Retired(e, Cancelled, served)])
  }

  function Start(cfg: Config, b: Bus): Bus {
    if b.running then b
    else b.(running := true, bridged := cfg.redis,
            parts := seq(|b.parts|, i requires 0 <= i < |b.parts| => b.parts[i].(worker := Idle)))
  }

  function Stop(b: Bus): Bus {
    if !b.running then b
    else b.(running := false, bridged := false,
            parts := seq(|b.parts|, i requires 0 <= i < |b.parts| => Cancel(b.parts[i])))
  }

  datatype Action =
    | DoStart
    | DoStop
    | DoPublish(event: Event)
    | DoAdmit(waiter: nat)
    | DoTake(worker: nat)
    | DoDeliver(worker: nat)
    | DoFinish(worker: nat, stored: bool)

  function OnPart(b: Bus, p: nat, part: Partition): Bus
    requires p < |b.parts|
  {
    b.(parts := b.parts[p := part])
  }

  /** One step of the bus; an action that is not enabled changes nothing. */
  function Step(cfg: Config, b: Bus, a: Action): (after: Bus)
    requires ValidConfig(cfg) && |b.parts| == cfg.partitions
    ensures |after.parts| == cfg.partitions
  {
    match a
    case DoStart => Start(cfg, b)
    case DoStop => Stop(b)
    case DoPublish(e) => Publish(cfg, b, e)
    case DoAdmit(k) => if k < |b.blocked| then Admit(cfg, b, k) else b
    case DoTake(p) => if p < |b.parts| then OnPart(b, p, Take(b.parts[p])) else b
    case DoDeliver(p) => if p < |b.parts| then OnPart(b, p, Deliver(cfg, b.parts[p])) else b
    case DoFinish(p, stored) =>
      if p < |b.parts| then
        var counted := Finishable(cfg, b.parts[p]) && (cfg.store ==> stored);
        OnPart(b, p, Finish(cfg, b.parts[p], stored)).(processed := b.processed + if counted then 1 else 0)
      else b
  }

  function Run(cfg: Config, actions: seq<Action>): (b: Bus)
    requires ValidConfig(cfg)
    ensures |b.parts| == cfg.partitions
  {
    if actions == [] then Initial(cfg)
    else Step(cfg, Run(cfg, actions[..|actions| - 1]), actions[|actions| - 1])
  }

  // ---- What the history should say ----------------------------------------------------------

  /** The accepted events of one partition, in order of acceptance. */
  ghost function AcceptedBy(cfg: Config, log: seq<Event>, p: nat): seq<Event>
    requires ValidConfig(cfg)
  {
    if log == [] then []
    else
      var e := log[|log| - 1];
      AcceptedBy(cfg, log[..|log| - 1], p) + (if Route(cfg, e) == p then [e] else [])
  }

  ghost function Events(retired: seq<Retired>): (events: seq<Event>)
    ensures |events| == |retired|
    ensures forall i :: 0 <= i < |retired| ==> events[i] == retired[i].event
  {
    seq(|retired|, i requires 0 <= i < |retired| => retired[i].event)
  }

  ghost function InFlight(worker: Worker): seq<Event> {
    if worker.Busy? then [worker.event] else []
  }

  /** The first `served` handlers of one event, in subscription order. */
  ghost function Turns(cfg: Config, position: nat, e: Event, served: nat): seq<Delivery>
    requires served <= |cfg.handlers(e.kind)|
  {
    seq(served, i requires 0 <= i < served => Delivery(position, e, cfg.handlers(e.kind)[i]))
  }

  ghost predicate ServedWithinList(cfg: Config, retired: seq<Retired>) {
    forall i :: 0 <= i < |retired| ==> retired[i].served <= |cfg.handlers(retired[i].event.kind)|
  }

  /** All turns of the events that have left the worker, one event after the other. */
  ghost function AllTurns(cfg: Config, retired: seq<Retired>): seq<Delivery>
    requires ServedWithinList(cfg, retired)
  {
    if retired == [] then []
    else
      var n := |retired| - 1;
      AllTurns(cfg, retired[..n]) + Turns(cfg, n, retired[n].event, retired[n].served)
  }

  ghost function Persisted(retired: seq<Retired>): seq<Event> {
    if retired == [] then []
    else
      var n := |retired| - 1;
      Persisted(retired[..n]) + (if retired[n].outcome == Processed then [retired[n].event] else [])
  }

  ghost function CountCancelled(retired: seq<Retired>): nat {
    if retired == [] then 0
    else
      var n := |retired| - 1;
      CountCancelled(retired[..n]) + (if retired[n].outcome == Cancelled then 1 else 0)
  }
}
