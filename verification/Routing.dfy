/**
 Priorities, backpressure and partition routing of events
 (qtrader/core/backpressure_controller.py, qtrader/core/partition_manager.py).
 */
module Routing {
  import opened Base

  /** The event types the controller singles out; every other type is `Other`. */
  datatype EventType =
    | Order | Fill | Risk | Signal | GapDetected | System | Error
    | Heartbeat | ClockSync | FeedbackUpdate | Drift
    | Other(name: string)

  datatype Priority = Low | Normal | Critical

  /** The key fields of a payload, whether it is a record or a dictionary. */
  datatype Payload = Payload(symbol: Option<string>, orderId: Option<string>)

  datatype Event = Event(id: nat, kind: EventType, payload: Payload, partitionKey: Option<string>, isRemote: bool)

  datatype Thresholds = Thresholds(warning: int, throttle: int)

  function GetPriority(kind: EventType): Priority {
    match kind
    case Order | Fill | Risk | Signal | GapDetected | System | Error => Critical
    case Heartbeat | ClockSync | FeedbackUpdate | Drift => Low
    case Other(_) => Normal
  }

  predicate ShouldDrop(limits: Thresholds, queueSize: nat, kind: EventType) {
    match GetPriority(kind)
    case Critical => false
    case Low => queueSize > limits.warning
    case Normal => queueSize > limits.throttle
  }

  /** The numeric value of a priority. */
  function Rank(kind: EventType): int {
    match GetPriority(kind)
    case Low => 0
    case Normal => 1
    case Critical => 2
  }

  /** Whenever an event is dropped, every event of lower priority would be dropped too. */
  ghost predicate ShedsLowFirst(limits: Thresholds) {
    forall size: nat, low: EventType, high: EventType :: Rank(low) < Rank(high) && ShouldDrop(limits, size, high) ==>
      ShouldDrop(limits, size, low)
  }

  /** Load is shed in order of priority exactly when the warning level does not exceed the throttle level. */
  lemma ShedsLowFirstExactly(limits: Thresholds)
    requires limits.warning >= 0
    ensures ShedsLowFirst(limits) <==> limits.warning <= limits.throttle
  {
    if limits.warning > limits.throttle {
      assert ShouldDrop(limits, limits.warning, Other("")) && !ShouldDrop(limits, limits.warning, Drift);
      assert Rank(Drift) < Rank(Other(""));
    }
  }

  predicate Truthy(s: Option<string>) {
    s.Some? && s.value != ""
  }

  /** Symbol before order id before the default; a preset partition key plays no part. */
  function PartitionKey(e: Event): string {
    if Truthy(e.payload.symbol) then e.payload.symbol.value
    else if Truthy(e.payload.orderId) then e.payload.orderId.value
    else "system_default"
  }

  /** `hash` stands for the md5 digest of the key read as a number. */
  function PartitionIndex(hash: string -> nat, partitions: nat, e: Event): (p: nat)
    requires partitions > 0
    ensures p < partitions
  {
    hash(PartitionKey(e)) % partitions
  }

  /** The copy that `publish` enqueues: the key is filled in unless one is already there. */
  function Keyed(e: Event): Event {
    if Truthy(e.partitionKey) then e else e.(partitionKey := Some(PartitionKey(e)))
  }

  /** The event carries this non-empty symbol. */
  predicate HasSymbol(e: Event, symbol: string) {
    symbol != "" && e.payload.symbol == Some(symbol)
  }

  /** It carries this non-empty order id and no symbol. */
  predicate HasOnlyOrderId(e: Event, orderId: string) {
    orderId != "" && e.payload.orderId == Some(orderId) && e.payload.symbol in {None, Some("")}
  }

  predicate HasNoKey(e: Event) {
    e.payload.symbol in {None, Some("")} && e.payload.orderId in {None, Some("")}
  }

  /** Every event is of exactly one of the three kinds. */
  lemma KeysPartition(e: Event)
    ensures (exists s :: HasSymbol(e, s)) <==> !(exists o :: HasOnlyOrderId(e, o)) && !HasNoKey(e)
    ensures (exists o :: HasOnlyOrderId(e, o)) ==> !HasNoKey(e)
  {
    var s := if e.payload.symbol.Some? then e.payload.symbol.value else "";
    var o := if e.payload.orderId.Some? then e.payload.orderId.value else "";
    assert HasSymbol(e, s) || HasOnlyOrderId(e, o) || HasNoKey(e);
  }

  /**
   Where an event goes: events of one symbol go together, and apart from those of another exactly when
   the hashes of the two differ modulo the number of partitions; so do order ids where there is no
   symbol; events with neither go with the key `system_default`.
   */
  lemma RoutedByKey(hash: string -> nat, partitions: nat, e: Event, key: string)
    requires partitions > 0
    ensures HasSymbol(e, key) ==> PartitionIndex(hash, partitions, e) == hash(key) % partitions
    ensures HasOnlyOrderId(e, key) ==> PartitionIndex(hash, partitions, e) == hash(key) % partitions
    ensures HasNoKey(e) ==> PartitionIndex(hash, partitions, e) == hash("system_default") % partitions
    ensures !Truthy(e.partitionKey) && (HasSymbol(e, key) || HasOnlyOrderId(e, key)) ==>
              Keyed(e).partitionKey == Some(key)
    ensures Truthy(e.partitionKey) ==> Keyed(e) == e
  {
  }

  /** Filling in the key, and marking a copy as remote, leave the route unchanged. */
  lemma RouteIsStable(hash: string -> nat, partitions: nat, e: Event)
    requires partitions > 0
    ensures PartitionIndex(hash, partitions, Keyed(e)) == PartitionIndex(hash, partitions, e)
    ensures PartitionIndex(hash, partitions, e.(isRemote := true)) == PartitionIndex(hash, partitions, e)
  {
  }
}
