/**
 Several buses joined by one broadcast channel (qtrader/core/event_bus.py:156-160, 204-243). The
 channel hands every message to every listening bus, its sender included; a listener marks what
 it receives as remote and publishes it locally.
 */
module Bridge {
  import opened Base
  import opened Routing
  import opened BusSpec
  import BusTheorems

  /**
   `inboxes[i]` holds the messages bus `i` has yet to read; `sent` every message broadcast so far,
   `lost` those whose broadcast failed.
   */
  datatype Network = Network(buses: seq<Bus>, inboxes: seq<seq<Event>>, sent: seq<Event>, lost: seq<Event>)

  datatype Move =
    | Local(bus: nat, event: Event)                      // an application publishes
    | Internal(bus: nat, action: Action)                 // start, stop or a worker step
    | Send(bus: nat, pick: nat, succeeds: bool)          // a scheduled broadcast goes out, or fails
    | Receive(bus: nat, decodes: bool)                   // a listener handles one message

  ghost predicate Wellformed(cfg: Config, net: Network) {
    && ValidConfig(cfg)
    && |net.inboxes| == |net.buses|
    && forall i :: 0 <= i < |net.buses| ==> |net.buses[i].parts| == cfg.partitions
  }

  /** One listener's side of a broadcast: nothing arrives where no listener runs. */
  function Arrive(b: Bus, inbox: seq<Event>, message: Event): seq<Event> {
    if b.running && b.bridged then inbox + [message] else inbox
  }

  function SendMove(cfg: Config, net: Network, i: nat, k: nat, succeeds: bool): Network
    requires Wellformed(cfg, net) && i < |net.buses| && k < |net.buses[i].outbox|
  {
    var b := net.buses[i];
    var message := b.outbox[k];
    var buses := net.buses[i := b.(outbox := RemoveAt(b.outbox, k))];
    if succeeds then
      Network(buses,
              seq(|net.inboxes|, j requires 0 <= j < |net.inboxes| => Arrive(net.buses[j], net.inboxes[j], message)),
              net.sent + [message], net.lost)
    else
      Network(buses, net.inboxes, net.sent, net.lost + [message])
  }

  function ReceiveMove(cfg: Config, net: Network, i: nat, decodes: bool): Network
    requires Wellformed(cfg, net) && i < |net.buses|
  {
    var b, inbox := net.buses[i], net.inboxes[i];
    if !b.running || !b.bridged || inbox == [] then net
    else
      net.(inboxes := net.inboxes[i := inbox[1..]],
           buses := if decodes then net.buses[i := Publish(cfg, b, inbox[0].(isRemote := true))] else net.buses)
  }

  /** A stop closes the bus's connection: what it had not read is gone, and a later start subscribes anew. */
  function InternalMove(cfg: Config, net: Network, i: nat, a: Action): Network
    requires Wellformed(cfg, net) && i < |net.buses|
  {
    net.(buses := net.buses[i := Step(cfg, net.buses[i], a)],
         inboxes := if a.DoStop? then net.inboxes[i := []] else net.inboxes)
  }

  /** One step of the network. An internal step is any step of a bus but a publication. */
  function MoveOn(cfg: Config, net: Network, m: Move): (after: Network)
    requires Wellformed(cfg, net)
    ensures Wellformed(cfg, after) && |after.buses| == |net.buses|
  {
    match m
    case Local(i, e) =>
      if i < |net.buses| then net.(buses := net.buses[i := Publish(cfg, net.buses[i], e)]) else net
    case Internal(i, a) =>
      if i < |net.buses| && !a.DoPublish? then InternalMove(cfg, net, i, a) else net
    case Send(i, k, succeeds) =>
      if i < |net.buses| && k < |net.buses[i].outbox| then SendMove(cfg, net, i, k, succeeds) else net
    case Receive(i, decodes) =>
      if i < |net.buses| then ReceiveMove(cfg, net, i, decodes) else net
  }

  function InitialNetwork(cfg: Config, n: nat): (net: Network)
    requires ValidConfig(cfg)
    ensures Wellformed(cfg, net) && |net.buses| == n
  {
    Network(seq(n, _ => Initial(cfg)), seq(n, _ => []), [], [])
  }

  function RunNetwork(cfg: Config, n: nat, moves: seq<Move>): (net: Network)
    requires ValidConfig(cfg)
    ensures Wellformed(cfg, net) && |net.buses| == n
  {
    if moves == [] then InitialNetwork(cfg, n)
    else MoveOn(cfg, RunNetwork(cfg, n, moves[..|moves| - 1]), moves[|moves| - 1])
  }

  // ---- Counting events ----------------------------------------------------------------------

  /** What is counted: local or remote events, of one id or of any. */
  datatype Tag = Tag(id: Option<nat>, remote: bool)

  predicate Named(e: Event, id: Option<nat>) {
    id == None || id == Some(e.id)
  }

  predicate Matches(e: Event, tag: Tag) {
    Named(e, tag.id) && e.isRemote == tag.remote
  }

  function One(e: Event, tag: Tag): nat {
    if Matches(e, tag) then 1 else 0
  }

  ghost function Count(events: seq<Event>, tag: Tag): nat {
    if events == [] then 0 else One(events[0], tag) + Count(events[1..], tag)
  }

  lemma {:induction false} CountSplit(a: seq<Event>, b: seq<Event>, tag: Tag)
    ensures Count(a + b, tag) == Count(a, tag) + Count(b, tag)
  {
    if a == [] {
      assert a + b == b;
    } else {
      CountSplit(a[1..], b, tag);
      assert (a + b)[1..] == a[1..] + b;
    }
  }

  lemma CountAppendOne(a: seq<Event>, e: Event, tag: Tag)
    ensures Count(a + [e], tag) == Count(a, tag) + One(e, tag)
  {
    CountSplit(a, [e], tag);
    assert [e][1..] == [];
  }

  lemma CountRemove(a: seq<Event>, k: nat, tag: Tag)
    requires k < |a|
    ensures Count(RemoveAt(a, k), tag) == Count(a, tag) - One(a[k], tag)
  {
    CountSplit(a[..k], a[k + 1..], tag);
    CountAppendOne(a[..k], a[k], tag);
    CountSplit(a[..k] + [a[k]], a[k + 1..], tag);
    assert a == a[..k] + [a[k]] + a[k + 1..];
  }

  // ---- One bus ------------------------------------------------------------------------------

  ghost function OutOf(b: Bus, id: Option<nat>): nat {
    Count(b.outbox, Tag(id, false)) + Count(b.blocked, Tag(id, false))
  }

  ghost function RemoteAt(b: Bus, id: Option<nat>): nat {
    Count(b.log, Tag(id, true)) + Count(b.blocked, Tag(id, true))
  }

  /** Only local events are ever announced. */
  ghost predicate OutboxIsLocal(b: Bus) {
    forall k :: 0 <= k < |b.outbox| ==> !b.outbox[k].isRemote
  }

  lemma EnqueueCounts(cfg: Config, b: Bus, e: Event, id: Option<nat>)
    requires ValidConfig(cfg) && |b.parts| == cfg.partitions
    ensures var after := Enqueue(cfg, b, e);
            && Count(after.outbox, Tag(id, false)) <= Count(b.outbox, Tag(id, false)) + One(e, Tag(id, false))
            && Count(after.log, Tag(id, true)) == Count(b.log, Tag(id, true)) + One(e, Tag(id, true))
            && after.blocked == b.blocked
            && (OutboxIsLocal(b) ==> OutboxIsLocal(after))
  {
    CountAppendOne(b.outbox, e, Tag(id, false));
    CountAppendOne(b.log, e, Tag(id, true));
    assert b.outbox + [] == b.outbox;
  }

  lemma PublishCounts(cfg: Config, b: Bus, e: Event, id: Option<nat>)
    requires ValidConfig(cfg) && |b.parts| == cfg.partitions
    ensures var after := Publish(cfg, b, e);
            && OutOf(after, id) <= OutOf(b, id) + One(e, Tag(id, false))
            && RemoteAt(after, id) <= RemoteAt(b, id) + One(e, Tag(id, true))
            && (OutboxIsLocal(b) ==> OutboxIsLocal(after))
  {
    hide Enqueue;
    match Judge(cfg, b, e)
    case Published => EnqueueCounts(cfg, b, Keyed(e), id);
    case Suspended =>
      CountAppendOne(b.blocked, Keyed(e), Tag(id, false));
      CountAppendOne(b.blocked, Keyed(e), Tag(id, true));
    case _ =>
  }

  lemma StepCounts(cfg: Config, b: Bus, a: Action, id: Option<nat>)
    requires ValidConfig(cfg) && |b.parts| == cfg.partitions && !a.DoPublish?
    ensures var after := Step(cfg, b, a);
            && OutOf(after, id) <= OutOf(b, id) && RemoteAt(after, id) <= RemoteAt(b, id)
            && (OutboxIsLocal(b) ==> OutboxIsLocal(after))
  {
    hide Enqueue, Count, Take, Deliver, Finish;
    if a.DoAdmit? && a.waiter < |b.blocked| {
      var e := b.blocked[a.waiter];
      CountRemove(b.blocked, a.waiter, Tag(id, false));
      CountRemove(b.blocked, a.waiter, Tag(id, true));
      EnqueueCounts(cfg, b.(blocked := RemoveAt(b.blocked, a.waiter)), e, id);
    }
  }

  // ---- Sums over the network ----------------------------------------------------------------

  ghost function Total(counts: seq<nat>): nat {
    if counts == [] then 0 else counts[0] + Total(counts[1..])
  }

  lemma {:induction false} TotalUpdate(counts: seq<nat>, i: nat, v: nat)
    requires i < |counts|
    ensures Total(counts[i := v]) == Total(counts) - counts[i] + v
  {
    if i > 0 {
      TotalUpdate(counts[1..], i - 1, v);
      assert counts[i := v][1..] == counts[1..][i - 1 := v];
    } else {
      assert counts[i := v][1..] == counts[1..];
    }
  }

  lemma {:induction false} TotalRise(before: seq<nat>, after: seq<nat>, step: nat)
    requires |before| == |after| && forall j :: 0 <= j < |before| ==> after[j] <= before[j] + step
    ensures Total(after) <= Total(before) + |before| * step
  {
    if before != [] {
      TotalRise(before[1..], after[1..], step);
      assert |before| * step == |before[1..]| * step + step;
    }
  }

  lemma {:induction false} TotalZero(counts: seq<nat>)
    requires forall j :: 0 <= j < |counts| ==> counts[j] == 0
    ensures Total(counts) == 0
  {
    if counts != [] {
      TotalZero(counts[1..]);
    }
  }

  ghost function Outs(net: Network, id: Option<nat>): seq<nat> {
    seq(|net.buses|, i requires 0 <= i < |net.buses| => OutOf(net.buses[i], id))
  }

  ghost function Ins(net: Network, id: Option<nat>): seq<nat> {
    seq(|net.inboxes|, i requires 0 <= i < |net.inboxes| => Count(net.inboxes[i], Tag(id, false)))
  }

  /** How often an application published an event with this id. */
  ghost function Publications(moves: seq<Move>, id: Option<nat>): nat {
    if moves == [] then 0
    else
      var m := moves[|moves| - 1];
      Publications(moves[..|moves| - 1], id) + (if m.Local? && Named(m.event, id) then 1 else 0)
  }

  ghost predicate OnlyLocalTravels(net: Network) {
    && (forall i :: 0 <= i < |net.buses| ==> OutboxIsLocal(net.buses[i]))
    && (forall i, k :: 0 <= i < |net.inboxes| && 0 <= k < |net.inboxes[i]| ==> !net.inboxes[i][k].isRemote)
  }

  /**
   What is still to be broadcast, plus what was sent or lost, is covered by the publications; so is,
   for each bus, what is still to come to it plus what it enqueued as remote.
   */
  ghost predicate Covered(net: Network, id: Option<nat>, published: nat)
    requires |net.inboxes| == |net.buses|
  {
    && Count(net.sent, Tag(id, false)) + Count(net.lost, Tag(id, false)) + Total(Outs(net, id)) <= published
    && (forall j :: 0 <= j < |net.buses| ==>
          RemoteAt(net.buses[j], id) + Ins(net, id)[j] + Total(Outs(net, id)) <= published)
  }

  ghost predicate BridgeInvariant(cfg: Config, net: Network, id: Option<nat>, published: nat) {
    Wellformed(cfg, net) && OnlyLocalTravels(net) && Covered(net, id, published)
  }

  lemma BusChange(net: Network, i: nat, b: Bus, id: Option<nat>)
    requires i < |net.buses| && |net.inboxes| == |net.buses|
    ensures var after := net.(buses := net.buses[i := b]);
            Outs(after, id) == Outs(net, id)[i := OutOf(b, id)] && Ins(after, id) == Ins(net, id)
    ensures Total(Outs(net.(buses := net.buses[i := b]), id))
         == Total(Outs(net, id)) - OutOf(net.buses[i], id) + OutOf(b, id)
    ensures OutOf(net.buses[i], id) <= Total(Outs(net, id))
  {
    TotalUpdate(Outs(net, id), i, OutOf(b, id));
    TotalUpdate(Outs(net, id), i, 0);
    assert Outs(net.(buses := net.buses[i := b]), id) == Outs(net, id)[i := OutOf(b, id)];
  }

  lemma LocalCovered(cfg: Config, net: Network, i: nat, e: Event, id: Option<nat>, published: nat)
    requires BridgeInvariant(cfg, net, id, published) && i < |net.buses|
    ensures BridgeInvariant(cfg, MoveOn(cfg, net, Local(i, e)), id, published + if Named(e, id) then 1 else 0)
  {
    hide Count, Total, Publish, RemoteAt, OutOf, OutboxIsLocal;
    var b := Publish(cfg, net.buses[i], e);
    PublishCounts(cfg, net.buses[i], e, id);
    BusChange(net, i, b, id);
  }

  /** Forgetting what one bus had not read. */
  lemma InboxEmptied(net: Network, i: nat, id: Option<nat>)
    requires i < |net.buses| && |net.inboxes| == |net.buses|
    ensures var after := net.(inboxes := net.inboxes[i := []]);
            && Outs(after, id) == Outs(net, id) && Ins(after, id) == Ins(net, id)[i := 0]
            && Total(Ins(after, id)) <= Total(Ins(net, id))
            && (OnlyLocalTravels(net) ==> OnlyLocalTravels(after))
  {
    hide Total;
    TotalUpdate(Ins(net, id), i, 0);
    assert Ins(net.(inboxes := net.inboxes[i := []]), id) == Ins(net, id)[i := 0];
  }

  lemma EmptiedCovered(cfg: Config, net: Network, i: nat, id: Option<nat>, published: nat)
    requires BridgeInvariant(cfg, net, id, published) && i < |net.buses|
    ensures BridgeInvariant(cfg, net.(inboxes := net.inboxes[i := []]), id, published)
  {
    hide Count, Total, RemoteAt, OutOf, OutboxIsLocal;
    InboxEmptied(net, i, id);
  }

  lemma InternalCovered(cfg: Config, net: Network, i: nat, a: Action, id: Option<nat>, published: nat)
    requires BridgeInvariant(cfg, net, id, published) && i < |net.buses| && !a.DoPublish?
    ensures BridgeInvariant(cfg, MoveOn(cfg, net, Internal(i, a)), id, published)
  {
    hide Count, Total, Step, RemoteAt, OutOf, OutboxIsLocal;
    StepCounts(cfg, net.buses[i], a, id);
    BusChange(net, i, Step(cfg, net.buses[i], a), id);
    EmptiedCovered(cfg, net.(buses := net.buses[i := Step(cfg, net.buses[i], a)]), i, id, published);
  }

  lemma SendCovered(cfg: Config, net: Network, i: nat, k: nat, succeeds: bool, id: Option<nat>, published: nat)
    requires BridgeInvariant(cfg, net, id, published) && i < |net.buses| && k < |net.buses[i].outbox|
    ensures BridgeInvariant(cfg, SendMove(cfg, net, i, k, succeeds), id, published)
  {
    hide Count, Total;
    var b, tag := net.buses[i], Tag(id, false);
    var message, sender := b.outbox[k], b.(outbox := RemoveAt(b.outbox, k));
    var after := SendMove(cfg, net, i, k, succeeds);
    CountRemove(b.outbox, k, tag);
    BusChange(net, i, sender, id);
    CountAppendOne(net.sent, message, tag);
    CountAppendOne(net.lost, message, tag);
    assert Outs(after, id) == Outs(net.(buses := net.buses[i := sender]), id);
    forall j | 0 <= j < |net.inboxes| ensures Ins(after, id)[j] <= Ins(net, id)[j] + One(message, tag) {
      CountAppendOne(net.inboxes[j], message, tag);
    }
  }

  lemma ReceiveCovered(cfg: Config, net: Network, i: nat, decodes: bool, id: Option<nat>, published: nat)
    requires BridgeInvariant(cfg, net, id, published) && i < |net.buses|
    ensures BridgeInvariant(cfg, ReceiveMove(cfg, net, i, decodes), id, published)
  {
    hide Total, Publish, RemoteAt, OutOf, OutboxIsLocal;
    var b, inbox := net.buses[i], net.inboxes[i];
    if b.running && b.bridged && inbox != [] {
      var arrived, after := inbox[0].(isRemote := true), ReceiveMove(cfg, net, i, decodes);
      assert MoveOn(cfg, net, Receive(i, decodes)) == after;
      PublishCounts(cfg, b, arrived, id);
      BusChange(net, i, Publish(cfg, b, arrived), id);
      assert Outs(after, id)
          == (if decodes then Outs(net.(buses := net.buses[i := Publish(cfg, b, arrived)]), id) else Outs(net, id));
      assert One(arrived, Tag(id, true)) == One(inbox[0], Tag(id, false)) && One(arrived, Tag(id, false)) == 0;
      assert OnlyLocalTravels(after) by {
        forall j, k | 0 <= j < |after.inboxes| && 0 <= k < |after.inboxes[j]| ensures !after.inboxes[j][k].isRemote {
          assert j == i ==> after.inboxes[j][k] == inbox[k + 1];
        }
      }
    }
  }

  lemma {:induction false} RunIsCovered(cfg: Config, n: nat, moves: seq<Move>, id: Option<nat>)
    requires ValidConfig(cfg)
    ensures BridgeInvariant(cfg, RunNetwork(cfg, n, moves), id, Publications(moves, id))
  {
    hide Covered, OnlyLocalTravels, Publish, Step;
    if moves == [] {
      InitialCovered(cfg, n, id);
    } else {
      var m, net := moves[|moves| - 1], RunNetwork(cfg, n, moves[..|moves| - 1]);
      var published := Publications(moves[..|moves| - 1], id);
      RunIsCovered(cfg, n, moves[..|moves| - 1], id);
      CoverageGrows(net, id, published);
      match m
      case Local(i, e) => if i < |net.buses| { LocalCovered(cfg, net, i, e, id, published); }
      case Internal(i, a) => if i < |net.buses| && !a.DoPublish? { InternalCovered(cfg, net, i, a, id, published); }
      case Send(i, k, succeeds) =>
        if i < |net.buses| && k < |net.buses[i].outbox| { SendCovered(cfg, net, i, k, succeeds, id, published); }
      case Receive(i, decodes) => if i < |net.buses| { ReceiveCovered(cfg, net, i, decodes, id, published); }
    }
  }

  lemma CoverageGrows(net: Network, id: Option<nat>, published: nat)
    requires |net.inboxes| == |net.buses| && Covered(net, id, published)
    ensures Covered(net, id, published + 1)
  {
  }

  lemma InitialCovered(cfg: Config, n: nat, id: Option<nat>)
    requires ValidConfig(cfg)
    ensures BridgeInvariant(cfg, InitialNetwork(cfg, n), id, 0)
  {
    TotalZero(Outs(InitialNetwork(cfg, n), id));
  }

  // ---- The theorems -------------------------------------------------------------------------

  /**
   Loop freedom, event by event: an event published once is broadcast at most once and enqueued as
   remote at most once by each bus, the publisher's own included.
   */
  lemma PublishedOnceBroadcastOnce(cfg: Config, n: nat, moves: seq<Move>, id: nat)
    requires ValidConfig(cfg) && Publications(moves, Some(id)) <= 1
    ensures var net := RunNetwork(cfg, n, moves);
            && Count(net.sent, Tag(Some(id), false)) + Count(net.lost, Tag(Some(id), false)) <= 1
            && forall j :: 0 <= j < n ==> Count(net.buses[j].log, Tag(Some(id), true)) <= 1
  {
    hide RunNetwork, Total, Count;
    RunIsCovered(cfg, n, moves, Some(id));
    var net := RunNetwork(cfg, n, moves);
    forall j | 0 <= j < n ensures Count(net.buses[j].log, Tag(Some(id), true)) <= 1 {
      assert RemoteAt(net.buses[j], Some(id)) <= 1;
    }
  }

  ghost function Locals(events: seq<Event>): seq<Event> {
    if events == [] then []
    else
      var n := |events| - 1;
      Locals(events[..n]) + (if events[n].isRemote then [] else [events[n]])
  }

  lemma EnqueueAnnounces(cfg: Config, b: Bus, e: Event)
    requires ValidConfig(cfg) && |b.parts| == cfg.partitions && b.bridged && b.announced == Locals(b.log)
    ensures Enqueue(cfg, b, e).announced == Locals(Enqueue(cfg, b, e).log)
  {
    assert (b.log + [e])[..|b.log|] == b.log;
  }

  /** Announced is what was accepted of local events; nothing is accepted before the start. */
  ghost predicate AnnouncesLocals(b: Bus) {
    && b.announced == Locals(b.log)
    && b.bridged == b.running && (!b.running ==> b.log == b.blocked == [])
  }

  lemma PublishAnnounces(cfg: Config, b: Bus, e: Event)
    requires ValidConfig(cfg) && |b.parts| == cfg.partitions && AnnouncesLocals(b)
    ensures AnnouncesLocals(Publish(cfg, b, e))
  {
    hide Enqueue, Locals, Route;
    if Judge(cfg, b, e) == Published {
      EnqueueAnnounces(cfg, b, Keyed(e));
      EnqueueFrame(cfg, b, Keyed(e));
    }
  }

  lemma AdmitAnnounces(cfg: Config, b: Bus, k: nat)
    requires ValidConfig(cfg) && |b.parts| == cfg.partitions && AnnouncesLocals(b) && k < |b.blocked|
    ensures AnnouncesLocals(Admit(cfg, b, k))
  {
    hide Enqueue, Locals, Route;
    var room := b.(blocked := RemoveAt(b.blocked, k));
    EnqueueAnnounces(cfg, room, b.blocked[k]);
    EnqueueFrame(cfg, room, b.blocked[k]);
  }

  /**
   Announcements, over a whole run: while the bridge is up they are the local events in order of
   acceptance, each one once - and never an event that came over the bridge.
   */
  lemma {:induction false} AnnouncedAreLocals(cfg: Config, actions: seq<Action>)
    requires ValidConfig(cfg) && cfg.redis && BusTheorems.Stops(actions) == 0
    ensures AnnouncesLocals(Run(cfg, actions))
  {
    hide Publish, Admit, Take, Deliver, Finish, Locals;
    if actions == [] {
      assert Locals([]) == [] by { NoLocals(); }
    } else {
      var b, a := Run(cfg, actions[..|actions| - 1]), actions[|actions| - 1];
      AnnouncedAreLocals(cfg, actions[..|actions| - 1]);
      if a.DoPublish? {
        PublishAnnounces(cfg, b, a.event);
      } else if a.DoAdmit? && a.waiter < |b.blocked| {
        AdmitAnnounces(cfg, b, a.waiter);
      }
    }
  }

  lemma NoLocals()
    ensures Locals([]) == []
  {
  }

  lemma EnqueueFrame(cfg: Config, b: Bus, e: Event)
    requires ValidConfig(cfg) && |b.parts| == cfg.partitions
    ensures var after := Enqueue(cfg, b, e);
            after.running == b.running && after.bridged == b.bridged && after.blocked == b.blocked
  {
  }

  // ---- Every announcement is sent, once -----------------------------------------------------

  /** Announced events of this tag that have left the outbox. */
  ghost function Shipped(b: Bus, tag: Tag): nat {
    var rest := Count(b.announced, tag) - Count(b.outbox, tag);
    if rest >= 0 then rest else 0
  }

  ghost predicate OutboxAnnounced(b: Bus, tag: Tag) {
    Count(b.outbox, tag) <= Count(b.announced, tag)
  }

  lemma EnqueueShips(cfg: Config, b: Bus, e: Event, tag: Tag)
    requires ValidConfig(cfg) && |b.parts| == cfg.partitions && OutboxAnnounced(b, tag)
    ensures OutboxAnnounced(Enqueue(cfg, b, e), tag) && Shipped(Enqueue(cfg, b, e), tag) == Shipped(b, tag)
  {
    hide Count;
    CountAppendOne(b.outbox, e, tag);
    CountAppendOne(b.announced, e, tag);
    assert b.outbox + [] == b.outbox && b.announced + [] == b.announced;
  }

  lemma StepShips(cfg: Config, b: Bus, a: Action, tag: Tag)
    requires ValidConfig(cfg) && |b.parts| == cfg.partitions && OutboxAnnounced(b, tag)
    ensures OutboxAnnounced(Step(cfg, b, a), tag) && Shipped(Step(cfg, b, a), tag) == Shipped(b, tag)
  {
    hide Enqueue, Count, Take, Deliver, Finish;
    if a.DoPublish? && Judge(cfg, b, a.event) == Published {
      EnqueueShips(cfg, b, Keyed(a.event), tag);
    } else if a.DoAdmit? && a.waiter < |b.blocked| {
      EnqueueShips(cfg, b.(blocked := RemoveAt(b.blocked, a.waiter)), b.blocked[a.waiter], tag);
    }
  }

  ghost function Shipments(net: Network, tag: Tag): seq<nat> {
    seq(|net.buses|, i requires 0 <= i < |net.buses| => Shipped(net.buses[i], tag))
  }

  /** Broadcasts, sent or lost, are exactly the announcements that have left an outbox. */
  ghost predicate Conserved(net: Network, tag: Tag) {
    && (forall i :: 0 <= i < |net.buses| ==> OutboxAnnounced(net.buses[i], tag))
    && Count(net.sent, tag) + Count(net.lost, tag) == Total(Shipments(net, tag))
  }

  lemma StepConserves(cfg: Config, net: Network, i: nat, a: Action, inboxes: seq<seq<Event>>, tag: Tag)
    requires Wellformed(cfg, net) && Conserved(net, tag) && i < |net.buses|
    ensures Conserved(Network(net.buses[i := Step(cfg, net.buses[i], a)], inboxes, net.sent, net.lost), tag)
  {
    hide Step, Count, Total, Shipped, OutboxAnnounced;
    StepShips(cfg, net.buses[i], a, tag);
    var after := Network(net.buses[i := Step(cfg, net.buses[i], a)], inboxes, net.sent, net.lost);
    assert Shipments(after, tag) == Shipments(net, tag);
  }

  lemma SendConserves(cfg: Config, net: Network, i: nat, k: nat, succeeds: bool, tag: Tag)
    requires Wellformed(cfg, net) && Conserved(net, tag) && i < |net.buses| && k < |net.buses[i].outbox|
    ensures Conserved(SendMove(cfg, net, i, k, succeeds), tag)
  {
    hide Count, Total;
    var b, after := net.buses[i], SendMove(cfg, net, i, k, succeeds);
    var message := b.outbox[k];
    CountRemove(b.outbox, k, tag);
    CountAppendOne(net.sent, message, tag);
    CountAppendOne(net.lost, message, tag);
    assert Shipments(after, tag) == Shipments(net, tag)[i := Shipped(b, tag) + One(message, tag)];
    TotalUpdate(Shipments(net, tag), i, Shipped(b, tag) + One(message, tag));
  }

  lemma {:induction false} BroadcastsAreAnnouncements(cfg: Config, n: nat, moves: seq<Move>, tag: Tag)
    requires ValidConfig(cfg)
    ensures Conserved(RunNetwork(cfg, n, moves), tag)
  {
    hide Conserved, Publish, Step;
    if moves == [] {
      NothingShipped(cfg, n, tag);
    } else {
      var m, net := moves[|moves| - 1], RunNetwork(cfg, n, moves[..|moves| - 1]);
      BroadcastsAreAnnouncements(cfg, n, moves[..|moves| - 1], tag);
      match m
      case Local(i, e) =>
        if i < |net.buses| {
          StepConserves(cfg, net, i, DoPublish(e), net.inboxes, tag);
          PublishIsStep(cfg, net.buses[i], e);
        }
      case Internal(i, a) =>
        if i < |net.buses| && !a.DoPublish? {
          StepConserves(cfg, net, i, a, InternalMove(cfg, net, i, a).inboxes, tag);
        }
      case Send(i, k, succeeds) =>
        if i < |net.buses| && k < |net.buses[i].outbox| { SendConserves(cfg, net, i, k, succeeds, tag); }
      case Receive(i, decodes) =>
        if BridgeWork(cfg, net, m) {
          var arrived := net.inboxes[i][0].(isRemote := true);
          StepConserves(cfg, net, i, DoPublish(arrived), net.inboxes[i := net.inboxes[i][1..]], tag);
          PublishIsStep(cfg, net.buses[i], arrived);
          InboxesDoNotCount(net, net.inboxes[i := net.inboxes[i][1..]], tag);
        }
    }
  }

  lemma PublishIsStep(cfg: Config, b: Bus, e: Event)
    requires ValidConfig(cfg) && |b.parts| == cfg.partitions
    ensures Step(cfg, b, DoPublish(e)) == Publish(cfg, b, e)
  {
  }

  lemma InboxesDoNotCount(net: Network, inboxes: seq<seq<Event>>, tag: Tag)
    requires Conserved(net, tag)
    ensures Conserved(net.(inboxes := inboxes), tag)
  {
    assert Shipments(net.(inboxes := inboxes), tag) == Shipments(net, tag);
  }

  lemma NothingShipped(cfg: Config, n: nat, tag: Tag)
    requires ValidConfig(cfg)
    ensures Conserved(InitialNetwork(cfg, n), tag)
  {
    TotalZero(Shipments(InitialNetwork(cfg, n), tag));
  }

  /** Once the outboxes are empty, each event has been sent or lost exactly as often as it was announced. */
  lemma DrainedMeansBroadcast(cfg: Config, n: nat, moves: seq<Move>, id: nat)
    requires ValidConfig(cfg)
    requires forall i :: 0 <= i < n ==> RunNetwork(cfg, n, moves).buses[i].outbox == []
    ensures var net, tag := RunNetwork(cfg, n, moves), Tag(Some(id), false);
            Count(net.sent, tag) + Count(net.lost, tag)
            == Total(seq(n, i requires 0 <= i < n => Count(net.buses[i].announced, tag)))
  {
    hide RunNetwork, Total;
    var net, tag := RunNetwork(cfg, n, moves), Tag(Some(id), false);
    BroadcastsAreAnnouncements(cfg, n, moves, tag);
    assert Shipments(net, tag) == seq(n, i requires 0 <= i < n => Count(net.buses[i].announced, tag));
  }

  lemma {:induction false} TotalAtLeast(counts: seq<nat>, i: nat)
    requires i < |counts|
    ensures Total(counts) >= counts[i]
  {
    if i > 0 {
      TotalAtLeast(counts[1..], i - 1);
    }
  }

  lemma {:induction false} CountAtLeast(events: seq<Event>, tag: Tag, k: nat)
    requires k < |events| && Matches(events[k], tag)
    ensures Count(events, tag) >= 1
  {
    if k > 0 {
      CountAtLeast(events[1..], tag, k - 1);
    }
  }

  /**
   Exactly one broadcast: for an event published once, and accepted by a bus while its bridge was up,
   exactly one broadcast was made by the time the outboxes are empty. It went out unless it failed.
   */
  lemma ExactlyOneBroadcast(cfg: Config, n: nat, moves: seq<Move>, id: nat, i: nat, k: nat)
    requires ValidConfig(cfg) && Publications(moves, Some(id)) <= 1
    requires i < n && k < |RunNetwork(cfg, n, moves).buses[i].announced|
    requires Matches(RunNetwork(cfg, n, moves).buses[i].announced[k], Tag(Some(id), false))
    requires forall j :: 0 <= j < n ==> RunNetwork(cfg, n, moves).buses[j].outbox == []
    ensures var net, tag := RunNetwork(cfg, n, moves), Tag(Some(id), false);
            Count(net.sent, tag) + Count(net.lost, tag) == 1
  {
    hide RunNetwork, Total, Count;
    var net, tag := RunNetwork(cfg, n, moves), Tag(Some(id), false);
    PublishedOnceBroadcastOnce(cfg, n, moves, id);
    DrainedMeansBroadcast(cfg, n, moves, id);
    CountAtLeast(net.buses[i].announced, tag, k);
    TotalAtLeast(seq(n, j requires 0 <= j < n => Count(net.buses[j].announced, tag)), i);
  }

  // ---- Termination --------------------------------------------------------------------------

  /** The work the bridge still has to do: one broadcast and `n` receptions for each waiting event. */
  ghost function Outstanding(net: Network): nat {
    (|net.buses| + 1) * Total(Outs(net, None)) + Total(Ins(net, None))
  }

  /** Whether a move actually sends or receives something. */
  ghost predicate BridgeWork(cfg: Config, net: Network, m: Move) {
    || (m.Send? && m.bus < |net.buses| && m.pick < |net.buses[m.bus].outbox|)
    || (m.Receive? && m.bus < |net.buses| && |net.inboxes| == |net.buses|
        && net.buses[m.bus].running && net.buses[m.bus].bridged && net.inboxes[m.bus] != [])
  }

  ghost function BridgeMoves(cfg: Config, n: nat, moves: seq<Move>): nat
    requires ValidConfig(cfg)
  {
    if moves == [] then 0
    else
      var shorter := moves[..|moves| - 1];
      BridgeMoves(cfg, n, shorter) + (if BridgeWork(cfg, RunNetwork(cfg, n, shorter), moves[|moves| - 1]) then 1 else 0)
  }

  lemma SendWorks(cfg: Config, net: Network, i: nat, k: nat, succeeds: bool)
    requires Wellformed(cfg, net) && OnlyLocalTravels(net)
    requires i < |net.buses| && k < |net.buses[i].outbox|
    ensures Outstanding(SendMove(cfg, net, i, k, succeeds)) + 1 <= Outstanding(net)
  {
    hide Count, Total;
    var b, tag := net.buses[i], Tag(None, false);
    var message, sender := b.outbox[k], b.(outbox := RemoveAt(b.outbox, k));
    var after := SendMove(cfg, net, i, k, succeeds);
    CountRemove(b.outbox, k, tag);
    BusChange(net, i, sender, None);
    assert Outs(after, None) == Outs(net.(buses := net.buses[i := sender]), None);
    forall j | 0 <= j < |net.inboxes| ensures Ins(after, None)[j] <= Ins(net, None)[j] + 1 {
      CountAppendOne(net.inboxes[j], message, tag);
    }
    TotalRise(Ins(net, None), Ins(after, None), 1);
    Distribute(|net.buses|, Total(Outs(after, None)));
  }

  lemma Distribute(n: nat, x: nat)
    ensures (n + 1) * (x + 1) == (n + 1) * x + n + 1
  {
  }

  lemma ReceiveWorks(cfg: Config, net: Network, i: nat, decodes: bool)
    requires Wellformed(cfg, net) && OnlyLocalTravels(net)
    requires BridgeWork(cfg, net, Receive(i, decodes))
    ensures Outstanding(ReceiveMove(cfg, net, i, decodes)) + 1 <= Outstanding(net)
  {
    hide Total, Publish, OutOf;
    var b, inbox := net.buses[i], net.inboxes[i];
    var arrived := inbox[0].(isRemote := true);
    var after := ReceiveMove(cfg, net, i, decodes);
    PublishCounts(cfg, b, arrived, None);
    BusChange(net, i, Publish(cfg, b, arrived), None);
    assert Ins(after, None) == Ins(net, None)[i := Count(inbox[1..], Tag(None, false))];
    TotalUpdate(Ins(net, None), i, Count(inbox[1..], Tag(None, false)));
    assert Outs(after, None)
        == (if decodes then Outs(net.(buses := net.buses[i := Publish(cfg, b, arrived)]), None) else Outs(net, None));
    ScaleOrder(|net.buses|, Total(Outs(after, None)), Total(Outs(net, None)));
  }

  lemma ScaleOrder(n: nat, x: nat, y: nat)
    requires x <= y
    ensures (n + 1) * x <= (n + 1) * y
  {
  }

  lemma OtherMovesWork(cfg: Config, net: Network, m: Move)
    requires Wellformed(cfg, net) && (m.Local? || m.Internal?)
    ensures Outstanding(MoveOn(cfg, net, m)) <= Outstanding(net) + (if m.Local? then |net.buses| + 1 else 0)
  {
    hide Count, Total, Publish, Step, OutOf;
    var i := m.bus;
    if i < |net.buses| && (m.Internal? ==> !m.action.DoPublish?) {
      var b := net.buses[i];
      if m.Local? {
        PublishCounts(cfg, b, m.event, None);
        BusChange(net, i, Publish(cfg, b, m.event), None);
      } else {
        StepCounts(cfg, b, m.action, None);
        BusChange(net, i, Step(cfg, b, m.action), None);
        InboxEmptied(net.(buses := net.buses[i := Step(cfg, b, m.action)]), i, None);
      }
      var x, y := Total(Outs(MoveOn(cfg, net, m), None)), Total(Outs(net, None));
      Distribute(|net.buses|, y);
      ScaleOrder(|net.buses|, x, y + if m.Local? then 1 else 0);
    }
  }

  /**
   Circulation terminates: in every run the number of broadcasts and receptions is at most
   `n + 1` per local publication, because each one uses up outstanding work.
   */
  lemma {:induction false} CirculationTerminates(cfg: Config, n: nat, moves: seq<Move>)
    requires ValidConfig(cfg)
    ensures BridgeMoves(cfg, n, moves) + Outstanding(RunNetwork(cfg, n, moves)) <= (n + 1) * Publications(moves, None)
  {
    hide Outstanding, Publish, Step, OnlyLocalTravels, Covered, SendMove, ReceiveMove;
    if moves == [] {
      NothingOutstanding(cfg, n);
    } else {
      var m, shorter := moves[|moves| - 1], moves[..|moves| - 1];
      var net := RunNetwork(cfg, n, shorter);
      CirculationTerminates(cfg, n, shorter);
      RunIsCovered(cfg, n, shorter, None);
      Distribute(n, Publications(shorter, None));
      match m
      case Send(i, k, succeeds) => if BridgeWork(cfg, net, m) { SendWorks(cfg, net, i, k, succeeds); }
      case Receive(i, decodes) =>
        if BridgeWork(cfg, net, m) { ReceiveWorks(cfg, net, i, decodes); } else { IdleReceive(cfg, net, i, decodes); }
      case _ => OtherMovesWork(cfg, net, m);
    }
  }

  lemma IdleReceive(cfg: Config, net: Network, i: nat, decodes: bool)
    requires Wellformed(cfg, net) && !BridgeWork(cfg, net, Receive(i, decodes))
    ensures MoveOn(cfg, net, Receive(i, decodes)) == net
  {
  }

  lemma NothingOutstanding(cfg: Config, n: nat)
    requires ValidConfig(cfg)
    ensures Outstanding(InitialNetwork(cfg, n)) == 0
  {
    TotalZero(Outs(InitialNetwork(cfg, n), None));
    TotalZero(Ins(InitialNetwork(cfg, n), None));
  }
}
