/**
 A bus hears its own broadcasts (qtrader/core/event_bus.py:153-163, 204-243), so its handlers can get
 an event that was published once a second time. This module says exactly when, and how often.
 */
module Echo {
  import opened Base
  import opened Routing
  import opened BusSpec
  import opened BusTheorems
  import opened Bridge

  // ---- Every bus of a network keeps the account of a single bus -----------------------------

  lemma {:induction false} NetworkKeepsInvariant(cfg: Config, n: nat, moves: seq<Move>, j: nat)
    requires ValidConfig(cfg) && j < n
    ensures BusInvariant(cfg, RunNetwork(cfg, n, moves).buses[j])
  {
    hide BusInvariant, Step, Publish;
    if moves == [] {
      InitialInvariant(cfg);
    } else {
      var m, net := moves[|moves| - 1], RunNetwork(cfg, n, moves[..|moves| - 1]);
      NetworkKeepsInvariant(cfg, n, moves[..|moves| - 1], j);
      var b := net.buses[j];
      match m
      case Local(_, e) =>
        StepKeepsInvariant(cfg, b, DoPublish(e));
        PublishIsStep(cfg, b, e);
      case Internal(_, a) => StepKeepsInvariant(cfg, b, a);
      case Send(i, k, _) => if i == j && k < |b.outbox| { OutboxDoesNotMatter(cfg, b, RemoveAt(b.outbox, k)); }
      case Receive(_, _) =>
        if net.inboxes[j] != [] {
          StepKeepsInvariant(cfg, b, DoPublish(net.inboxes[j][0].(isRemote := true)));
          PublishIsStep(cfg, b, net.inboxes[j][0].(isRemote := true));
        }
    }
  }

  lemma OutboxDoesNotMatter(cfg: Config, b: Bus, outbox: seq<Event>)
    requires ValidConfig(cfg) && BusInvariant(cfg, b)
    ensures BusInvariant(cfg, b.(outbox := outbox))
  {
  }

  // ---- Copies of one event ------------------------------------------------------------------

  /** Accepted or waiting events of this tag. */
  ghost function Held(b: Bus, tag: Tag): nat {
    Count(b.log, tag) + Count(b.blocked, tag)
  }

  /** Accepted events of this id, local or remote. */
  ghost function Copies(events: seq<Event>, id: nat): nat {
    Count(events, Tag(Some(id), false)) + Count(events, Tag(Some(id), true))
  }

  lemma PublishHolds(cfg: Config, b: Bus, e: Event, tag: Tag)
    requires ValidConfig(cfg) && |b.parts| == cfg.partitions
    ensures Held(Publish(cfg, b, e), tag) <= Held(b, tag) + One(e, tag)
  {
    hide Count, Route;
    CountAppendOne(b.log, Keyed(e), tag);
    CountAppendOne(b.blocked, Keyed(e), tag);
  }

  lemma StepHolds(cfg: Config, b: Bus, a: Action, tag: Tag)
    requires ValidConfig(cfg) && |b.parts| == cfg.partitions && !a.DoPublish?
    ensures Held(Step(cfg, b, a), tag) == Held(b, tag)
  {
    hide Count, Take, Deliver, Finish, Cancel, Route;
    if a.DoAdmit? && a.waiter < |b.blocked| {
      CountRemove(b.blocked, a.waiter, tag);
      CountAppendOne(b.log, b.blocked[a.waiter], tag);
    }
  }

  /** A bus holds no more local copies of an event than applications published. */
  lemma {:induction false} LocalCopies(cfg: Config, n: nat, moves: seq<Move>, id: nat, j: nat)
    requires ValidConfig(cfg) && j < n
    ensures Held(RunNetwork(cfg, n, moves).buses[j], Tag(Some(id), false)) <= Publications(moves, Some(id))
  {
    hide Held, Publish, Step;
    var tag := Tag(Some(id), false);
    if moves == [] {
      assert Held(Initial(cfg), tag) == 0 by { NothingHeld(cfg, tag); }
    } else {
      var m, net := moves[|moves| - 1], RunNetwork(cfg, n, moves[..|moves| - 1]);
      var b := net.buses[j];
      LocalCopies(cfg, n, moves[..|moves| - 1], id, j);
      match m
      case Local(_, e) => PublishHolds(cfg, b, e, tag);
      case Internal(_, a) => if !a.DoPublish? { StepHolds(cfg, b, a, tag); }
      case Send(i, k, _) => if i == j && k < |b.outbox| { HeldWithoutOutbox(b, RemoveAt(b.outbox, k), tag); }
      case Receive(_, _) => if net.inboxes[j] != [] { PublishHolds(cfg, b, net.inboxes[j][0].(isRemote := true), tag); }
    }
  }

  lemma NothingHeld(cfg: Config, tag: Tag)
    requires ValidConfig(cfg)
    ensures Held(Initial(cfg), tag) == 0
  {
  }

  lemma HeldWithoutOutbox(b: Bus, outbox: seq<Event>, tag: Tag)
    ensures Held(b.(outbox := outbox), tag) == Held(b, tag)
  {
  }

  /** Without the bridge nothing is ever announced, sent, lost or received. */
  ghost predicate Silent(net: Network) {
    && net.sent == net.lost == []
    && (forall i :: 0 <= i < |net.buses| ==>
          !net.buses[i].bridged && net.buses[i].outbox == net.buses[i].announced == [])
    && (forall i :: 0 <= i < |net.inboxes| ==> net.inboxes[i] == [])
  }

  lemma StepStaysSilent(cfg: Config, b: Bus, a: Action)
    requires ValidConfig(cfg) && |b.parts| == cfg.partitions && !cfg.redis
    requires !b.bridged && b.outbox == b.announced == []
    ensures var after := Step(cfg, b, a); !after.bridged && after.outbox == after.announced == []
  {
    hide Take, Deliver, Finish, Cancel, Route;
  }

  lemma {:induction false} NoBridgeNoTraffic(cfg: Config, n: nat, moves: seq<Move>)
    requires ValidConfig(cfg) && !cfg.redis
    ensures Silent(RunNetwork(cfg, n, moves))
  {
    hide Step, Publish;
    if moves != [] {
      var m, net := moves[|moves| - 1], RunNetwork(cfg, n, moves[..|moves| - 1]);
      NoBridgeNoTraffic(cfg, n, moves[..|moves| - 1]);
      match m
      case Local(i, e) =>
        if i < n {
          StepStaysSilent(cfg, net.buses[i], DoPublish(e));
          PublishIsStep(cfg, net.buses[i], e);
        }
      case Internal(i, a) => if i < n { StepStaysSilent(cfg, net.buses[i], a); }
      case _ =>
    }
  }

  lemma {:induction false} CopiesWithoutBridge(cfg: Config, n: nat, moves: seq<Move>, id: nat, j: nat)
    requires ValidConfig(cfg) && !cfg.redis && j < n
    ensures var b := RunNetwork(cfg, n, moves).buses[j];
            Held(b, Tag(Some(id), false)) + Held(b, Tag(Some(id), true)) <= Publications(moves, Some(id))
  {
    hide Held, Publish, Step;
    var local, remote := Tag(Some(id), false), Tag(Some(id), true);
    if moves == [] {
      NothingHeld(cfg, local);
      NothingHeld(cfg, remote);
    } else {
      var m, net := moves[|moves| - 1], RunNetwork(cfg, n, moves[..|moves| - 1]);
      var b := net.buses[j];
      CopiesWithoutBridge(cfg, n, moves[..|moves| - 1], id, j);
      NoBridgeNoTraffic(cfg, n, moves[..|moves| - 1]);
      match m
      case Local(_, e) =>
        PublishHolds(cfg, b, e, local);
        PublishHolds(cfg, b, e, remote);
      case Internal(_, a) =>
        if !a.DoPublish? {
          StepHolds(cfg, b, a, local);
          StepHolds(cfg, b, a, remote);
        }
      case _ =>
    }
  }

  /** An event published once is accepted at most twice by any bus, and at most once without the bridge. */
  lemma AcceptedAtMostTwice(cfg: Config, n: nat, moves: seq<Move>, id: nat, j: nat)
    requires ValidConfig(cfg) && Publications(moves, Some(id)) <= 1 && j < n
    ensures Copies(RunNetwork(cfg, n, moves).buses[j].log, id) <= (if cfg.redis then 2 else 1)
  {
    hide RunNetwork, Count;
    if cfg.redis {
      LocalCopies(cfg, n, moves, id, j);
      PublishedOnceBroadcastOnce(cfg, n, moves, id);
    } else {
      CopiesWithoutBridge(cfg, n, moves, id, j);
    }
  }

  // ---- Handled twice ------------------------------------------------------------------------

  /** One handler got two accepted copies of the event. Repeated turns of one copy do not count. */
  ghost predicate HandlesTwice(part: Partition, id: nat) {
    exists a, c :: 0 <= a < c < |part.deliveries| && SameTwice(part.deliveries[a], part.deliveries[c], id)
  }

  ghost predicate SameTwice(x: Delivery, y: Delivery, id: nat) {
    x.event.id == id && y.event.id == id && x.handler == y.handler && x.position != y.position
  }

  ghost predicate SeenTwice(net: Network, id: nat) {
    exists j, p :: 0 <= j < |net.buses| && 0 <= p < |net.buses[j].parts| && HandlesTwice(net.buses[j].parts[p], id)
  }

  lemma OneCopy(events: seq<Event>, id: nat, x: nat)
    requires x < |events| && events[x].id == id
    ensures Copies(events, id) >= 1
  {
    CountAtLeast(events, Tag(Some(id), events[x].isRemote), x);
  }

  lemma TwoCopies(events: seq<Event>, id: nat, x: nat, y: nat)
    requires x < y < |events| && events[x].id == id && events[y].id == id
    ensures Copies(events, id) >= 2
  {
    hide Count;
    OneCopy(events[..y], id, x);
    OneCopy(events[y..], id, 0);
    assert events == events[..y] + events[y..];
    CountSplit(events[..y], events[y..], Tag(Some(id), false));
    CountSplit(events[..y], events[y..], Tag(Some(id), true));
  }

  lemma {:induction false} AcceptedCopies(cfg: Config, log: seq<Event>, p: nat, tag: Tag)
    requires ValidConfig(cfg)
    ensures Count(AcceptedBy(cfg, log, p), tag) <= Count(log, tag)
  {
    hide Route;
    if log != [] {
      var n := |log| - 1;
      AcceptedCopies(cfg, log[..n], p, tag);
      assert log == log[..n] + [log[n]];
      CountAppendOne(log[..n], log[n], tag);
      CountAppendOne(AcceptedBy(cfg, log[..n], p), log[n], tag);
      assert AcceptedBy(cfg, log[..n], p) + [] == AcceptedBy(cfg, log[..n], p);
    }
  }

  lemma TwiceMeansTwoCopies(cfg: Config, b: Bus, p: nat, id: nat)
    requires ValidConfig(cfg) && BusInvariant(cfg, b) && p < |b.parts| && HandlesTwice(b.parts[p], id)
    ensures Copies(b.log, id) >= 2
  {
    hide Accounted, AcceptedBy, Count;
    var part, accepted := b.parts[p], AcceptedBy(cfg, b.log, p);
    PartitionInOrder(cfg, accepted, part);
    var a, c :| 0 <= a < c < |part.deliveries| && SameTwice(part.deliveries[a], part.deliveries[c], id);
    TwoCopies(accepted, id, part.deliveries[a].position, part.deliveries[c].position);
    AcceptedCopies(cfg, b.log, p, Tag(Some(id), false));
    AcceptedCopies(cfg, b.log, p, Tag(Some(id), true));
  }

  lemma NeverTwiceWithoutBridge(cfg: Config, n: nat, moves: seq<Move>, id: nat)
    requires ValidConfig(cfg) && !cfg.redis && Publications(moves, Some(id)) <= 1
    ensures !SeenTwice(RunNetwork(cfg, n, moves), id)
  {
    hide RunNetwork, HandlesTwice, BusInvariant, Copies;
    var net := RunNetwork(cfg, n, moves);
    if j, p :| 0 <= j < |net.buses| && 0 <= p < |net.buses[j].parts| && HandlesTwice(net.buses[j].parts[p], id) {
      NetworkKeepsInvariant(cfg, n, moves, j);
      TwiceMeansTwoCopies(cfg, net.buses[j], p, id);
      AcceptedAtMostTwice(cfg, n, moves, id, j);
    }
  }

  // ---- A run in which it happens ------------------------------------------------------------

  lemma OneMore(cfg: Config, n: nat, moves: seq<Move>, m: Move)
    requires ValidConfig(cfg)
    ensures RunNetwork(cfg, n, moves + [m]) == MoveOn(cfg, RunNetwork(cfg, n, moves), m)
    ensures forall id ::
              Publications(moves + [m], id)
              == Publications(moves, id) + (if m.Local? && Named(m.event, id) then 1 else 0)
  {
    assert (moves + [m])[..|moves|] == moves;
  }

  function EchoOf(e: Event): Event {
    Keyed(Keyed(e).(isRemote := true))
  }

  /** Bus 0 has the event in hand, `served` handlers have had it, and its echo waits behind it. */
  ghost predicate EchoWaits(cfg: Config, net: Network, e: Event, served: nat)
    requires Wellformed(cfg, net) && served <= |cfg.handlers(e.kind)|
  {
    && |net.buses| > 0
    && net.buses[0].parts[Route(cfg, e)]
         == Partition([EchoOf(e)], Busy(Keyed(e), served), [], Turns(cfg, 0, Keyed(e), served), [])
  }

  /** Start, publish, take: the event is in hand and its broadcast pending. */
  ghost predicate BroadcastPends(cfg: Config, net: Network, e: Event)
    requires Wellformed(cfg, net)
  {
    && |net.buses| > 0 && net.inboxes[0] == []
    && net.buses[0].running && net.buses[0].bridged && net.buses[0].outbox == [Keyed(e)]
    && net.buses[0].parts[Route(cfg, e)] == Partition([], Busy(Keyed(e), 0), [], [], [])
  }

  lemma EventInHand(cfg: Config, n: nat, e: Event) returns (moves: seq<Move>)
    requires ValidConfig(cfg) && cfg.redis && n > 0 && !e.isRemote && !ShouldDrop(cfg.limits, 0, e.kind)
    ensures Publications(moves, Some(e.id)) == 1 && BroadcastPends(cfg, RunNetwork(cfg, n, moves), e)
  {
    hide RunNetwork, Route;
    RoutesAgree(cfg, e);
    NoMoves(cfg, n, e.id);
    var start, publish, take := Internal(0, DoStart), Local(0, e), Internal(0, DoTake(Route(cfg, e)));
    OneMore(cfg, n, [], start);
    OneMore(cfg, n, [] + [start], publish);
    OneMore(cfg, n, [] + [start] + [publish], take);
    moves := [] + [start] + [publish] + [take];
  }

  /** Send, receive: its echo waits behind it. */
  lemma EchoArrives(cfg: Config, n: nat, e: Event) returns (moves: seq<Move>)
    requires ValidConfig(cfg) && cfg.redis && n > 0 && !e.isRemote && !ShouldDrop(cfg.limits, 0, e.kind)
    ensures Publications(moves, Some(e.id)) == 1 && EchoWaits(cfg, RunNetwork(cfg, n, moves), e, 0)
  {
    hide RunNetwork, Route;
    RoutesAgree(cfg, e);
    RoutesAgree(cfg, Keyed(e).(isRemote := true));
    RemoteRoute(cfg, Keyed(e));
    var before := EventInHand(cfg, n, e);
    var send, receive := Send(0, 0, true), Receive(0, true);
    OneMore(cfg, n, before, send);
    OneMore(cfg, n, before + [send], receive);
    moves := before + [send] + [receive];
    assert RunNetwork(cfg, n, before + [send]).inboxes[0] == [Keyed(e)];
    assert Turns(cfg, 0, Keyed(e), 0) == [];
  }

  lemma RemoteRoute(cfg: Config, e: Event)
    requires ValidConfig(cfg)
    ensures Route(cfg, e.(isRemote := true)) == Route(cfg, e)
  {
    RouteIsStable(cfg.hash, cfg.partitions, e);
  }

  lemma NoMoves(cfg: Config, n: nat, id: nat)
    requires ValidConfig(cfg)
    ensures RunNetwork(cfg, n, []) == InitialNetwork(cfg, n) && Publications([], Some(id)) == 0
  {
  }

  lemma {:induction false} EchoKeepsWaiting(cfg: Config, n: nat, before: seq<Move>, e: Event, served: nat)
    returns (moves: seq<Move>)
    requires ValidConfig(cfg) && served <= |cfg.handlers(e.kind)|
    requires Publications(before, Some(e.id)) == 1 && EchoWaits(cfg, RunNetwork(cfg, n, before), e, 0)
    ensures Publications(moves, Some(e.id)) == 1 && EchoWaits(cfg, RunNetwork(cfg, n, moves), e, served)
  {
    hide RunNetwork, Route;
    if served == 0 {
      moves := before;
    } else {
      var fewer := EchoKeepsWaiting(cfg, n, before, e, served - 1);
      var next := Internal(0, DoDeliver(Route(cfg, e)));
      moves := fewer + [next];
      OneMore(cfg, n, fewer, next);
      assert Turns(cfg, 0, Keyed(e), served)
          == Turns(cfg, 0, Keyed(e), served - 1) + [Delivery(0, Keyed(e), cfg.handlers(e.kind)[served - 1])];
    }
  }

  /** All handlers have had the event, and its echo is now in hand. */
  ghost predicate EchoInHand(cfg: Config, net: Network, e: Event)
    requires Wellformed(cfg, net)
  {
    && |net.buses| > 0
    && var part := net.buses[0].parts[Route(cfg, e)];
       && part.worker == Busy(EchoOf(e), 0) && |part.retired| == 1
       && part.deliveries == Turns(cfg, 0, Keyed(e), |cfg.handlers(e.kind)|)
  }

  /** Finish, take the echo. */
  lemma EchoIsTaken(cfg: Config, n: nat, before: seq<Move>, e: Event) returns (moves: seq<Move>)
    requires ValidConfig(cfg) && Publications(before, Some(e.id)) == 1
    requires EchoWaits(cfg, RunNetwork(cfg, n, before), e, |cfg.handlers(e.kind)|)
    ensures Publications(moves, Some(e.id)) == 1 && EchoInHand(cfg, RunNetwork(cfg, n, moves), e)
  {
    hide RunNetwork, Route, Turns;
    var finish, take := Internal(0, DoFinish(Route(cfg, e), true)), Internal(0, DoTake(Route(cfg, e)));
    OneMore(cfg, n, before, finish);
    OneMore(cfg, n, before + [finish], take);
    moves := before + [finish] + [take];
  }

  /** Deliver it: the first handler gets the event again. */
  lemma EchoIsHandled(cfg: Config, n: nat, e: Event) returns (moves: seq<Move>)
    requires ValidConfig(cfg) && cfg.redis && n > 0 && !e.isRemote && !ShouldDrop(cfg.limits, 0, e.kind)
    requires cfg.handlers(e.kind) != []
    ensures Publications(moves, Some(e.id)) == 1 && SeenTwice(RunNetwork(cfg, n, moves), e.id)
  {
    hide RunNetwork, Route, EchoWaits;
    var p, count := Route(cfg, e), |cfg.handlers(e.kind)|;
    var arrived := EchoArrives(cfg, n, e);
    var served := EchoKeepsWaiting(cfg, n, arrived, e, count);
    var taken := EchoIsTaken(cfg, n, served, e);
    OneMore(cfg, n, taken, Internal(0, DoDeliver(p)));
    moves := taken + [Internal(0, DoDeliver(p))];
    var part := RunNetwork(cfg, n, moves).buses[0].parts[p];
    assert part.deliveries == Turns(cfg, 0, Keyed(e), count) + [Delivery(1, EchoOf(e), cfg.handlers(e.kind)[0])];
    assert SameTwice(part.deliveries[0], part.deliveries[count], e.id);
    assert HandlesTwice(part, e.id);
  }

  /**
   The sender hears itself, exactly: some run in which an event was published once shows it to a
   handler twice if and only if the bridge is configured. The event need only have a handler and not
   be shed by an empty queue.
   */
  lemma SenderHearsItself(cfg: Config, n: nat, e: Event)
    requires ValidConfig(cfg) && n > 0 && !e.isRemote
    requires cfg.handlers(e.kind) != [] && !ShouldDrop(cfg.limits, 0, e.kind)
    ensures (exists moves :: Publications(moves, Some(e.id)) <= 1 && SeenTwice(RunNetwork(cfg, n, moves), e.id))
       <==> cfg.redis
  {
    hide RunNetwork, SeenTwice;
    if cfg.redis {
      var moves := EchoIsHandled(cfg, n, e);
      assert Publications(moves, Some(e.id)) <= 1 && SeenTwice(RunNetwork(cfg, n, moves), e.id);
    } else {
      forall moves | Publications(moves, Some(e.id)) <= 1 ensures !SeenTwice(RunNetwork(cfg, n, moves), e.id) {
        NeverTwiceWithoutBridge(cfg, n, moves, e.id);
      }
    }
  }
}
