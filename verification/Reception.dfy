/**
 What a bus receives over the bridge (qtrader/core/event_bus.py:156-160, 204-243), exactly: told from
 the broadcasts made while it listened, the messages it read, and the stops in between.
 */
module Reception {
  import opened Base
  import opened Routing
  import opened BusSpec
  import opened BusTheorems
  import opened BusAccounts
  import opened Bridge
  import opened Echo

  /** The bus runs and its bridge is up. */
  predicate Listens(net: Network, j: nat) {
    j < |net.buses| && net.buses[j].running && net.buses[j].bridged
  }

  // ---- Into the inbox and out of it ---------------------------------------------------------

  /** What a move broadcasts within hearing of bus `j`. */
  ghost function Heard(net: Network, m: Move, j: nat, tag: Tag): nat {
    if m.Send? && m.succeeds && m.bus < |net.buses| && m.pick < |net.buses[m.bus].outbox| && Listens(net, j)
    then One(net.buses[m.bus].outbox[m.pick], tag) else 0
  }

  /** What bus `j` takes out of its inbox in a move. */
  ghost function ReadNow(net: Network, m: Move, j: nat, tag: Tag): nat {
    if m.Receive? && m.bus == j && Listens(net, j) && |net.inboxes| == |net.buses| && net.inboxes[j] != []
    then One(net.inboxes[j][0], tag) else 0
  }

  /** What a stop of bus `j` makes it miss. */
  ghost function MissedNow(net: Network, m: Move, j: nat, tag: Tag): nat {
    if m.Internal? && m.bus == j && m.action.DoStop? && j < |net.inboxes| then Count(net.inboxes[j], tag) else 0
  }

  ghost function HeardBy(cfg: Config, n: nat, moves: seq<Move>, j: nat, tag: Tag): nat
    requires ValidConfig(cfg)
  {
    if moves == [] then 0
    else
      var k := |moves| - 1;
      HeardBy(cfg, n, moves[..k], j, tag) + Heard(RunNetwork(cfg, n, moves[..k]), moves[k], j, tag)
  }

  ghost function ReadBy(cfg: Config, n: nat, moves: seq<Move>, j: nat, tag: Tag): nat
    requires ValidConfig(cfg)
  {
    if moves == [] then 0
    else
      var k := |moves| - 1;
      ReadBy(cfg, n, moves[..k], j, tag) + ReadNow(RunNetwork(cfg, n, moves[..k]), moves[k], j, tag)
  }

  ghost function MissedBy(cfg: Config, n: nat, moves: seq<Move>, j: nat, tag: Tag): nat
    requires ValidConfig(cfg)
  {
    if moves == [] then 0
    else
      var k := |moves| - 1;
      MissedBy(cfg, n, moves[..k], j, tag) + MissedNow(RunNetwork(cfg, n, moves[..k]), moves[k], j, tag)
  }

  lemma InboxStep(cfg: Config, net: Network, m: Move, j: nat, tag: Tag)
    requires Wellformed(cfg, net) && j < |net.buses|
    ensures Count(MoveOn(cfg, net, m).inboxes[j], tag) + ReadNow(net, m, j, tag) + MissedNow(net, m, j, tag)
         == Count(net.inboxes[j], tag) + Heard(net, m, j, tag)
  {
    hide Publish, Step, One;
    match m
    case Send(i, k, succeeds) =>
      if i < |net.buses| && k < |net.buses[i].outbox| {
        CountAppendOne(net.inboxes[j], net.buses[i].outbox[k], tag);
      }
    case _ =>
  }

  /**
   Reception, exactly: of every kind of message, what a bus has in its inbox, has read, and has missed
   by stopping is what was broadcast while it listened - by any bus, itself included.
   */
  lemma {:induction false} InboxExactly(cfg: Config, n: nat, moves: seq<Move>, j: nat, tag: Tag)
    requires ValidConfig(cfg) && j < n
    ensures Count(RunNetwork(cfg, n, moves).inboxes[j], tag)
              + ReadBy(cfg, n, moves, j, tag) + MissedBy(cfg, n, moves, j, tag)
         == HeardBy(cfg, n, moves, j, tag)
  {
    hide MoveOn, Heard, ReadNow, MissedNow;
    if moves != [] {
      var k := |moves| - 1;
      InboxExactly(cfg, n, moves[..k], j, tag);
      InboxStep(cfg, RunNetwork(cfg, n, moves[..k]), moves[k], j, tag);
    }
  }

  // ---- From the inbox into the queues -------------------------------------------------------

  /** A message read in a move, decoded, and not shed by the queue it is for. */
  ghost function TakenNow(cfg: Config, net: Network, m: Move, j: nat, tag: Tag): nat
    requires Wellformed(cfg, net)
  {
    if m.Receive? && m.bus == j && m.decodes && Listens(net, j) && net.inboxes[j] != []
       && !TooLong(cfg.limits, net.inboxes[j][0].kind, QueueAhead(cfg, net.buses[j], net.inboxes[j][0]))
    then One(net.inboxes[j][0], tag) else 0
  }

  /** An event that an application itself publishes as remote, and that is not shed. */
  ghost function DirectNow(cfg: Config, net: Network, m: Move, j: nat, id: nat): nat
    requires Wellformed(cfg, net)
  {
    if m.Local? && m.bus == j && j < |net.buses| && net.buses[j].running
       && !TooLong(cfg.limits, m.event.kind, QueueAhead(cfg, net.buses[j], m.event))
    then One(m.event, Tag(Some(id), true)) else 0
  }

  ghost function TakenBy(cfg: Config, n: nat, moves: seq<Move>, j: nat, tag: Tag): nat
    requires ValidConfig(cfg)
  {
    if moves == [] then 0
    else
      var k := |moves| - 1;
      TakenBy(cfg, n, moves[..k], j, tag) + TakenNow(cfg, RunNetwork(cfg, n, moves[..k]), moves[k], j, tag)
  }

  ghost function DirectBy(cfg: Config, n: nat, moves: seq<Move>, j: nat, id: nat): nat
    requires ValidConfig(cfg)
  {
    if moves == [] then 0
    else
      var k := |moves| - 1;
      DirectBy(cfg, n, moves[..k], j, id) + DirectNow(cfg, RunNetwork(cfg, n, moves[..k]), moves[k], j, id)
  }

  lemma PublishHoldsExactly(cfg: Config, b: Bus, e: Event, tag: Tag)
    requires ValidConfig(cfg) && |b.parts| == cfg.partitions
    ensures Held(Publish(cfg, b, e), tag)
         == Held(b, tag) + (if b.running && !TooLong(cfg.limits, e.kind, QueueAhead(cfg, b, e)) then One(e, tag) else 0)
  {
    hide Count, Route;
    ShedsExactly(cfg.limits, e.kind, QueueAhead(cfg, b, e));
    CountAppendOne(b.log, Keyed(e), tag);
    CountAppendOne(b.blocked, Keyed(e), tag);
  }

  lemma RemoteStep(cfg: Config, net: Network, m: Move, j: nat, id: nat)
    requires Wellformed(cfg, net) && OnlyLocalTravels(net) && j < |net.buses|
    ensures Held(MoveOn(cfg, net, m).buses[j], Tag(Some(id), true))
         == Held(net.buses[j], Tag(Some(id), true))
            + TakenNow(cfg, net, m, j, Tag(Some(id), false)) + DirectNow(cfg, net, m, j, id)
  {
    hide Held, Publish, Step, TooLong, OutboxIsLocal;
    var b, tag := net.buses[j], Tag(Some(id), true);
    match m
    case Local(_, e) => PublishHoldsExactly(cfg, b, e, tag);
    case Internal(_, a) => if !a.DoPublish? { StepHolds(cfg, b, a, tag); }
    case Send(i, k, _) => if i == j && k < |b.outbox| { HeldWithoutOutbox(b, RemoveAt(b.outbox, k), tag); }
    case Receive(_, _) =>
      if net.inboxes[j] != [] {
        var message := net.inboxes[j][0];
        PublishHoldsExactly(cfg, b, message.(isRemote := true), tag);
        RemoteQueue(cfg, b, message);
        assert !message.isRemote;
      }
  }

  lemma RemoteQueue(cfg: Config, b: Bus, e: Event)
    requires ValidConfig(cfg) && |b.parts| == cfg.partitions
    ensures QueueAhead(cfg, b, e.(isRemote := true)) == QueueAhead(cfg, b, e)
  {
    RemoteRoute(cfg, e);
  }

  /** The remote copies a bus holds are exactly the messages it took in, and what was published as remote. */
  lemma {:induction false} RemoteCopiesExactly(cfg: Config, n: nat, moves: seq<Move>, j: nat, id: nat)
    requires ValidConfig(cfg) && j < n
    ensures Held(RunNetwork(cfg, n, moves).buses[j], Tag(Some(id), true))
         == TakenBy(cfg, n, moves, j, Tag(Some(id), false)) + DirectBy(cfg, n, moves, j, id)
  {
    hide MoveOn, Held, TakenNow, DirectNow, OnlyLocalTravels, Covered;
    if moves == [] {
      NothingHeld(cfg, Tag(Some(id), true));
    } else {
      var k := |moves| - 1;
      RemoteCopiesExactly(cfg, n, moves[..k], j, id);
      RunIsCovered(cfg, n, moves[..k], None);
      RemoteStep(cfg, RunNetwork(cfg, n, moves[..k]), moves[k], j, id);
    }
  }

  /**
   Every other container gets the event: when it was broadcast once while a bus listened, and that bus
   has read its inbox without a stop, a damaged message or a shed one, the bus holds exactly one remote
   copy of it - which is accepted unless it waits for room.
   */
  lemma ReceivedExactlyOnce(cfg: Config, n: nat, moves: seq<Move>, j: nat, id: nat)
    requires ValidConfig(cfg) && j < n
    requires var tag := Tag(Some(id), false);
             && HeardBy(cfg, n, moves, j, tag) == 1 && MissedBy(cfg, n, moves, j, tag) == 0
             && RunNetwork(cfg, n, moves).inboxes[j] == []
             && TakenBy(cfg, n, moves, j, tag) == ReadBy(cfg, n, moves, j, tag)
             && DirectBy(cfg, n, moves, j, id) == 0
    ensures Held(RunNetwork(cfg, n, moves).buses[j], Tag(Some(id), true)) == 1
    ensures RunNetwork(cfg, n, moves).buses[j].blocked == [] ==>
              Count(RunNetwork(cfg, n, moves).buses[j].log, Tag(Some(id), true)) == 1
  {
    hide RunNetwork;
    InboxExactly(cfg, n, moves, j, Tag(Some(id), false));
    RemoteCopiesExactly(cfg, n, moves, j, id);
  }

  // ---- Broadcasts that everyone hears -------------------------------------------------------

  /** Successful broadcasts, whoever listens. */
  ghost function Sends(cfg: Config, n: nat, moves: seq<Move>, tag: Tag): nat
    requires ValidConfig(cfg)
  {
    if moves == [] then 0
    else
      var k, net := |moves| - 1, RunNetwork(cfg, n, moves[..|moves| - 1]);
      var m := moves[k];
      Sends(cfg, n, moves[..k], tag)
        + (if m.Send? && m.succeeds && m.bus < |net.buses| && m.pick < |net.buses[m.bus].outbox|
           then One(net.buses[m.bus].outbox[m.pick], tag) else 0)
  }

  /** What the network calls sent is what successful broadcasts sent. */
  lemma {:induction false} SentExactly(cfg: Config, n: nat, moves: seq<Move>, tag: Tag)
    requires ValidConfig(cfg)
    ensures Count(RunNetwork(cfg, n, moves).sent, tag) == Sends(cfg, n, moves, tag)
  {
    hide Publish, Step, One;
    if moves != [] {
      var k := |moves| - 1;
      var net, m := RunNetwork(cfg, n, moves[..k]), moves[k];
      SentExactly(cfg, n, moves[..k], tag);
      if m.Send? && m.bus < |net.buses| && m.pick < |net.buses[m.bus].outbox| {
        CountAppendOne(net.sent, net.buses[m.bus].outbox[m.pick], tag);
      }
    }
  }

  /** Bus `j` listens at every broadcast. */
  ghost predicate AlwaysListens(cfg: Config, n: nat, moves: seq<Move>, j: nat)
    requires ValidConfig(cfg)
  {
    forall k :: 0 <= k < |moves| && moves[k].Send? ==> Listens(RunNetwork(cfg, n, moves[..k]), j)
  }

  /** A bus that listens throughout hears every broadcast, whichever bus made it. */
  lemma {:induction false} ListenerHearsEverything(cfg: Config, n: nat, moves: seq<Move>, j: nat, tag: Tag)
    requires ValidConfig(cfg) && AlwaysListens(cfg, n, moves, j)
    ensures HeardBy(cfg, n, moves, j, tag) == Sends(cfg, n, moves, tag)
  {
    hide RunNetwork, One;
    if moves != [] {
      var k := |moves| - 1;
      assert forall i :: 0 <= i < k ==> moves[..k][i] == moves[i] && moves[..k][..i] == moves[..i];
      ListenerHearsEverything(cfg, n, moves[..k], j, tag);
    }
  }
}
