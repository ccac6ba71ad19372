/** Primary/standby replication and failover (qtrader/core/state_replication.py). */
module Replication {
  import opened Base

  datatype Position = Position(symbol: string, quantity: real, averagePrice: real, marketValue: real)

  datatype Order = Order(id: string, symbol: string, side: string, quantity: real, status: string)

  /** What the state store publishes after a write. */
  datatype Snapshot = Snapshot(version: nat, positions: map<string, Position>, orders: map<string, Order>,
                               portfolioValue: real)

  datatype Role = Primary | Standby | Failover

  datatype LogEntry = Published(checksum: nat) | Received(peer: string, checksum: nat) | FailedOver(count: nat)

  /** `check_failover_needed`; the time 0 stands for "no heartbeat yet". */
  predicate FailoverNeeded(role: Role, lastHeartbeat: real, now: real, threshold: real) {
    role != Primary && lastHeartbeat > 0.0 && now - lastHeartbeat > threshold
  }

  class StateReplicator {
    const nodeId: string
    const digest: Snapshot -> nat
    const failoverThreshold: real
    var role: Role
    var peerNodeId: string
    var lastSyncTime: real
    var lastSyncChecksum: Option<nat>
    var localChecksum: Option<nat>
    var failedSyncs: nat
    var totalSyncs: nat
    var failoverCount: nat
    var lastPeerHeartbeat: real
    var log: seq<LogEntry>
    ghost var published: seq<Snapshot>
    ghost var accepted: seq<Snapshot>

    constructor (nodeId: string, role: Role, digest: Snapshot -> nat, failoverThreshold: real)
      ensures this.nodeId == nodeId && this.role == role && this.digest == digest
      ensures this.failoverThreshold == failoverThreshold
      ensures published == [] && accepted == [] && log == [] && lastPeerHeartbeat == 0.0
      ensures failedSyncs == totalSyncs == failoverCount == 0
    {
      this.nodeId, this.role, this.digest, this.failoverThreshold := nodeId, role, digest, failoverThreshold;
      peerNodeId, lastSyncTime, lastSyncChecksum, localChecksum := "", 0.0, None, None;
      failedSyncs, totalSyncs, failoverCount, lastPeerHeartbeat, log := 0, 0, 0, 0.0, [];
      published, accepted := [], [];
    }

    /** Only a primary publishes; the source raises an error otherwise. */
    method PublishState(snapshot: Snapshot, now: real) returns (checksum: Option<nat>)
      modifies this`localChecksum, this`lastSyncTime, this`totalSyncs, this`log, this`published
      ensures role == Primary ==> checksum == Some(digest(snapshot)) && published == old(published) + [snapshot]
      ensures role == Primary ==> localChecksum == checksum && totalSyncs == old(totalSyncs) + 1 && lastSyncTime == now
      ensures role == Primary ==> log == old(log) + [Published(digest(snapshot))]
      ensures role != Primary ==> checksum == None && published == old(published) && log == old(log)
      ensures role != Primary ==> totalSyncs == old(totalSyncs) && localChecksum == old(localChecksum)
      ensures role != Primary ==> lastSyncTime == old(lastSyncTime)
    {
      if role != Primary {
        return None;
      }
      var sum := digest(snapshot);
      localChecksum := Some(sum);
      lastSyncTime := now;
      totalSyncs := totalSyncs + 1;
      log := log + [Published(sum)];
      published := published + [snapshot];
      checksum := Some(sum);
    }

    /** A snapshot is applied exactly when its recomputed checksum is the one sent with it. */
    method ReceiveState(peer: string, snapshot: Snapshot, checksum: nat, now: real) returns (ok: bool)
      modifies this`peerNodeId, this`lastSyncTime, this`lastSyncChecksum, this`totalSyncs, this`failedSyncs,
               this`lastPeerHeartbeat, this`log, this`accepted
      ensures ok <==> digest(snapshot) == checksum
      ensures ok ==> accepted == old(accepted) + [snapshot]
      ensures ok ==> totalSyncs == old(totalSyncs) + 1 && failedSyncs == old(failedSyncs)
      ensures ok ==> lastSyncChecksum == Some(checksum) && peerNodeId == peer
      ensures ok ==> lastSyncTime == now == lastPeerHeartbeat
      ensures ok ==> log == old(log) + [Received(peer, checksum)]
      ensures !ok ==> accepted == old(accepted) && failedSyncs == old(failedSyncs) + 1 && totalSyncs == old(totalSyncs)
      ensures !ok ==> lastPeerHeartbeat == old(lastPeerHeartbeat) && peerNodeId == old(peerNodeId) && log == old(log)
      ensures !ok ==> lastSyncChecksum == old(lastSyncChecksum) && lastSyncTime == old(lastSyncTime)
    {
      var computed := digest(snapshot);
      if computed != checksum {
        failedSyncs := failedSyncs + 1;
        return false;
      }
      peerNodeId := peer;
      lastSyncTime := now;
      lastSyncChecksum := Some(checksum);
      totalSyncs := totalSyncs + 1;
      lastPeerHeartbeat := now;
      log := log + [Received(peer, checksum)];
      accepted := accepted + [snapshot];
      ok := true;
    }

    method ReceiveHeartbeat(peer: string, now: real)
      modifies this`lastPeerHeartbeat, this`peerNodeId
      ensures lastPeerHeartbeat == now && peerNodeId == peer
    {
      lastPeerHeartbeat := now;
      peerNodeId := peer;
    }

    method CheckFailoverNeeded(now: real) returns (needed: bool)
      ensures needed == FailoverNeeded(role, lastPeerHeartbeat, now, failoverThreshold)
    {
      if role == Primary {
        return false;
      }
      var sinceHeartbeat := now - lastPeerHeartbeat;
      needed := lastPeerHeartbeat > 0.0 && sinceHeartbeat > failoverThreshold;
    }

    /** Unconditional: a standby asked to fail over becomes primary whatever the peer is doing. */
    method ExecuteFailover(now: real)
      modifies this`role, this`failoverCount, this`lastPeerHeartbeat, this`log
      ensures role == Primary
      ensures failoverCount == old(failoverCount) + if old(role) == Primary then 0 else 1
      ensures old(role) == Primary ==> lastPeerHeartbeat == old(lastPeerHeartbeat) && log == old(log)
      ensures old(role) != Primary ==> lastPeerHeartbeat == now && log == old(log) + [FailedOver(failoverCount)]
    {
      if role == Primary {
        return;
      }
      role := Primary;
      failoverCount := failoverCount + 1;
      lastPeerHeartbeat := now;
      log := log + [FailedOver(failoverCount)];
    }
  }

  // ---- An unreliable channel ----------------------------------------------------------------

  /** A message as it arrives: the `source`-th one sent, its body possibly damaged. */
  datatype Arrival = Arrival(source: nat, body: Snapshot, checksum: nat)

  /** No two different snapshots among those published or received share a checksum. */
  ghost predicate CollisionFree(digest: Snapshot -> nat, published: seq<Snapshot>, arrivals: seq<Arrival>) {
    forall i, k :: 0 <= i < |published| && 0 <= k < |arrivals| && digest(arrivals[k].body) == digest(published[i]) ==>
      arrivals[k].body == published[i]
  }

  /** In order, without duplicates, losing any messages and damaging any bodies; checksums arrive as sent. */
  ghost predicate InOrderChannel(digest: Snapshot -> nat, published: seq<Snapshot>, arrivals: seq<Arrival>) {
    && (forall k :: 0 <= k < |arrivals| ==>
          arrivals[k].source < |published| && arrivals[k].checksum == digest(published[arrivals[k].source]))
    && (forall k, l :: 0 <= k < l < |arrivals| ==> arrivals[k].source < arrivals[l].source)
  }

  /** What the standby applies: the arrivals whose checksum verifies. */
  function Applied(digest: Snapshot -> nat, arrivals: seq<Arrival>): seq<Arrival> {
    if arrivals == [] then []
    else
      var last := arrivals[|arrivals| - 1];
      Applied(digest, arrivals[..|arrivals| - 1]) + (if digest(last.body) == last.checksum then [last] else [])
  }

  /** Only published snapshots, undamaged, in the order of publication, up to the one numbered `latest`. */
  ghost predicate Faithful(published: seq<Snapshot>, applied: seq<Arrival>, latest: int) {
    && (forall k :: 0 <= k < |applied| ==>
          && applied[k].source < |published| && applied[k].source <= latest
          && applied[k].body == published[applied[k].source])
    && (forall k, l :: 0 <= k < l < |applied| ==> applied[k].source < applied[l].source)
  }

  function Latest(arrivals: seq<Arrival>): int {
    if arrivals == [] then -1 else arrivals[|arrivals| - 1].source
  }

  /**
   Over such a channel the standby applies only published snapshots, each one undamaged, and in
   the order of publication.
   */
  lemma {:induction false} StandbyFollowsPrimary(digest: Snapshot -> nat, published: seq<Snapshot>,
                                                 arrivals: seq<Arrival>)
    requires InOrderChannel(digest, published, arrivals) && CollisionFree(digest, published, arrivals)
    ensures Faithful(published, Applied(digest, arrivals), Latest(arrivals))
  {
    if arrivals != [] {
      var n := |arrivals| - 1;
      var shorter, last := arrivals[..n], arrivals[n];
      StandbyFollowsPrimary(digest, published, shorter);
      assert Latest(shorter) < last.source;
      if digest(last.body) == last.checksum {
        assert last.body == published[last.source];
      }
    }
  }

  /** And it applies exactly the arrivals that were not damaged. */
  lemma {:induction false} UndamagedExactly(digest: Snapshot -> nat, published: seq<Snapshot>, arrivals: seq<Arrival>,
                                            k: nat)
    requires InOrderChannel(digest, published, arrivals) && CollisionFree(digest, published, arrivals) && k < |arrivals|
    ensures arrivals[k] in Applied(digest, arrivals) <==> arrivals[k].body == published[arrivals[k].source]
  {
    var n := |arrivals| - 1;
    var shorter := arrivals[..n];
    assert arrivals[k].checksum == digest(published[arrivals[k].source]);
    if k == n {
      StandbyFollowsPrimary(digest, published, shorter);
      assert Latest(shorter) < arrivals[n].source;
    } else {
      UndamagedExactly(digest, published, shorter, k);
      assert shorter[k] == arrivals[k] && arrivals[k].source < arrivals[n].source;
    }
  }

  ghost predicate VersionsIncrease(snapshots: seq<Snapshot>) {
    forall i, j :: 0 <= i < j < |snapshots| ==> snapshots[i].version < snapshots[j].version
  }

  /** So the versions the standby applies increase strictly when the published ones do. */
  lemma StandbyVersionsIncrease(digest: Snapshot -> nat, published: seq<Snapshot>, arrivals: seq<Arrival>, k: nat,
                                l: nat)
    requires InOrderChannel(digest, published, arrivals) && CollisionFree(digest, published, arrivals)
    requires VersionsIncrease(published) && k < l < |Applied(digest, arrivals)|
    ensures Applied(digest, arrivals)[k].body.version < Applied(digest, arrivals)[l].body.version
  {
    StandbyFollowsPrimary(digest, published, arrivals);
  }

  /**
   The exact reach of the checksum: a snapshot that verifies was published if and only if the
   checksum sent with it belongs to a published snapshot.
   */
  lemma VerifiedIsPublishedIff(digest: Snapshot -> nat, published: seq<Snapshot>, a: Arrival)
    requires CollisionFree(digest, published, [a]) && digest(a.body) == a.checksum
    ensures a.body in published <==> exists i :: 0 <= i < |published| && digest(published[i]) == a.checksum
  {
    if i :| 0 <= i < |published| && digest(published[i]) == a.checksum {
      assert [a][0].body == published[i];
    }
  }

  // ---- Failover -----------------------------------------------------------------------------

  /** A primary that may crash for good, and its standby. */
  datatype Cluster = Cluster(now: real, primaryAlive: bool, standbyRole: Role, lastHeartbeat: real, failovers: nat)

  datatype Event =
    | Advance(elapsed: real)     // time passes
    | Heartbeat                  // a heartbeat or a verified snapshot of the primary arrives
    | Crash
    | Check                      // the standby checks, and fails over when needed

  function Next(threshold: real, c: Cluster, e: Event): Cluster {
    match e
    case Advance(elapsed) => if elapsed >= 0.0 then c.(now := c.now + elapsed) else c
    case Heartbeat => if c.primaryAlive then c.(lastHeartbeat := c.now) else c
    case Crash => c.(primaryAlive := false)
    case Check =>
      if FailoverNeeded(c.standbyRole, c.lastHeartbeat, c.now, threshold)
      then c.(standbyRole := Primary, failovers := c.failovers + 1, lastHeartbeat := c.now)
      else c
  }

  ghost predicate TwoLivePrimaries(c: Cluster) {
    c.primaryAlive && c.standbyRole == Primary
  }

  function RunCluster(threshold: real, c: Cluster, events: seq<Event>): Cluster {
    if events == [] then c
    else Next(threshold, RunCluster(threshold, c, events[..|events| - 1]), events[|events| - 1])
  }

  /** A primary and a standby at a positive clock reading, before any failover. */
  ghost predicate Fresh(c: Cluster) {
    && c.primaryAlive && c.standbyRole == Standby && c.failovers == 0
    && 0.0 < c.now && 0.0 <= c.lastHeartbeat <= c.now
  }

  predicate Crashed(events: seq<Event>) {
    Crash in events
  }

  /** The time since the last heartbeat of a living primary, read off the events; `None` before the first one. */
  function Silence(since: Option<real>, events: seq<Event>): Option<real> {
    if events == [] then since
    else
      var shorter := events[..|events| - 1];
      match (events[|events| - 1], Silence(since, shorter))
      case (Heartbeat, heard) => if Crashed(shorter) then heard else Some(0.0)
      case (Advance(elapsed), Some(t)) => Some(t + Max(elapsed, 0.0))
      case (_, heard) => heard
  }

  function InitialSilence(c: Cluster): Option<real> {
    if c.lastHeartbeat > 0.0 then Some(c.now - c.lastHeartbeat) else None
  }

  predicate Overdue(threshold: real, since: Option<real>, events: seq<Event>) {
    var silence := Silence(since, events);
    silence.Some? && silence.value > threshold
  }

  /** Until the standby takes over, its clock measures exactly the silence of the primary. */
  lemma {:induction false} SilenceIsMeasured(threshold: real, c: Cluster, events: seq<Event>)
    requires Fresh(c)
    ensures var after, silence := RunCluster(threshold, c, events), Silence(InitialSilence(c), events);
            && (after.primaryAlive <==> !Crashed(events)) && after.now > 0.0
            && (silence.Some? ==> silence.value >= 0.0)
            && (after.standbyRole == Primary || after.standbyRole == Standby)
            && after.failovers == (if after.standbyRole == Primary then 1 else 0)
            && (after.standbyRole == Standby ==>
                  (if silence.Some? then after.lastHeartbeat > 0.0 && after.now - after.lastHeartbeat == silence.value
                   else after.lastHeartbeat == 0.0))
  {
    if events != [] {
      var n := |events| - 1;
      SilenceIsMeasured(threshold, c, events[..n]);
      assert events == events[..n] + [events[n]];
    }
  }

  /** A check that meets an overdue heartbeat, in the events up to but excluding that check. */
  ghost predicate CheckedOverdue(threshold: real, since: Option<real>, events: seq<Event>) {
    exists i :: 0 <= i < |events| && events[i] == Check && Overdue(threshold, since, events[..i])
  }

  /**
   When the standby takes over, in terms of the events alone: exactly when some check met a silence
   longer than the threshold. It does so once.
   */
  lemma {:induction false} TakeoverExactly(threshold: real, c: Cluster, events: seq<Event>)
    requires Fresh(c)
    ensures RunCluster(threshold, c, events).standbyRole == Primary
       <==> CheckedOverdue(threshold, InitialSilence(c), events)
    ensures RunCluster(threshold, c, events).failovers <= 1
  {
    SilenceIsMeasured(threshold, c, events);
    if events != [] {
      var n, since := |events| - 1, InitialSilence(c);
      var shorter := events[..n];
      TakeoverExactly(threshold, c, shorter);
      SilenceIsMeasured(threshold, c, shorter);
      if i :| 0 <= i < |shorter| && shorter[i] == Check && Overdue(threshold, since, shorter[..i]) {
        assert shorter[..i] == events[..i];
      }
      if i :| 0 <= i < |events| && events[i] == Check && Overdue(threshold, since, events[..i]) {
        if i < n {
          assert shorter[..i] == events[..i] && shorter[i] == Check;
        }
      }
    }
  }

  /** Two live primaries, exactly: the primary has not crashed, and a check met an overdue heartbeat. */
  lemma SplitBrainExactly(threshold: real, c: Cluster, events: seq<Event>)
    requires Fresh(c)
    ensures TwoLivePrimaries(RunCluster(threshold, c, events))
       <==> !Crashed(events) && CheckedOverdue(threshold, InitialSilence(c), events)
  {
    TakeoverExactly(threshold, c, events);
    SilenceIsMeasured(threshold, c, events);
  }

  /** The promise on the events: up to its crash the primary is never silent for longer than the threshold. */
  ghost predicate Timely(threshold: real, since: Option<real>, events: seq<Event>) {
    forall i :: 0 <= i <= |events| && !Crashed(events[..i]) ==> !Overdue(threshold, since, events[..i])
  }

  /** With timely heartbeats there is never a second live primary, at any point of the run. */
  lemma NeverTwoPrimaries(threshold: real, c: Cluster, events: seq<Event>, k: nat)
    requires Fresh(c) && Timely(threshold, InitialSilence(c), events) && k <= |events|
    ensures !TwoLivePrimaries(RunCluster(threshold, c, events[..k]))
  {
    var since, prefix := InitialSilence(c), events[..k];
    SplitBrainExactly(threshold, c, prefix);
    if !Crashed(prefix) {
      forall i | 0 <= i < k ensures !Overdue(threshold, since, prefix[..i]) {
        assert prefix[..i] == events[..i];
        assert forall e :: e in events[..i] ==> e in prefix;
      }
    }
  }

  // ---- Replacing a dead primary -------------------------------------------------------------

  /** A heartbeat reached the standby, before these events or during them while the primary lived. */
  ghost predicate Heard(c: Cluster, events: seq<Event>) {
    c.lastHeartbeat > 0.0 || exists i :: 0 <= i < |events| && events[i] == Heartbeat && !Crashed(events[..i])
  }

  lemma {:induction false} HeardExactly(c: Cluster, events: seq<Event>)
    requires Fresh(c)
    ensures Silence(InitialSilence(c), events).Some? <==> Heard(c, events)
  {
    if events != [] {
      var n := |events| - 1;
      var shorter := events[..n];
      HeardExactly(c, shorter);
      if i :| 0 <= i < n && shorter[i] == Heartbeat && !Crashed(shorter[..i]) {
        assert events[i] == Heartbeat && shorter[..i] == events[..i];
      }
      if i :| 0 <= i < |events| && events[i] == Heartbeat && !Crashed(events[..i]) {
        if i < n {
          assert shorter[i] == Heartbeat && shorter[..i] == events[..i];
        }
      }
    }
  }

  lemma {:induction false} OverdueMeansHeard(threshold: real, c: Cluster, events: seq<Event>, i: nat)
    requires Fresh(c) && i <= |events| && Silence(InitialSilence(c), events[..i]).Some?
    ensures Silence(InitialSilence(c), events).Some?
    decreases |events|
  {
    if i < |events| {
      var shorter := events[..|events| - 1];
      assert shorter[..i] == events[..i];
      OverdueMeansHeard(threshold, c, shorter, i);
    } else {
      assert events[..i] == events;
    }
  }

  /**
   Automatic failover, exactly: waiting past the threshold and checking makes the standby primary if
   and only if it ever heard a heartbeat. One that never did waits forever for a dead primary.
   */
  lemma ReplacedExactlyWhenHeard(threshold: real, c: Cluster, events: seq<Event>, elapsed: real)
    requires Fresh(c) && elapsed >= 0.0 && elapsed > threshold
    ensures RunCluster(threshold, c, events + [Advance(elapsed), Check]).standbyRole == Primary <==> Heard(c, events)
  {
    var since, waited := InitialSilence(c), events + [Advance(elapsed)];
    var longer := events + [Advance(elapsed), Check];
    assert longer[..|events| + 1] == waited && waited[..|events|] == events && longer == waited + [Check];
    TakeoverExactly(threshold, c, longer);
    SilenceIsMeasured(threshold, c, events);
    HeardExactly(c, events);
    if Heard(c, events) {
      assert longer[|events| + 1] == Check && Overdue(threshold, since, longer[..|events| + 1]);
    }
    if i :| 0 <= i < |longer| && longer[i] == Check && Overdue(threshold, since, longer[..i]) {
      if i < |events| {
        assert longer[..i] == events[..i];
        OverdueMeansHeard(threshold, c, events, i);
      }
    }
  }

  /** Without any heartbeat no events whatever - no crash, no wait, no check - make the standby primary. */
  lemma SilentPrimaryIsNeverReplaced(threshold: real, c: Cluster, events: seq<Event>)
    requires Fresh(c) && c.lastHeartbeat == 0.0 && Heartbeat !in events
    ensures RunCluster(threshold, c, events).standbyRole == Standby
  {
    TakeoverExactly(threshold, c, events);
    SilenceIsMeasured(threshold, c, events);
    HeardExactly(c, events);
    if i :| 0 <= i < |events| && events[i] == Check && Overdue(threshold, InitialSilence(c), events[..i]) {
      OverdueMeansHeard(threshold, c, events, i);
    }
  }
}
