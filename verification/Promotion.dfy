/** A standby becoming leader: fence, replay, and the second replay when the peer can be reached. */
module Promotion {
  import opened Entries
  import opened Inbound
  import opened SyncSpec
  import C = Coordinator
  import opened RegistrySpec
  import opened Registry
  import opened ControlSpec
  import opened Control
  import opened Liveness
  import opened Divergence
  import opened Refinement

  /** `Died` is a panic during replay, `Refused` a failed promotion; `remote` tells whether a peer is replicated to. */
  datatype Promoted = Died | Refused | Serving(remote: bool)

  /** How the connection to a peer ended: a panic during replay, an error, or a peer that is up to date. */
  datatype Started = Panicked | Failed | Ready

  /**
   * startWithWal on a reachable peer: replay the log into the live registry, whatever it holds, then bring the
   * peer up to date.
   */
  method StartWithWal(link: C.Coordinator, registry: Registry) returns (started: Started)
    requires link.Valid() && registry.Valid()
    modifies link, link.wal`cursor, link.backup, link.backup.wal, registry, registry.repr
    ensures link.Valid() && link.wal.records == old(link.wal.records)
    ensures old(registry.repr) <= registry.repr && fresh(registry.repr - old(registry.repr))
    ensures var r := Replay(old(registry.mem), |old(registry.stations)|, link.wal.records);
            var sync := Sync(link.backup.wal.codec, old(link.View()), link.wal.records);
            && (r.status != Crashed ==>
                  registry.Valid() && registry.mem == r.mem && |registry.stations| == |old(registry.stations)|)
            && (match r.status
                case Crashed => started == Panicked && link.View() == old(link.View())
                case Stopped => started == Failed && link.View() == old(link.View())
                case Completed => started == (if sync.ok then Ready else Failed) && link.View() == sync.link)
  {
    var contents := link.wal.ReadAll();
    var status := registry.ReplayLog(contents.log);
    if status == Crashed { return Panicked; }
    if status == Stopped { return Failed; }
    var ok := link.SyncBackupWal();
    return if ok then Ready else Failed;
  }

  /**
   * A node started as leader, up to the moment it serves: fresh lists, the log replayed, the standby synced. If
   * it gets there, its registry is what its log rebuilds, and a standby that held a prefix of the log, or
   * nothing, holds all of it. With a standby that can be reached it gets there exactly when its log replays.
   */
  method RunAsLeader(link: C.Coordinator, n: nat) returns (started: Started, registry: Registry)
    requires link.Valid()
    modifies link, link.wal`cursor, link.backup, link.backup.wal
    ensures link.Valid() && link.wal.records == old(link.wal.records) && fresh(registry) && fresh(registry.repr)
    ensures var r := Replay(map[], n, link.wal.records);
            && (started == Panicked <==> r.status == Crashed)
            && (started == Ready ==> registry.Valid() && |registry.stations| == n && Rebuilds(link.wal.records, n, registry.mem))
            && (started == Ready <==>
                  r.status == Completed && Sync(link.backup.wal.codec, old(link.View()), link.wal.records).ok)
    ensures started == Ready && FromOne(link.wal.records) && old(link.backup.wal.records) <= link.wal.records ==>
              link.backup.wal.records == link.wal.records
    ensures Reachable(link.backup.wal.codec, old(link.View()), link.wal.records) ==>
              && (started == Ready <==> Replay(map[], n, link.wal.records).status == Completed)
              && (started == Ready ==> Reachable(link.backup.wal.codec, link.View(), link.wal.records))
  {
    registry := new Registry(n);
    registry.InitStations(n);
    started := StartWithWal(link, registry);
    if Reachable(link.backup.wal.codec, old(link.View()), link.wal.records) {
      SyncCatchesUp(link.backup.wal.codec, old(link.View()), link.wal.records);
    }
    if started == Ready && FromOne(link.wal.records) && old(link.backup.wal.records) <= link.wal.records {
      ConsecutiveMax(old(link.backup.wal.records));
      SyncResult(link.backup.wal.codec, old(link.View()), link.wal.records);
    }
  }

  /**
   * promoteToLeader in a process that has not led before. `link` is the coordinator it would use, null
   * when the peer cannot be reached.
   */
  method PromoteToLeader(handler: InboundHandler, registry: Registry, n: nat, link: C.Coordinator?) returns (p: Promoted)
    requires handler.Valid() && registry.Valid() && registry.clients == map[]
    requires link != null ==>
               link.wal == handler.wal && link.Valid() && link.backup != handler
    modifies handler`accepting, handler.wal`cursor, registry, registry.repr
    modifies if link == null then {} else {link, link.backup, link.backup.wal}
    ensures !handler.accepting && handler.wal.Valid() && handler.wal.records == old(handler.wal.records)
    ensures var log := handler.wal.records;
            var first := Replay(map[], n, log);
            match first.status
            case Crashed => p == Died
            case Stopped => p == Refused && registry.Valid() && registry.mem == first.mem
            case Completed =>
              && p.Serving? && registry.Valid()
              && registry.mem == (if link == null then first.mem else Replay(first.mem, n, log).mem)
              && (link == null ==> !p.remote)
    ensures link != null ==> link.Valid()
    ensures link != null ==>
              var log := handler.wal.records;
              var sync := Sync(link.backup.wal.codec, old(link.View()), log);
              var synced := Rebuilds(log, n, map[]);
              && (p == Serving(true) <==> synced && sync.ok)
              && (Reachable(link.backup.wal.codec, old(link.View()), log) ==> (p == Serving(true) <==> synced))
              && link.View() == if synced then sync.link else old(link.View())
  {
    handler.StopAccepting();
    var contents := handler.wal.ReadAll();
    registry.InitStations(n);
    var status := registry.ReplayLog(contents.log);
    if status == Crashed { return Died; }
    if status == Stopped { return Refused; }
    if link == null { return Serving(false); }
    SecondReplayOutcome(n, contents.log, registry.mem);
    if Reachable(link.backup.wal.codec, old(link.View()), contents.log) {
      SyncCatchesUp(link.backup.wal.codec, old(link.View()), contents.log);
    }
    var started := StartWithWal(link, registry);
    return Serving(started == Ready);
  }

  /**
   * A leader serves requests, any of whose calls may be lost, and is gone; its standby, a process that has not
   * led before and cannot reach it any more, is promoted. Every acknowledged record is in the log the promoted
   * node reads. It serves exactly when no record in that log broke the leader's run, and is refused otherwise.
   * If the logs were equal at the start, it has the leader's registry except for the clients whose last record
   * it holds was not acknowledged; if no replication failed, it has all of it, and none fails as long as the
   * standby can be reached.
   */
  method FailOver(leader: Server, reqs: seq<Request>) returns (served: seq<Served>, p: Promoted, registry: Registry)
    requires leader.Valid() && leader.peer != null && Behind(leader.Pair())
    modifies leader.registry, leader.registry.repr, leader.wal, leader.Remote()
    ensures |served| == |reqs| && fresh(registry)
    ensures var before, n := old(leader.Pair()), |old(leader.registry.stations)|;
            && AllDurable(before, n, reqs, served, leader.peer.backup.wal.records)
            && (Sound(before, n) ==>
                  p == if UnbrokenWithin(Run(before.core, n, served), |leader.peer.backup.wal.records|)
                       then Serving(false) else Refused)
            && (p == Serving(false) ==> Rebuilds(leader.peer.backup.wal.records, n, registry.mem))
            && (Sound(before, n) && before.link.backup.log == before.core.log ==> exists i: nat ::
                  Trails(Run(before.core, n, served), i, leader.peer.backup.wal.records, leader.registry.mem))
            && (Flawless(before, n, served) ==> p == Serving(false) && registry.mem == leader.registry.mem)
            && (Live(before) && Equal(before) && Replayable(before.core, n) ==> Flawless(before, n, served))
  {
    ghost var before := leader.Pair();
    served := leader.Serve(reqs);
    var n := |leader.registry.stations|;
    AfterServing(before, n, reqs, served, leader.Pair());
    registry := new Registry(n);
    p := PromoteToLeader(leader.peer.backup, registry, n, null);
  }
}
