/** The client-facing server: guards, then log, registry and standby, and the undoing when the standby fails. */
module Control {
  import opened Entries
  import opened ClientKeys
  import opened WalFormat
  import opened Wal
  import opened SyncSpec
  import C = Coordinator
  import opened RegistrySpec
  import opened Registry
  import opened ControlSpec
  import opened Liveness

  /**
   * The pair of apply and rollback closures a handler passes to ReplicateAndWait. For a disconnect the
   * handler has noted the client's station; the copy to re-register is made when it is needed.
   */
  datatype Change =
    | Connect(ip: string, port: nat)
    | Retune(key: string, station: nat, previous: int)
    | Drop(key: string, savedStation: int)

  class Server {
    const registry: Registry
    const wal: Log
    /** The standby's coordinator, or null when serving with the local log only. */
    const peer: C.Coordinator?

    ghost function Remote(): set<object>
      reads this
    {
      if peer == null then {} else {peer, peer.backup, peer.backup.wal}
    }

    ghost predicate Valid()
      reads this, registry, registry.repr, wal, Remote()
    {
      && registry.Valid() && wal.Valid()
      && (peer != null ==> peer.wal == wal && peer.Valid())
    }

    ghost function Core(): Core
      requires Valid()
      reads this, registry, registry.repr, wal, Remote()
    {
      ControlSpec.Core(registry.mem, wal.records)
    }

    ghost function Pair(): Pair
      requires Valid() && peer != null
      reads this, registry, registry.repr, wal, Remote()
    {
      ControlSpec.Pair(Core(), peer.View(), wal.codec, peer.backup.wal.codec)
    }

    constructor (registry: Registry, wal: Log, peer: C.Coordinator?)
      requires registry.Valid() && wal.Valid() && (peer != null ==> peer.wal == wal && peer.Valid())
      ensures Valid() && this.registry == registry && this.wal == wal && this.peer == peer
    {
      this.registry, this.wal, this.peer := registry, wal, peer;
    }

    /** The change a handler builds for an operation that passed its guards. */
    ghost predicate Fits(ch: Change, op: Op)
      requires registry.Valid()
      reads registry, registry.repr
    {
      match ch
      case Connect(ip, port) => op == Handshake(ip, port) && ClientKey(ip, port) !in registry.clients
      case Retune(key, station, previous) =>
        && op.SetStation? && KeyOf(op) == key && op.station == station < |registry.stations|
        && key in registry.clients && registry.clients[key].currStation == previous
      case Drop(key, station) =>
        && op.Disconnect? && KeyOf(op) == key
        && key in registry.clients && registry.clients[key].currStation == station
    }

    /** `ch` was built for `op` when the registry stood for `before`, and the change has been applied since. */
    ghost predicate Undoes(ch: Change, op: Op, before: Mem)
      requires registry.Valid()
      reads registry, registry.repr
    {
      && Apply(before, |registry.stations|, op) == Ok(registry.mem)
      && match ch
         case Connect(ip, port) => op == Handshake(ip, port)
         case Retune(key, _, previous) =>
           op.SetStation? && KeyOf(op) == key && before[key] == previous && -1 <= previous < |registry.stations|
         case Drop(key, station) =>
           op.Disconnect? && KeyOf(op) == key && before[key] == station && -1 <= station < |registry.stations|
    }

    method ApplyChange(ch: Change, ghost op: Op) returns (ok: bool)
      requires registry.Valid() && Fits(ch, op)
      modifies registry, registry.repr
      ensures registry.Valid() && |registry.stations| == |old(registry.stations)|
      ensures forall c :: c in registry.repr && c !in old(registry.repr) ==> fresh(c)
      ensures ok && Undoes(ch, op, old(registry.mem))
    {
      match ch
      case Connect(ip, port) => ok := registry.ApplyHandshake(ip, port);
      case Retune(key, station, _) => ok := registry.ApplySetStation(key, station);
      case Drop(key, _) => ok := registry.ApplyDisconnect(key);
    }

    /** Undoes an applied change: the registry stands for the map of before. */
    method RollbackChange(ch: Change, ghost op: Op, ghost before: Mem)
      requires registry.Valid() && Undoes(ch, op, before)
      modifies registry, registry.repr
      ensures registry.Valid() && |registry.stations| == |old(registry.stations)|
      ensures registry.mem == before
      ensures forall c :: c in registry.repr && c !in old(registry.repr) ==> fresh(c)
    {
      match ch
      case Connect(ip, port) =>
        assert registry.mem[ClientKey(ip, port)] == -1;
        registry.RollbackHandshake(ip, port);
      case Retune(key, _, previous) => registry.RollbackSetStation(key, previous);
      case Drop(key, station) =>
        var saved := new ClientInfo(key, station);
        registry.RollbackDisconnect(key, saved);
    }

    /** Appends the record, on a disk that does not fail. */
    method LogRecord(op: Op) returns (seqno: Option<nat>)
      requires wal.Valid()
      modifies wal
      ensures wal.Valid()
      ensures var e := Entry(MaxSeq(old(wal.records)) + 1, op);
              && seqno == (if Writable(wal.codec, e) then Some(e.seqno) else None)
              && wal.records == if Writable(wal.codec, e) then old(wal.records) + [e] else old(wal.records)
    {
      seqno := wal.Append(op, Fine);
    }

    /** Appends the record, then changes the registry. */
    method LogAndApply(op: Op, ch: Change) returns (seqno: Option<nat>)
      requires Valid() && Fits(ch, op)
      modifies registry, registry.repr, wal
      ensures Valid() && |registry.stations| == |old(registry.stations)|
      ensures forall c :: c in registry.repr && c !in old(registry.repr) ==> fresh(c)
      ensures seqno.Some? <==> Writable(wal.codec, NextEntry(old(Core()), op))
      ensures seqno.Some? ==> seqno.value == MaxSeq(old(wal.records)) + 1 && Undoes(ch, op, old(registry.mem))
      ensures Core() == Carry(old(Core()), |registry.stations|, op, seqno.Some?, true)
    {
      seqno := LogRecord(op);
      if seqno.None? { return; }
      var applied := ApplyChange(ch, op);
      CarryParts(old(Core()), |registry.stations|, op, true, true, Core());
    }

    /** Asks the standby, and undoes the change when it does not acknowledge. */
    method ReplicateOrUndo(e: Entry, ch: Change, ghost before: Core) returns (ok: bool)
      requires Valid() && peer != null && Undoes(ch, e.op, before.mem)
      requires Core() == Carry(before, |registry.stations|, e.op, true, true)
      modifies registry, registry.repr, wal`cursor, Remote()
      ensures Valid() && |registry.stations| == |old(registry.stations)|
      ensures forall c :: c in registry.repr && c !in old(registry.repr) ==> fresh(c)
      ensures Sent(peer.View(), ok) == Retry(peer.backup.wal.codec, old(peer.View()), wal.records, e)
      ensures Core() == Carry(before, |registry.stations|, e.op, true, ok)
      ensures ok ==> e.seqno <= peer.lastWalSeq
    {
      var synced;
      ok, synced := peer.ReplicateWithRetry(e);
      if !ok {
        RollbackChange(ch, e.op, before.mem);
      } else {
        peer.MarkAcknowledged(e.seqno);
      }
    }

    /** The local coordinator: log, then registry. */
    method LocalReplicateAndWait(op: Op, ch: Change) returns (persisted: bool)
      requires Valid() && Fits(ch, op)
      modifies registry, registry.repr, wal
      ensures Valid() && |registry.stations| == |old(registry.stations)|
      ensures persisted == Writable(wal.codec, NextEntry(old(Core()), op))
      ensures Core() == Carry(old(Core()), |registry.stations|, op, persisted, true)
      ensures forall c :: c in registry.repr && c !in old(registry.repr) ==> fresh(c)
    {
      var seqno := LogAndApply(op, ch);
      persisted := seqno.Some?;
    }

    /**
     * The coordinator: log, registry, standby, in that order. When the standby does not acknowledge, the
     * registry is put back and the record stays in the log.
     */
    method RemoteReplicateAndWait(op: Op, ch: Change) returns (persisted: bool, replicated: bool)
      requires Valid() && peer != null && Fits(ch, op)
      modifies registry, registry.repr, wal, Remote()
      ensures Valid() && |registry.stations| == |old(registry.stations)|
      ensures Core() == Carry(old(Core()), |registry.stations|, op, persisted, replicated)
      ensures Relayed(Pair(), persisted, replicated) == Relay(old(Pair()), |registry.stations|, op)
      ensures persisted && replicated ==> MaxSeq(old(wal.records)) < peer.lastWalSeq <= peer.backup.lastWalSeq
      ensures persisted && Live(old(Pair())) ==> replicated && peer.backup.wal.records == wal.records
      ensures forall c :: c in registry.repr && c !in old(registry.repr) ==> fresh(c)
    {
      var seqno := LogAndApply(op, ch);
      persisted, replicated := seqno.Some?, true;
      if persisted {
        replicated := ReplicateOrUndo(Entry(seqno.value, op), ch, old(Core()));
        if Live(old(Pair())) {
          RelayIsAcknowledged(old(Pair()), |registry.stations|, op);
        }
      }
    }

    method ReplicateAndWait(op: Op, ch: Change) returns (persisted: bool, replicated: bool)
      requires Valid() && Fits(ch, op)
      modifies registry, registry.repr, wal, Remote()
      ensures Valid() && |registry.stations| == |old(registry.stations)|
      ensures peer == null ==> replicated
      ensures persisted == Writable(wal.codec, NextEntry(old(Core()), op))
      ensures peer != null ==> Relayed(Pair(), persisted, replicated) == Relay(old(Pair()), |registry.stations|, op)
      ensures Core() == Carry(old(Core()), |registry.stations|, op, persisted, replicated)
      ensures forall c :: c in registry.repr && c !in old(registry.repr) ==> fresh(c)
    {
      if peer == null {
        replicated := true;
        persisted := LocalReplicateAndWait(op, ch);
      } else {
        persisted, replicated := RemoteReplicateAndWait(op, ch);
      }
    }

    /** Carries out a request that has passed its guards. */
    method Proceed(ghost req: Request, op: Op, ch: Change) returns (persisted: bool, replicated: bool)
      requires Valid() && Fits(ch, op) && Guarded(registry.mem, |registry.stations|, req) == Some(op)
      modifies registry, registry.repr, wal, Remote()
      ensures Valid() && |registry.stations| == |old(registry.stations)|
      ensures forall c :: c in registry.repr && c !in old(registry.repr) ==> fresh(c)
      ensures peer == null ==> replicated
      ensures persisted == Encodable(wal.codec, old(Core()), |registry.stations|, req)
      ensures Core() == Handle(old(Core()), |registry.stations|, req, persisted, replicated)
      ensures peer != null ==>
                Turned(Pair(), Served(req, persisted, replicated)) == Turn(old(Pair()), |registry.stations|, req)
    {
      persisted, replicated := ReplicateAndWait(op, ch);
    }

    // ---- The handlers ----

    /** The guards of Handshake, then the request. */
    method HandleHello(ip: string, port: nat) returns (persisted: bool, replicated: bool, ok: bool)
      requires Valid()
      modifies registry, registry.repr, wal, Remote()
      ensures Valid() && |registry.stations| == |old(registry.stations)|
      ensures forall c :: c in registry.repr && c !in old(registry.repr) ==> fresh(c)
      ensures Connects(wal.codec, old(Core()), Core(), ip, port, replicated)
      ensures ok <==> ClientKey(ip, port) !in old(registry.mem) && persisted && replicated
      ensures Core() == Handle(old(Core()), |registry.stations|, Hello(ip, port), persisted, replicated)
      ensures persisted == Encodable(wal.codec, old(Core()), |registry.stations|, Hello(ip, port))
      ensures peer == null ==> replicated
      ensures peer != null ==>
                Turned(Pair(), Served(Hello(ip, port), persisted, replicated)) == Turn(old(Pair()), |registry.stations|, Hello(ip, port))
    {
      var found := registry.GetClient(ClientKey(ip, port));
      if found.Some? {
        persisted, replicated, ok := true, true, false;
      } else {
        persisted, replicated := Proceed(Hello(ip, port), Handshake(ip, port), Connect(ip, port));
        ok := persisted && replicated;
      }
      RequestMeans(wal.codec, old(Core()), |registry.stations|, Hello(ip, port), replicated);
    }

    /** The guards of SetStation, then the request, up to the acknowledgement. */
    method HandleTune(ip: string, port: nat, station: nat) returns (persisted: bool, replicated: bool, ok: bool)
      requires Valid()
      modifies registry, registry.repr, wal, Remote()
      ensures Valid() && |registry.stations| == |old(registry.stations)|
      ensures forall c :: c in registry.repr && c !in old(registry.repr) ==> fresh(c)
      ensures Retunes(wal.codec, old(Core()), Core(), |registry.stations|, ip, port, station, replicated)
      ensures ok <==> ClientKey(ip, port) in old(registry.mem) && station < |registry.stations| && persisted && replicated
      ensures Core() == Handle(old(Core()), |registry.stations|, Tune(ip, port, station), persisted, replicated)
      ensures persisted == Encodable(wal.codec, old(Core()), |registry.stations|, Tune(ip, port, station))
      ensures peer == null ==> replicated
      ensures peer != null ==>
                Turned(Pair(), Served(Tune(ip, port, station), persisted, replicated)) == Turn(old(Pair()), |registry.stations|, Tune(ip, port, station))
    {
      var key := ClientKey(ip, port);
      var found := registry.GetClient(key);
      if station >= |registry.stations| || found.None? {
        persisted, replicated, ok := true, true, false;
      } else {
        var previous := found.value.currStation;
        persisted, replicated :=
          Proceed(Tune(ip, port, station), SetStation(ip, port, station, previous), Retune(key, station, previous));
        ok := persisted && replicated;
      }
      RequestMeans(wal.codec, old(Core()), |registry.stations|, Tune(ip, port, station), replicated);
    }

    /** The guards of Disconnect, then the request. */
    method HandleBye(ip: string, port: nat) returns (persisted: bool, replicated: bool, ok: bool)
      requires Valid()
      modifies registry, registry.repr, wal, Remote()
      ensures Valid() && |registry.stations| == |old(registry.stations)|
      ensures forall c :: c in registry.repr && c !in old(registry.repr) ==> fresh(c)
      ensures Disconnects(wal.codec, old(Core()), Core(), ip, port, replicated)
      ensures ok <==> ClientKey(ip, port) in old(registry.mem) && persisted && replicated
      ensures Core() == Handle(old(Core()), |registry.stations|, Bye(ip, port), persisted, replicated)
      ensures persisted == Encodable(wal.codec, old(Core()), |registry.stations|, Bye(ip, port))
      ensures peer == null ==> replicated
      ensures peer != null ==>
                Turned(Pair(), Served(Bye(ip, port), persisted, replicated)) == Turn(old(Pair()), |registry.stations|, Bye(ip, port))
    {
      var key := ClientKey(ip, port);
      var found := registry.GetClient(key);
      if found.None? {
        persisted, replicated, ok := true, true, false;
      } else {
        persisted, replicated := Proceed(Bye(ip, port), Disconnect(ip, port), Drop(key, found.value.currStation));
        ok := persisted && replicated;
      }
      RequestMeans(wal.codec, old(Core()), |registry.stations|, Bye(ip, port), replicated);
    }

    method HandleOne(req: Request) returns (served: Served)
      requires Valid()
      modifies registry, registry.repr, wal, Remote()
      ensures Valid() && |registry.stations| == |old(registry.stations)|
      ensures forall c :: c in registry.repr && c !in old(registry.repr) ==> fresh(c)
      ensures served.req == req && (peer == null ==> served.replicated)
      ensures Core() == Handle(old(Core()), |registry.stations|, req, served.persisted, served.replicated)
      ensures served.persisted == Encodable(wal.codec, old(Core()), |registry.stations|, req)
      ensures peer != null ==> Turned(Pair(), served) == Turn(old(Pair()), |registry.stations|, req)
    {
      var persisted, replicated, ok;
      match req {
        case Hello(ip, port) => persisted, replicated, ok := HandleHello(ip, port);
        case Tune(ip, port, station) => persisted, replicated, ok := HandleTune(ip, port, station);
        case Bye(ip, port) => persisted, replicated, ok := HandleBye(ip, port);
      }
      served := Served(req, persisted, replicated);
    }

    /** Any sequence of requests, one at a time, each with whatever fate its record meets. */
    method Serve(reqs: seq<Request>) returns (served: seq<Served>)
      requires Valid()
      modifies registry, registry.repr, wal, Remote()
      ensures Valid() && |registry.stations| == |old(registry.stations)|
      ensures |served| == |reqs| && forall i :: 0 <= i < |reqs| ==> served[i].req == reqs[i]
      ensures ServesAll(wal.codec, old(Core()), |registry.stations|, served, Core())
      ensures peer == null ==> forall i :: 0 <= i < |served| ==> served[i].replicated
      ensures peer != null ==> Follows(old(Pair()), |registry.stations|, reqs, served, Pair())
      ensures peer != null && Live(old(Pair())) ==>
                && (forall i :: 0 <= i < |served| ==> served[i].replicated)
                && (Equal(old(Pair())) ==> peer.backup.wal.records == wal.records)
    {
      served := [];
      ghost var start, n := Core(), |registry.stations|;
      while |served| < |reqs|
        invariant Valid() && |registry.stations| == n
        invariant forall c :: c in registry.repr && c !in old(registry.repr) ==> fresh(c)
        invariant |served| <= |reqs| && forall i :: 0 <= i < |served| ==> served[i].req == reqs[i]
        invariant ServesAll(wal.codec, start, n, served, Core())
        invariant peer == null ==> forall i :: 0 <= i < |served| ==> served[i].replicated
        invariant peer != null ==> Follows(old(Pair()), n, reqs, served, Pair())
      {
        ghost var core, before := Core(), if peer == null then None else Some(Pair());
        var one := HandleOne(reqs[|served|]);
        ServesAllSnoc(wal.codec, start, n, served, core, one, Core());
        if peer != null {
          FollowsSnoc(old(Pair()), n, reqs, served, before.value, one, Pair());
        }
        served := served + [one];
      }
      if peer != null && Live(old(Pair())) {
        assert reqs[..|served|] == reqs;
        ServingIsAcknowledged(old(Pair()), n, reqs);
      }
    }
  }
}
