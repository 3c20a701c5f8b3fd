/** The client-facing handlers as values: their guards, and what one request does to registry and log. */
module ControlSpec {
  import opened Entries
  import opened ClientKeys
  import opened WalFormat
  import opened Wal
  import opened SyncSpec
  import opened RegistrySpec

  datatype Request =
    | Hello(ip: string, port: nat)
    | Tune(ip: string, port: nat, station: nat)
    | Bye(ip: string, port: nat)

  /** The log operation a handler builds, or `None` when its guards turn the request away. */
  function Guarded(m: Mem, n: nat, req: Request): Option<Op> {
    var k := ClientKey(req.ip, req.port);
    match req
    case Hello(ip, port) => if k in m then None else Some(Handshake(ip, port))
    case Tune(ip, port, station) =>
      if station >= n || k !in m then None else Some(SetStation(ip, port, station, m[k]))
    case Bye(ip, port) => if k in m then Some(Disconnect(ip, port)) else None
  }

  /** The guards are strong enough: what they let through always applies. */
  lemma GuardsMakeApplySucceed(m: Mem, n: nat, req: Request)
    requires Guarded(m, n, req).Some?
    ensures Apply(m, n, Guarded(m, n, req).value).Ok?
  {
  }

  /** A node serving clients: its registry and its log. */
  datatype Core = Core(mem: Mem, log: seq<Entry>)

  /** The record that a request past its guards appends. */
  function NextEntry(s: Core, op: Op): Entry {
    Entry(MaxSeq(s.log) + 1, op)
  }

  /**
   * ReplicateAndWait for one operation. `persisted` tells whether the log took the record, `replicated`
   * whether the standby acknowledged it (always true in local mode).
   */
  function Carry(s: Core, n: nat, op: Op, persisted: bool, replicated: bool): Core {
    if !persisted then s
    else
      var after := Apply(s.mem, n, op);
      Core(if replicated && after.Ok? then after.mem else s.mem, s.log + [NextEntry(s, op)])
  }

  /** Log and registry each as `Carry` says make up the whole of it. */
  lemma CarryParts(s: Core, n: nat, op: Op, persisted: bool, replicated: bool, s': Core)
    requires s'.log == if persisted then s.log + [NextEntry(s, op)] else s.log
    requires if persisted && replicated then Apply(s.mem, n, op) == Ok(s'.mem) else s'.mem == s.mem
    ensures s' == Carry(s, n, op, persisted, replicated)
  {
  }

  /** One request through a handler: its guards, then ReplicateAndWait. */
  function Handle(s: Core, n: nat, req: Request, persisted: bool, replicated: bool): Core {
    match Guarded(s.mem, n, req)
    case None => s
    case Some(op) => Carry(s, n, op, persisted, replicated)
  }

  /** A request together with the fate of its record. */
  datatype Served = Served(req: Request, persisted: bool, replicated: bool)

  function HandleAll(s: Core, n: nat, reqs: seq<Served>): Core
    decreases reqs
  {
    if reqs == [] then s
    else HandleAll(Handle(s, n, reqs[0].req, reqs[0].persisted, reqs[0].replicated), n, reqs[1..])
  }

  lemma {:induction false} HandleAllSnoc(s: Core, n: nat, reqs: seq<Served>, r: Served)
    ensures HandleAll(s, n, reqs + [r]) == Handle(HandleAll(s, n, reqs), n, r.req, r.persisted, r.replicated)
    decreases reqs
  {
    if reqs == [] {
      assert [] + [r] == [r] && [r][1..] == [];
      assert HandleAll(s, n, [r]) == HandleAll(Handle(s, n, r.req, r.persisted, r.replicated), n, []);
    } else {
      assert (reqs + [r])[1..] == reqs[1..] + [r];
      HandleAllSnoc(Handle(s, n, reqs[0].req, reqs[0].persisted, reqs[0].replicated), n, reqs[1..], r);
    }
  }

  /** The record of a request that passes its guards can be encoded; a request turned away needs none. */
  predicate Encodable(c: Codec, s: Core, n: nat, req: Request) {
    var g := Guarded(s.mem, n, req);
    g.Some? ==> Writable(c, NextEntry(s, g.value))
  }

  /** `s'` is reached by serving, and a record is missing from the log only if it could not be encoded. */
  ghost predicate ServesAll(c: Codec, s: Core, n: nat, reqs: seq<Served>, s': Core) {
    && s' == HandleAll(s, n, reqs)
    && forall i :: 0 <= i < |reqs| ==> reqs[i].persisted == Encodable(c, HandleAll(s, n, reqs[..i]), n, reqs[i].req)
  }

  lemma ServesAllSnoc(c: Codec, s: Core, n: nat, reqs: seq<Served>, s': Core, r: Served, s'': Core)
    requires ServesAll(c, s, n, reqs, s')
    requires s'' == Handle(s', n, r.req, r.persisted, r.replicated) && r.persisted == Encodable(c, s', n, r.req)
    ensures ServesAll(c, s, n, reqs + [r], s'')
  {
    HandleAllSnoc(s, n, reqs, r);
    var more := reqs + [r];
    forall i | 0 <= i < |more|
      ensures more[i].persisted == Encodable(c, HandleAll(s, n, more[..i]), n, more[i].req)
    {
      assert more[..i] == reqs[..i];
      assert i == |reqs| ==> reqs[..i] == reqs;
    }
  }

  // ---- What a request does, said in its own terms ----

  /** `e` was appended if it can be encoded, and memory is then `m` if it was acknowledged; else nothing changed. */
  ghost predicate Recorded(c: Codec, s: Core, s': Core, e: Entry, m: Mem, replicated: bool) {
    if Writable(c, e) then s' == Core(if replicated then m else s.mem, s.log + [e]) else s' == s
  }

  /** A client that is not connected connects, on no station. */
  ghost predicate Connects(c: Codec, s: Core, s': Core, ip: string, port: nat, replicated: bool) {
    var k := ClientKey(ip, port);
    if k in s.mem then s' == s
    else Recorded(c, s, s', Entry(MaxSeq(s.log) + 1, Handshake(ip, port)), s.mem[k := -1], replicated)
  }

  /** A connected client moves to the station it names, if there is one. */
  ghost predicate Retunes(c: Codec, s: Core, s': Core, n: nat, ip: string, port: nat, station: nat, replicated: bool) {
    var k := ClientKey(ip, port);
    if k !in s.mem || station >= n then s' == s
    else Recorded(c, s, s', Entry(MaxSeq(s.log) + 1, SetStation(ip, port, station, s.mem[k])), s.mem[k := station], replicated)
  }

  /** A connected client disconnects. */
  ghost predicate Disconnects(c: Codec, s: Core, s': Core, ip: string, port: nat, replicated: bool) {
    var k := ClientKey(ip, port);
    if k !in s.mem then s' == s
    else Recorded(c, s, s', Entry(MaxSeq(s.log) + 1, Disconnect(ip, port)), s.mem - {k}, replicated)
  }

  /** A handled request does what it asks for, and nothing else. */
  lemma RequestMeans(c: Codec, s: Core, n: nat, req: Request, replicated: bool)
    ensures var s' := Handle(s, n, req, Encodable(c, s, n, req), replicated);
            match req
            case Hello(ip, port) => Connects(c, s, s', ip, port, replicated)
            case Tune(ip, port, station) => Retunes(c, s, s', n, ip, port, station, replicated)
            case Bye(ip, port) => Disconnects(c, s, s', ip, port, replicated)
  {
  }

  // ---- A leader with its standby ----

  /** A leader's node, its link to the standby, and the codecs of the two logs. */
  datatype Pair = Pair(core: Core, link: Link, own: Codec, peer: Codec)

  datatype Relayed = Relayed(pair: Pair, persisted: bool, replicated: bool)

  datatype Turned = Turned(pair: Pair, served: Served)

  /** The coordinator's ReplicateAndWait, the codecs and the link deciding the fate of the record. */
  function Relay(p: Pair, n: nat, op: Op): Relayed {
    var e := NextEntry(p.core, op);
    if !Writable(p.own, e) then Relayed(p, false, true)
    else
      var r := Retry(p.peer, p.link, p.core.log + [e], e);
      Relayed(p.(core := Carry(p.core, n, op, true, r.ok), link := r.link), true, r.ok)
  }

  /** One request through a handler and the coordinator. */
  function Turn(p: Pair, n: nat, req: Request): Turned {
    match Guarded(p.core.mem, n, req)
    case None => Turned(p, Served(req, true, true))
    case Some(op) =>
      var r := Relay(p, n, op);
      Turned(r.pair, Served(req, r.persisted, r.replicated))
  }

  /** The record a request leaves in the leader's log, if any. */
  function RecordOf(p: Pair, n: nat, req: Request): Option<Entry> {
    match Guarded(p.core.mem, n, req)
    case None => None
    case Some(op) => if Writable(p.own, NextEntry(p.core, op)) then Some(NextEntry(p.core, op)) else None
  }

  /** The pair after all the requests. */
  function TurnAll(p: Pair, n: nat, reqs: seq<Request>): Pair {
    if reqs == [] then p
    else
      var last := |reqs| - 1;
      Turn(TurnAll(p, n, reqs[..last]), n, reqs[last]).pair
  }

  lemma TurnAllNext(p: Pair, n: nat, reqs: seq<Request>, m: nat)
    requires m < |reqs|
    ensures TurnAll(p, n, reqs[..m + 1]) == Turn(TurnAll(p, n, reqs[..m]), n, reqs[m]).pair
  {
    assert reqs[..m + 1][..m] == reqs[..m];
  }

  /** What became of request `i`. */
  function ServedAt(p: Pair, n: nat, reqs: seq<Request>, i: nat): Served
    requires i < |reqs|
  {
    Turn(TurnAll(p, n, reqs[..i]), n, reqs[i]).served
  }

  /** The record request `i` left in the leader's log, if any. */
  function RecordAt(p: Pair, n: nat, reqs: seq<Request>, i: nat): Option<Entry>
    requires i < |reqs|
  {
    RecordOf(TurnAll(p, n, reqs[..i]), n, reqs[i])
  }

  /** After the first requests of `reqs`, answered as `served` says, the pair is `p'`. */
  ghost predicate Follows(p: Pair, n: nat, reqs: seq<Request>, served: seq<Served>, p': Pair) {
    && |served| <= |reqs|
    && p' == TurnAll(p, n, reqs[..|served|])
    && forall i :: 0 <= i < |served| ==> served[i] == ServedAt(p, n, reqs, i)
  }

  lemma FollowsSnoc(p: Pair, n: nat, reqs: seq<Request>, served: seq<Served>, p': Pair, one: Served, p'': Pair)
    requires Follows(p, n, reqs, served, p') && |served| < |reqs|
    requires Turned(p'', one) == Turn(p', n, reqs[|served|])
    ensures Follows(p, n, reqs, served + [one], p'')
  {
    assert reqs[..|served| + 1][..|served|] == reqs[..|served|];
  }

  ghost predicate Replayable(s: Core, n: nat) {
    Rebuilds(s.log, n, s.mem)
  }

  lemma HandleKeepsReplayable(s: Core, n: nat, req: Request, persisted: bool)
    requires Replayable(s, n)
    ensures Replayable(Handle(s, n, req, persisted, true), n)
  {
    var g := Guarded(s.mem, n, req);
    if g.Some? {
      GuardsMakeApplySucceed(s.mem, n, req);
      ReplayAppend(n, s.log, s.mem, NextEntry(s, g.value));
    }
  }

  /**
   * In every sequential run of requests, valid or not, in which no replication fails, the log always
   * replays and rebuilds exactly the registry in memory.
   */
  lemma {:induction false} LogAlwaysReplayable(s: Core, n: nat, reqs: seq<Served>)
    requires Replayable(s, n)
    requires forall i :: 0 <= i < |reqs| ==> reqs[i].replicated
    ensures Replayable(HandleAll(s, n, reqs), n)
    decreases reqs
  {
    if reqs != [] {
      HandleKeepsReplayable(s, n, reqs[0].req, reqs[0].persisted);
      LogAlwaysReplayable(Handle(s, n, reqs[0].req, reqs[0].persisted, true), n, reqs[1..]);
    }
  }

  // ---- Crashes ----

  /** What a process finds when it starts over a log file: a file it refuses, or the end of its replay. */
  datatype Restart = Unreadable(fault: Fault) | Ran(replayed: Replayed)

  function Restarted(c: Codec, n: nat, file: seq<Byte>): Restart {
    match Parse(c, file)
    case Corrupt(fault) => Unreadable(fault)
    case Records(log) => Ran(Replay(map[], n, log))
  }

  /** The bytes a request adds to the file: none if it is turned away or its record cannot be encoded. */
  function Pending(c: Codec, s: Core, n: nat, req: Request): seq<Byte> {
    var g := Guarded(s.mem, n, req);
    if g.None? then []
    else
      var e := NextEntry(s, g.value);
      if Writable(c, e) then Frame(c, e) else []
  }

  /** Those are the bytes that appending the request's record to a healthy log adds to its file. */
  lemma PendingIsWritten(c: Codec, d: Disk, s: Core, n: nat, req: Request)
    requires Healthy(c, d) && LogOf(c, d) == s.log
    ensures var g := Guarded(s.mem, n, req);
            d.file + Pending(c, s, n, req) ==
              if g.None? then d.file else Written(c, d, Entry(d.top + 1, g.value)).file
  {
  }

  /**
   * A crash at any byte of a request, after any run in which no replication failed. With nothing of the
   * record on disk the node comes back with the registry from before the request, with all of it with the
   * registry from after, and with a part of it the node does not start again.
   */
  lemma CrashRecovers(c: Codec, file: seq<Byte>, s0: Core, n: nat, reqs: seq<Served>, req: Request, written: nat)
    requires Lawful(c) && Replayable(s0, n)
    requires forall i :: 0 <= i < |reqs| ==> reqs[i].replicated
    requires Parse(c, file) == Records(HandleAll(s0, n, reqs).log)
    requires written <= |Pending(c, HandleAll(s0, n, reqs), n, req)|
    ensures var s := HandleAll(s0, n, reqs);
            var whole := Pending(c, s, n, req);
            Restarted(c, n, file + whole[..written]) ==
              if written == 0 then Ran(Replayed(s.mem, Completed))
              else if written == |whole| then Ran(Replayed(Handle(s, n, req, true, true).mem, Completed))
              else Unreadable(Truncated)
  {
    var s := HandleAll(s0, n, reqs);
    LogAlwaysReplayable(s0, n, reqs);
    HandleKeepsReplayable(s, n, req, true);
    var whole := Pending(c, s, n, req);
    if written == 0 {
      assert file + whole[..0] == file;
    } else {
      TornAppend(c, file, s.log, NextEntry(s, Guarded(s.mem, n, req).value), written);
    }
  }

  /**
   * A failed replication puts memory back but not the log. The two still agree exactly when the request
   * was rejected, or re-selected the station the client was already on.
   */
  lemma FailedReplicationDiverges(s: Core, n: nat, req: Request)
    requires Replayable(s, n)
    ensures var s' := Handle(s, n, req, true, false);
            var k := ClientKey(req.ip, req.port);
            && s'.mem == s.mem
            && |s'.log| == |s.log| + (if Guarded(s.mem, n, req).Some? then 1 else 0)
            && (Replayable(s', n) <==>
                 Guarded(s.mem, n, req).None? || (req.Tune? && s.mem[k] == req.station))
  {
    var g := Guarded(s.mem, n, req);
    var k := ClientKey(req.ip, req.port);
    if g.Some? {
      GuardsMakeApplySucceed(s.mem, n, req);
      var m' := Apply(s.mem, n, g.value).mem;
      ReplayAppend(n, s.log, s.mem, NextEntry(s, g.value));
      assert req.Hello? ==> k in m' && k !in s.mem;
      assert req.Bye? ==> k !in m' && k in s.mem;
      if req.Tune? {
        assert m'[k] == req.station;
        assert s.mem[k] == req.station ==> m' == s.mem;
      }
    }
  }

  /** A client that connects, is told it failed, and connects again, leaves a log that no longer replays. */
  lemma RetryAfterFailureBreaksLog(ip: string, port: nat, n: nat)
    ensures var reqs := [Served(Hello(ip, port), true, false), Served(Hello(ip, port), true, true)];
            Replay(map[], n, HandleAll(Core(map[], []), n, reqs).log).status == Stopped
  {
    var first, second := Served(Hello(ip, port), true, false), Served(Hello(ip, port), true, true);
    var s0 := Core(map[], []);
    var s1 := Handle(s0, n, first.req, true, false);
    var s2 := Handle(s1, n, second.req, true, true);
    assert [first, second][1..] == [second] && [second][1..] == [];
    assert HandleAll(s0, n, [first, second]) == HandleAll(s1, n, [second]) == HandleAll(s2, n, []);
    MaxSeqOfAppend([], Entry(1, Handshake(ip, port)));
    assert s1.log == [] + [Entry(1, Handshake(ip, port))];
    assert s2.log == s1.log + [Entry(2, Handshake(ip, port))];
    var k := ClientKey(ip, port);
    ReplayAppend(n, [], map[], Entry(1, Handshake(ip, port)));
    assert Rebuilds(s1.log, n, map[k := -1]);
    ReplayAppend(n, s1.log, map[k := -1], Entry(2, Handshake(ip, port)));
  }

  /**
   * A client that is in memory without being in the log (as a second replay can leave one) is refused when
   * it connects, and its other requests, once logged, leave a log that no longer replays.
   */
  lemma RevivedClientBreaksLog(n: nat, log: seq<Entry>, m: Mem, live: Mem, req: Request)
    requires Rebuilds(log, n, m)
    requires ClientKey(req.ip, req.port) in live && ClientKey(req.ip, req.port) !in m
    requires req.Tune? ==> req.station < n
    ensures if req.Hello? then Guarded(live, n, req).None?
            else Replay(map[], n, Handle(Core(live, log), n, req, true, true).log).status == Stopped
  {
    if !req.Hello? {
      ReplayAppend(n, log, m, Entry(MaxSeq(log) + 1, Guarded(live, n, req).value));
    }
  }
}
