/**
 * Runs in which replications fail, or which start from a registry that a second replay has left different from
 * what the log rebuilds: exactly when the log still replays, and exactly when it rebuilds the registry in memory.
 */
module Divergence {
  import opened Entries
  import opened ClientKeys
  import opened RegistrySpec
  import opened ControlSpec

  /** Two registries say the same about `k`. */
  predicate Agree(a: Mem, b: Mem, k: string) {
    (k in a <==> k in b) && (k in a && k in b ==> a[k] == b[k])
  }

  /** A run of requests, each with the fate of its record. */
  datatype Run = Run(start: Core, n: nat, reqs: seq<Served>) {

    /** The node after the first `m` requests. */
    function At(m: nat): Core
      requires m <= |reqs|
    {
      HandleAll(start, n, reqs[..m])
    }

    function Key(i: nat): string
      requires i < |reqs|
    {
      ClientKey(reqs[i].req.ip, reqs[i].req.port)
    }

    /** Request `i` passed its guards and its record was written. */
    predicate Logged(i: nat)
      requires i < |reqs|
    {
      Guarded(At(i).mem, n, reqs[i].req).Some? && reqs[i].persisted
    }

    /** A connect or disconnect that is in the log although the client was told that it failed. */
    predicate Unpaid(i: nat)
      requires i < |reqs|
    {
      Logged(i) && !reqs[i].replicated && !reqs[i].req.Tune?
    }

    /** The registry the starting log rebuilds. */
    function Rebuilt0(): Mem {
      Replay(map[], n, start.log).mem
    }

    /** The starting log replays, be it to the registry in memory or not. */
    predicate Starts() {
      Replay(map[], n, start.log).status == Completed
    }

    /** The client has an unpaid connect or disconnect, or was registered in only one of log and memory from the start. */
    ghost predicate Owed(m: nat, k: string)
      requires m <= |reqs|
    {
      (k in Rebuilt0()) != (k in start.mem) || exists i: nat :: i < m && Unpaid(i) && Key(i) == k
    }

    /** Some client that was owed had a request logged. */
    ghost predicate Broken(m: nat)
      requires m <= |reqs|
    {
      exists j: nat :: j < m && Logged(j) && Owed(j, Key(j))
    }

    /** The client was told the truth about request `i`, or the request re-selected the current station. */
    predicate Settled(i: nat)
      requires i < |reqs| && Logged(i)
    {
      reqs[i].replicated || (reqs[i].req.Tune? && At(i).mem[Key(i)] == reqs[i].req.station)
    }

    /** No request of the same client was logged between `i` and `m`. */
    ghost predicate Last(i: nat, m: nat)
      requires i < m <= |reqs|
    {
      forall j: nat :: i < j < m && Logged(j) ==> Key(j) != Key(i)
    }

    /** No request of the client was logged yet. */
    ghost predicate Silent(m: nat, k: string)
      requires m <= |reqs|
    {
      forall i: nat :: i < m && Logged(i) ==> Key(i) != k
    }

    /** The client's last logged request is unsettled, or it had none and was different from the start. */
    ghost predicate Lagging(m: nat, k: string)
      requires m <= |reqs|
    {
      || (Silent(m, k) && !Agree(Rebuilt0(), start.mem, k))
      || exists i: nat :: i < m && Logged(i) && Key(i) == k && !Settled(i) && Last(i, m)
    }

    ghost function Rebuilt(m: nat): Replayed
      requires m <= |reqs|
    {
      Replay(map[], n, At(m).log)
    }
  }

  /** `k` is registered in both or neither unless it is owed, and they say the same about it unless it lags. */
  ghost predicate TracksClient(r: Run, m: nat, k: string)
    requires m <= |r.reqs|
  {
    && ((k in r.Rebuilt(m).mem <==> k in r.At(m).mem) <==> !r.Owed(m, k))
    && (Agree(r.Rebuilt(m).mem, r.At(m).mem, k) <==> !r.Lagging(m, k))
  }

  /**
   * Until the run breaks, replay and memory have the same clients except those owed, and say the same
   * about every client except those lagging. From then on replay stops.
   */
  ghost predicate Tracks(r: Run, m: nat)
    requires m <= |r.reqs|
  {
    if r.Broken(m) then r.Rebuilt(m).status == Stopped
    else r.Rebuilt(m).status == Completed && forall k :: TracksClient(r, m, k)
  }

  lemma NextIs(r: Run, m: nat)
    requires m < |r.reqs|
    ensures r.At(m + 1) == Handle(r.At(m), r.n, r.reqs[m].req, r.reqs[m].persisted, r.reqs[m].replicated)
  {
    assert r.reqs[..m + 1] == r.reqs[..m] + [r.reqs[m]];
    HandleAllSnoc(r.start, r.n, r.reqs[..m], r.reqs[m]);
  }

  /** How the bookkeeping of a client moves on by one request. */
  lemma NextOwed(r: Run, m: nat, k: string)
    requires m < |r.reqs|
    ensures r.Owed(m + 1, k) <==> r.Owed(m, k) || (r.Unpaid(m) && r.Key(m) == k)
  {
  }

  lemma NextBroken(r: Run, m: nat)
    requires m < |r.reqs|
    ensures r.Broken(m + 1) <==> r.Broken(m) || (r.Logged(m) && r.Owed(m, r.Key(m)))
  {
  }

  lemma NextLagging(r: Run, m: nat, k: string)
    requires m < |r.reqs|
    ensures r.Lagging(m + 1, k) <==>
              if r.Logged(m) && r.Key(m) == k then !r.Settled(m) else r.Lagging(m, k)
  {
    if r.Logged(m) && r.Key(m) == k {
      assert !r.Silent(m + 1, k);
      assert !r.Settled(m) ==> r.Last(m, m + 1);
    } else {
      assert r.Silent(m + 1, k) <==> r.Silent(m, k);
      if r.Lagging(m, k) && !r.Silent(m, k) {
        var i: nat :| i < m && r.Logged(i) && r.Key(i) == k && !r.Settled(i) && r.Last(i, m);
        assert r.Last(i, m + 1);
      }
      if r.Lagging(m + 1, k) && !r.Silent(m, k) {
        var i: nat :| i < m + 1 && r.Logged(i) && r.Key(i) == k && !r.Settled(i) && r.Last(i, m + 1);
        assert i < m && r.Last(i, m);
      }
    }
  }

  /** A request that is not logged changes neither the node nor the bookkeeping. */
  lemma IdleTracks(r: Run, m: nat)
    requires m < |r.reqs| && Tracks(r, m) && !r.Logged(m)
    ensures Tracks(r, m + 1)
  {
    NextIs(r, m);
    NextBroken(r, m);
    var next := m + 1;
    forall k ensures TracksClient(r, m, k) ==> TracksClient(r, next, k) {
      NextOwed(r, m, k);
      NextLagging(r, m, k);
    }
  }

  /** The record a logged request adds, and how replay takes it. */
  lemma LoggedReplay(r: Run, m: nat) returns (op: Op)
    requires m < |r.reqs| && r.Logged(m)
    ensures Guarded(r.At(m).mem, r.n, r.reqs[m].req) == Some(op) && KeyOf(op) == r.Key(m)
    ensures r.Rebuilt(m).status != Completed ==> r.Rebuilt(m + 1) == r.Rebuilt(m)
    ensures r.Rebuilt(m).status == Completed ==>
              match Apply(r.Rebuilt(m).mem, r.n, op)
              case Ok(mem) => r.Rebuilt(m + 1) == Replayed(mem, Completed)
              case Err => r.Rebuilt(m + 1).status == Stopped
              case Panic => r.Rebuilt(m + 1).status == Crashed
  {
    NextIs(r, m);
    op := Guarded(r.At(m).mem, r.n, r.reqs[m].req).value;
    ReplayConcat(map[], r.n, r.At(m).log, [NextEntry(r.At(m), op)]);
  }

  /** A logged request of a client about whose presence replay and memory agree. */
  lemma PaidTracks(r: Run, m: nat)
    requires m < |r.reqs| && Tracks(r, m) && r.Logged(m)
    requires !r.Broken(m) && !r.Owed(m, r.Key(m))
    ensures Tracks(r, m + 1)
  {
    var op := LoggedReplay(r, m);
    NextIs(r, m);
    NextBroken(r, m);
    GuardsMakeApplySucceed(r.At(m).mem, r.n, r.reqs[m].req);
    assert TracksClient(r, m, r.Key(m));
    var next := m + 1;
    forall k ensures TracksClient(r, next, k) {
      assert TracksClient(r, m, k);
      NextOwed(r, m, k);
      NextLagging(r, m, k);
    }
  }

  lemma StepTracks(r: Run, m: nat)
    requires m < |r.reqs| && Tracks(r, m)
    ensures Tracks(r, m + 1)
  {
    if !r.Logged(m) {
      IdleTracks(r, m);
    } else if r.Broken(m) || r.Owed(m, r.Key(m)) {
      assert !r.Broken(m) ==> TracksClient(r, m, r.Key(m));
      var op := LoggedReplay(r, m);
      NextBroken(r, m);
    } else {
      PaidTracks(r, m);
    }
  }

  lemma StartTracks(r: Run)
    requires r.Starts()
    ensures Tracks(r, 0)
  {
    assert r.At(0) == r.start;
    forall k ensures TracksClient(r, 0, k) {
    }
  }

  lemma {:induction false} RunTracks(r: Run, m: nat)
    requires r.Starts() && m <= |r.reqs|
    ensures Tracks(r, m)
  {
    if m == 0 {
      StartTracks(r);
    } else {
      RunTracks(r, m - 1);
      StepTracks(r, m - 1);
    }
  }

  /**
   * Over every run, replications failing or not: the log replays exactly when no owed client had a request
   * logged, that is, no client whose connect or disconnect was logged without an acknowledgement, or who was
   * registered in only one of log and memory from the start. It never panics, and a failed change of station never
   * breaks it.
   */
  lemma LogReplaysIff(r: Run)
    requires r.Starts()
    ensures var log := HandleAll(r.start, r.n, r.reqs).log;
            Replay(map[], r.n, log).status == if r.Broken(|r.reqs|) then Stopped else Completed
  {
    RunTracks(r, |r.reqs|);
    assert r.reqs[..|r.reqs|] == r.reqs;
  }

  /**
   * Over every run, the log rebuilds exactly the registry in memory when it replays, every client's last logged
   * request was acknowledged or re-selected the station the client was on, and log and memory agreed from the
   * start about every other client; and only then.
   */
  lemma ReplayableIff(r: Run)
    requires r.Starts()
    ensures var m := |r.reqs|;
            Replayable(HandleAll(r.start, r.n, r.reqs), r.n) <==>
              && !r.Broken(m)
              && (forall i: nat :: i < m && r.Logged(i) && r.Last(i, m) ==> r.Settled(i))
              && (forall k :: r.Silent(m, k) ==> Agree(r.Rebuilt0(), r.start.mem, k))
  {
    var m := |r.reqs|;
    RunTracks(r, m);
    assert r.reqs[..m] == r.reqs;
    if !r.Broken(m) {
      AgreeOnAll(r.Rebuilt(m).mem, r.At(m).mem);
      assert forall k :: TracksClient(r, m, k) ==> (Agree(r.Rebuilt(m).mem, r.At(m).mem, k) <==> !r.Lagging(m, k));
      if !Replayable(r.At(m), r.n) {
        var k :| !Agree(r.Rebuilt(m).mem, r.At(m).mem, k);
        assert r.Lagging(m, k);
      } else {
        forall i: nat | i < m && r.Logged(i) && r.Last(i, m) ensures r.Settled(i) {
          assert TracksClient(r, m, r.Key(i));
        }
        forall k | r.Silent(m, k) ensures Agree(r.Rebuilt0(), r.start.mem, k) {
          assert TracksClient(r, m, k);
        }
      }
    }
  }

  lemma AgreeOnAll(a: Mem, b: Mem)
    ensures a == b <==> forall k :: Agree(a, b, k)
  {
    if forall k :: Agree(a, b, k) {
      forall k ensures k in a <==> k in b {
        assert Agree(a, b, k);
      }
      assert a.Keys == b.Keys;
      forall k | k in a ensures a[k] == b[k] {
        assert Agree(a, b, k);
      }
    }
  }

  // ---- Logs that hold only the first records ----

  lemma {:induction false} LogGrows(r: Run, i: nat, m: nat)
    requires i <= m <= |r.reqs|
    ensures r.At(i).log <= r.At(m).log
    decreases m - i
  {
    if i < m {
      NextIs(r, i);
      LogGrows(r, i + 1, m);
    }
  }

  /** Records are added one by one, so every length in between is reached. */
  lemma {:induction false} LengthReached(r: Run, m: nat, length: nat) returns (i: nat)
    requires m <= |r.reqs| && |r.start.log| <= length <= |r.At(m).log|
    ensures i <= m && |r.At(i).log| == length
  {
    i := m;
    if length < |r.At(m).log| {
      assert m > 0 by {
        assert r.At(0) == r.start;
      }
      NextIs(r, m - 1);
      i := LengthReached(r, m - 1, length);
    }
  }

  /** The run was not yet broken when the log grew beyond its first `length` records. */
  ghost predicate UnbrokenWithin(r: Run, length: nat) {
    forall m: nat :: m <= |r.reqs| && |r.At(m).log| <= length ==> !r.Broken(m)
  }

  /**
   * The first records of the log, which is what a standby has, replay exactly when none of them broke the
   * run. Otherwise replay stops with an error.
   */
  lemma PrefixReplaysIff(r: Run, part: seq<Entry>)
    requires r.Starts() && part <= HandleAll(r.start, r.n, r.reqs).log
    ensures Replay(map[], r.n, part).status == if UnbrokenWithin(r, |part|) then Completed else Stopped
  {
    var end := |r.reqs|;
    assert r.reqs[..end] == r.reqs;
    assert r.At(0) == r.start;
    LogGrows(r, 0, end);
    if |part| < |r.start.log| {
      assert part <= r.start.log;
      PrefixReplays(r.n, part, r.start.log);
    } else {
      var i := LengthReached(r, end, |part|);
      LogGrows(r, i, end);
      assert part == r.At(i).log;
      RunTracks(r, i);
    }
    forall m: nat | m <= end && |r.At(m).log| <= |part| && Replay(map[], r.n, part).status == Completed
      ensures !r.Broken(m)
    {
      LogGrows(r, m, end);
      assert r.At(m).log <= part;
      PrefixReplays(r.n, r.At(m).log, part);
      RunTracks(r, m);
    }
  }

  // ---- What the first records rebuild ----

  /** Requests that are not logged, or fail, leave memory alone. */
  lemma {:induction false} FailedKeepMemory(r: Run, i: nat, m: nat)
    requires i <= m <= |r.reqs|
    requires forall j: nat :: i <= j < m && r.Logged(j) ==> !r.reqs[j].replicated
    ensures r.At(m).mem == r.At(i).mem
    decreases m
  {
    if i < m {
      NextIs(r, m - 1);
      FailedKeepMemory(r, i, m - 1);
    }
  }

  /**
   * `log` holds the records of the first `i` requests. If they did not break the run, it rebuilds what `live`
   * says, except about the clients that lag after them.
   */
  ghost predicate Trails(r: Run, i: nat, log: seq<Entry>, live: Mem) {
    && i <= |r.reqs| && r.At(i).log == log
    && (!r.Broken(i) ==> forall k :: Agree(Replay(map[], r.n, log).mem, live, k) <==> !r.Lagging(i, k))
  }

  lemma TrailsWhenLaterFail(r: Run, i: nat)
    requires r.Starts() && i <= |r.reqs|
    requires forall j: nat :: i <= j < |r.reqs| && r.Logged(j) ==> !r.reqs[j].replicated
    ensures Trails(r, i, r.At(i).log, HandleAll(r.start, r.n, r.reqs).mem)
  {
    FailedKeepMemory(r, i, |r.reqs|);
    assert r.reqs[..|r.reqs|] == r.reqs;
    RunTracks(r, i);
    if !r.Broken(i) {
      forall k ensures Agree(r.Rebuilt(i).mem, r.At(i).mem, k) <==> !r.Lagging(i, k) {
        assert TracksClient(r, i, k);
      }
    }
  }

  // ---- A promoted node whose second replay stopped ----

  /** Without failed replications, owed are exactly the clients registered in only one of log and memory at the start. */
  lemma OwedFromStart(r: Run, m: nat, k: string)
    requires m <= |r.reqs| && forall i :: 0 <= i < |r.reqs| ==> r.reqs[i].replicated
    ensures r.Owed(m, k) <==> (k in r.Rebuilt0()) != (k in r.start.mem)
  {
  }

  /**
   * The life of a node whose second replay stopped at the first mention of a surviving client, with a local log
   * or a peer that always acknowledges: its log goes on replaying exactly as long as none of the clients that
   * the second replay brought back has a request logged.
   */
  lemma {:induction false} RevivedClientsBreakLogIff(n: nat, log: seq<Entry>, m: Mem, j: nat, reqs: seq<Served>)
    requires Rebuilds(log, n, m) && FirstMention(m, log, j)
    requires forall i :: 0 <= i < |reqs| ==> reqs[i].replicated
    ensures var revived := Replay(map[], n, log[..j]).mem;
            var r := Run(Core(Replay(m, n, log).mem, log), n, reqs);
            Replay(map[], n, HandleAll(r.start, n, reqs).log).status ==
              if exists i: nat :: i < |reqs| && r.Logged(i) && r.Key(i) in revived then Stopped else Completed
  {
    var revived := Replay(map[], n, log[..j]).mem;
    var r := Run(Core(Replay(m, n, log).mem, log), n, reqs);
    SecondReplayResidue(n, log, m, j);
    LogReplaysIff(r);
    forall i: nat | i < |reqs| ensures r.Owed(i, r.Key(i)) <==> r.Key(i) in revived {
      OwedFromStart(r, i, r.Key(i));
    }
  }
}
