/**
 * Serving requests one after the other, over a link with any fates, is one of the runs of the step system, so
 * what holds of every run holds of the server's objects.
 */
module Refinement {
  import opened Entries
  import opened WalFormat
  import opened InboundSpec
  import opened SyncSpec
  import opened RegistrySpec
  import opened ControlSpec
  import opened Divergence
  import opened ReplicationRuns
  import opened ReplicationSafety
  import opened Failover

  /** The steps by which a request talks to the standby. */
  predicate Talk(step: Step) {
    step.Send? || step.ReadLog? || step.Scan? || step.Receive? || step.Timeout? || step.Deliver?
  }

  ghost predicate Talking(steps: seq<Step>) {
    forall i :: 0 <= i < |steps| ==> Talk(steps[i])
  }

  /** Thread `t` of a run that has reached `s` stands at `pc`, with the leader's log and the thread's entry unchanged. */
  ghost predicate At(s0: State, steps: seq<Step>, s: State, t: nat, pc: Pc, entry: Option<Entry>, log: seq<Entry>) {
    && Legal(s0, steps) && Final(s0, steps) == s && Talking(steps)
    && t < |s.threads| && s.threads[t] == Thread(entry, pc) && s.primary == log
  }

  /** Where a thread that sent from `pc` goes when the call is acknowledged, and when it is not. */
  function OnAck(pc: Pc): Pc {
    if pc.Scanning? then Scanning(pc.last, pc.entries, pc.next + 1) else Finished(true)
  }

  function OnFailure(pc: Pc): Pc {
    if pc.Applied? then NeedSync else Failing
  }

  /** Where a thread waits for call `c`, sent from `pc`. */
  function Waiting(pc: Pc, c: nat): Pc {
    if pc.Applied? then AwaitFirst(c)
    else if pc.Scanning? then AwaitSync(pc.last, pc.entries, pc.next, c)
    else AwaitRetry(c)
  }

  /** The record a thread sends from `pc`. */
  predicate SendsRecord(pc: Pc, entry: Option<Entry>, e: Entry) {
    && Sends(pc) && !pc.NeedSync?
    && (if pc.Scanning? then pc.entries[pc.next] == e else entry == Some(e))
  }

  lemma SendRun(s0: State, steps: seq<Step>, s: State, t: nat, pc: Pc, entry: Option<Entry>, log: seq<Entry>, e: Entry)
    returns (steps': seq<Step>, s': State)
    requires At(s0, steps, s, t, pc, entry, log) && SendsRecord(pc, entry, e)
    ensures s'.backup == s.backup && s'.calls == s.calls + [ReplicateCall(e)]
    ensures At(s0, steps', s', t, Waiting(pc, |s.calls|), entry, log)
  {
    steps', s' := Then(s0, steps, s, Send(t));
  }

  /** A sent call reaches the standby, which answers it. */
  lemma DeliverRun(s0: State, steps: seq<Step>, s: State, t: nat, pc: Pc, entry: Option<Entry>, log: seq<Entry>,
                   call: nat, e: Entry, stored: bool)
    returns (steps': seq<Step>, s': State)
    requires At(s0, steps, s, t, pc, entry, log)
    requires call < |s.calls| && s.calls[call] == ReplicateCall(e)
    ensures var a := Accept(s.backup, e, stored);
            s'.backup == a.backup && (call, Replied(a.ok)) in s'.replies
    ensures At(s0, steps', s', t, pc, entry, log)
  {
    steps', s' := Then(s0, steps, s, Deliver(call, stored));
  }

  /** The waiting thread takes the answer, or gives up waiting. */
  lemma EndRun(s0: State, steps: seq<Step>, s: State, t: nat, pc: Pc, entry: Option<Entry>, log: seq<Entry>,
               call: nat, answered: bool, ok: bool)
    returns (steps': seq<Step>, s': State)
    requires At(s0, steps, s, t, Waiting(pc, call), entry, log)
    requires answered ==> (call, Replied(ok)) in s.replies
    ensures s'.backup == s.backup
    ensures At(s0, steps', s', t, if answered && ok then OnAck(pc) else OnFailure(pc), entry, log)
  {
    steps', s' := Then(s0, steps, s, if answered then Receive(t, Replied(ok)) else Timeout(t));
  }

  /** A sent call meets its fate: it reaches the standby unless the request is lost, and is answered unless the reply is. */
  lemma FateRun(s0: State, steps: seq<Step>, s: State, t: nat, pc: Pc, entry: Option<Entry>, log: seq<Entry>,
                call: nat, e: Entry, stored: bool, f: Fate)
    returns (steps': seq<Step>, s': State)
    requires At(s0, steps, s, t, Waiting(pc, call), entry, log)
    requires call < |s.calls| && s.calls[call] == ReplicateCall(e)
    ensures var a := Accept(s.backup, e, stored);
            && s'.backup == (if f.RequestLost? then s.backup else a.backup)
            && At(s0, steps', s', t, if f.Delivered? && a.ok then OnAck(pc) else OnFailure(pc), entry, log)
  {
    steps', s' := steps, s;
    if !f.RequestLost? {
      steps', s' := DeliverRun(s0, steps, s, t, Waiting(pc, call), entry, log, call, e, stored);
    }
    steps', s' := EndRun(s0, steps', s', t, pc, entry, log, call, f.Delivered?, Accept(s.backup, e, stored).ok);
  }

  /** One call of the sequential model is a stretch of a run. */
  lemma CallRun(c: Codec, s0: State, steps: seq<Step>, s: State, t: nat, pc: Pc, entry: Option<Entry>, log: seq<Entry>,
                e: Entry, fates: seq<Fate>)
    returns (steps': seq<Step>, s': State)
    requires At(s0, steps, s, t, pc, entry, log) && SendsRecord(pc, entry, e)
    ensures var r := SyncSpec.Call(c, Link(s.backup, fates), e);
            && s'.backup == r.link.backup
            && At(s0, steps', s', t, if r.ok then OnAck(pc) else OnFailure(pc), entry, log)
  {
    steps', s' := SendRun(s0, steps, s, t, pc, entry, log, e);
    steps', s' := FateRun(s0, steps', s', t, pc, entry, log, |s.calls|, e, Writable(c, e), Link(s.backup, fates).Next());
  }

  lemma PingRun(s0: State, steps: seq<Step>, s: State, t: nat, entry: Option<Entry>, log: seq<Entry>, fates: seq<Fate>)
    returns (steps': seq<Step>, s': State)
    requires At(s0, steps, s, t, NeedSync, entry, log)
    ensures s'.backup == s.backup
    ensures At(s0, steps', s', t,
               if Link(s.backup, fates).Next().Delivered? then Pinged(s.backup.last) else Failing, entry, log)
  {
    var call := |s.calls|;
    steps', s' := Then(s0, steps, s, Send(t));
    assert s'.calls[call] == PingCall;
    if Link(s.backup, fates).Next().Delivered? {
      steps', s' := Then(s0, steps', s', Deliver(call, true));
      assert (call, Pong(s.backup.last)) in s'.replies;
      steps', s' := Then(s0, steps', s', Receive(t, Pong(s.backup.last)));
    } else {
      steps', s' := Then(s0, steps', s', Timeout(t));
    }
  }

  /** Where a thread goes when its sync is over. */
  function SyncEnd(entry: Option<Entry>, ok: bool): Pc {
    if !ok then Failing else if entry.Some? then Synced else Finished(true)
  }

  /** The sync loop from its `next`-th record on. */
  lemma {:induction false} ScanRun(c: Codec, s0: State, steps: seq<Step>, s: State, t: nat, entry: Option<Entry>,
                                   log: seq<Entry>, last: nat, next: nat, fates: seq<Fate>)
    returns (steps': seq<Step>, s': State)
    requires next <= |log| && At(s0, steps, s, t, Scanning(last, log, next), entry, log)
    ensures var r := SyncLoop(c, Link(s.backup, fates), last, log[next..]);
            && s'.backup == r.link.backup
            && At(s0, steps', s', t, SyncEnd(entry, r.ok), entry, log)
    decreases |log| - next
  {
    if next == |log| {
      steps', s' := Then(s0, steps, s, Scan(t));
    } else {
      assert log[next..][0] == log[next] && log[next..][1..] == log[next + 1..];
      if log[next].seqno <= last {
        steps', s' := Then(s0, steps, s, Scan(t));
        steps', s' := ScanRun(c, s0, steps', s', t, entry, log, last, next + 1, fates);
      } else {
        var r := SyncSpec.Call(c, Link(s.backup, fates), log[next]);
        steps', s' := CallRun(c, s0, steps, s, t, Scanning(last, log, next), entry, log, log[next], fates);
        if r.ok {
          steps', s' := ScanRun(c, s0, steps', s', t, entry, log, last, next + 1, r.link.fates);
        }
      }
    }
  }

  lemma SyncRun(c: Codec, s0: State, steps: seq<Step>, s: State, t: nat, entry: Option<Entry>, log: seq<Entry>, fates: seq<Fate>)
    returns (steps': seq<Step>, s': State)
    requires At(s0, steps, s, t, NeedSync, entry, log)
    ensures var r := Sync(c, Link(s.backup, fates), log);
            && s'.backup == r.link.backup
            && At(s0, steps', s', t, SyncEnd(entry, r.ok), entry, log)
  {
    var l := Link(s.backup, fates);
    steps', s' := PingRun(s0, steps, s, t, entry, log, fates);
    if l.Next().Delivered? {
      steps', s' := Then(s0, steps', s', ReadLog(t));
      assert log[0..] == log;
      steps', s' := ScanRun(c, s0, steps', s', t, entry, log, l.backup.last, 0, l.Later());
    }
  }

  /**
   * For every state a request can be in after applying, and every sequence of fates, the step system has
   * a run that ends with the standby as `Retry` leaves it and the request acknowledged exactly when `Retry`
   * reports success, and about to roll back otherwise.
   */
  lemma RetryIsARun(c: Codec, s: State, t: nat, e: Entry, fates: seq<Fate>) returns (steps: seq<Step>, s': State)
    requires t < |s.threads| && s.threads[t] == Thread(Some(e), Applied)
    ensures var r := Retry(c, Link(s.backup, fates), s.primary, e);
            && s'.backup == r.link.backup
            && At(s, steps, s', t, if r.ok then Finished(true) else Failing, Some(e), s.primary)
  {
    var log := s.primary;
    var first := SyncSpec.Call(c, Link(s.backup, fates), e);
    steps, s' := CallRun(c, s, [], s, t, Applied, Some(e), log, e, fates);
    if !first.ok {
      var sync := Sync(c, first.link, log);
      steps, s' := SyncRun(c, s, steps, s', t, Some(e), log, first.link.fates);
      if sync.ok {
        steps, s' := CallRun(c, s, steps, s', t, Synced, Some(e), log, e, sync.link.fates);
      }
    }
  }

  // ---- Whole requests ----

  /** A one-at-a-time run from `s` to `s'`, and if nothing failed in it, one that failover equality covers. */
  ghost predicate SoloRun(n: nat, s: State, steps: seq<Step>, s': State, failed: bool) {
    && Legal(s, steps) && Final(s, steps) == s' && OneAtATime(s, steps)
    && (!failed ==> FaithfulRun(s, n, steps))
  }

  lemma {:induction false} SoloConcat(n: nat, s: State, a: seq<Step>, s1: State, b: seq<Step>, s2: State, f: bool, g: bool)
    requires SoloRun(n, s, a, s1, f) && SoloRun(n, s1, b, s2, g)
    ensures SoloRun(n, s, a + b, s2, f || g)
    decreases a
  {
    if a == [] {
      assert a + b == b;
    } else {
      assert (a + b)[1..] == a[1..] + b;
      SoloConcat(n, Do(s, a[0]), a[1..], s1, b, s2, f, g);
    }
  }

  lemma SoloStep(n: nat, s: State, step: Step)
    requires Enabled(s, step) && (step.Begin? || step.BeginSync? ==> AllFinished(s))
    ensures SoloRun(n, s, [step], Do(s, step), !Faithful(s, n, step))
  {
    assert [step][1..] == [];
    assert Legal(Do(s, step), []) && OneAtATime(Do(s, step), []) && FaithfulRun(Do(s, step), n, []);
  }

  /** Talking to the standby starts nothing, changes no memory and leaves other requests alone. */
  lemma {:induction false} TalkIsSolo(n: nat, s: State, steps: seq<Step>, t: nat)
    requires Legal(s, steps) && Talking(steps) && t < |s.threads|
    requires forall i :: 0 <= i < |s.threads| && i != t ==> s.threads[i].pc.Finished?
    ensures var s' := Final(s, steps);
            && SoloRun(n, s, steps, s', false)
            && s'.memory == s.memory && s'.promoted == s.promoted && |s'.threads| == |s.threads|
            && forall i :: 0 <= i < |s.threads| && i != t ==> s'.threads[i] == s.threads[i]
    decreases steps
  {
    if steps != [] {
      assert Talk(steps[0]);
      TalkIsSolo(n, Do(s, steps[0]), steps[1..], t);
    }
  }

  /** The step system stands where the leader and its standby do, with nothing under way. */
  ghost predicate Stands(s: State, p: Pair) {
    s.primary == p.core.log && s.memory == p.core.mem && s.backup == p.link.backup && AllFinished(s)
  }

  /** A request past its guards appends its record and changes memory. */
  lemma AppliedRun(p: Pair, n: nat, req: Request, op: Op, s: State) returns (steps: seq<Step>, s': State)
    requires Stands(s, p) && Guarded(p.core.mem, n, req) == Some(op)
    ensures SoloRun(n, s, steps, s', !Done(s))
    ensures var e := NextEntry(p.core, op);
            && s'.threads == s.threads + [Thread(Some(e), Applied)] && s'.primary == p.core.log + [e]
            && Apply(p.core.mem, n, op) == Ok(s'.memory)
            && s'.backup == s.backup && s'.promoted == s.promoted
  {
    GuardsMakeApplySucceed(p.core.mem, n, req);
    var s1 := Do(s, Begin(op));
    SoloStep(n, s, Begin(op));
    var apply := ApplyMemory(|s.threads|, true, Apply(s.memory, n, op).mem);
    s' := Do(s1, apply);
    SoloStep(n, s1, apply);
    SoloConcat(n, s, [Begin(op)], s1, [apply], s', !Done(s), false);
    steps := [Begin(op)] + [apply];
  }

  /** Asking the standby, and undoing the change without an acknowledgement. */
  lemma ReplicatedRun(c: Codec, n: nat, s: State, t: nat, e: Entry, fates: seq<Fate>, undone: Mem)
    returns (steps: seq<Step>, s': State)
    requires t == |s.threads| - 1 && s.threads[t] == Thread(Some(e), Applied)
    requires forall i :: 0 <= i < t ==> s.threads[i].pc.Finished?
    ensures var r := Retry(c, Link(s.backup, fates), s.primary, e);
            && SoloRun(n, s, steps, s', !r.ok)
            && s'.threads == s.threads[..t] + [Thread(Some(e), Finished(r.ok))] && s'.primary == s.primary
            && s'.memory == (if r.ok then s.memory else undone)
            && s'.backup == r.link.backup && s'.promoted == s.promoted
  {
    var talk, s1 := RetryIsARun(c, s, t, e, fates);
    TalkIsSolo(n, s, talk, t);
    steps, s' := talk, s1;
    if s1.threads[t].pc == Failing {
      var undo := Rollback(t, undone);
      SoloStep(n, s1, undo);
      s' := Do(s1, undo);
      SoloConcat(n, s, talk, s1, [undo], s', false, true);
      steps := talk + [undo];
    }
  }

  /** A request past its guards whose record is written is a one-at-a-time run. */
  lemma RelayIsARun(p: Pair, n: nat, req: Request, s: State) returns (steps: seq<Step>, s': State)
    requires Stands(s, p) && RecordOf(p, n, req).Some?
    ensures var r := Turn(p, n, req);
            && SoloRun(n, s, steps, s', !Done(s) || !r.served.replicated)
            && Stands(s', r.pair) && s'.promoted == s.promoted
            && s'.threads == s.threads + [Thread(RecordOf(p, n, req), Finished(r.served.replicated))]
  {
    var op := Guarded(p.core.mem, n, req).value;
    var e, t := NextEntry(p.core, op), |s.threads|;
    var begun, s1 := AppliedRun(p, n, req, op, s);
    var rest, s2 := ReplicatedRun(p.peer, n, s1, t, e, p.link.fates, s.memory);
    SoloConcat(n, s, begun, s1, rest, s2, !Done(s), !Turn(p, n, req).served.replicated);
    steps, s' := begun + rest, s2;
  }

  // ---- A leader's start ----

  /** The threads a crash leaves: what was under way has not succeeded. */
  ghost predicate CutOff(s: State, s': State) {
    && |s.threads| <= |s'.threads|
    && forall i :: 0 <= i < |s.threads| ==>
         && s'.threads[i].entry == s.threads[i].entry
         && s'.threads[i].pc == if s.threads[i].pc.Finished? then s.threads[i].pc else Finished(false)
  }

  lemma CrashRun(n: nat, s: State, m: Mem) returns (steps: seq<Step>, s': State)
    ensures SoloRun(n, s, steps, s', !Rebuilds(s.primary, n, m))
    ensures CutOff(s, s') && |s'.threads| == |s.threads| + 1 && s'.threads[|s.threads|] == Thread(None, NeedSync)
    ensures s'.primary == s.primary && s'.memory == m && s'.backup == s.backup
  {
    var s1 := Do(s, RestartLeader(m));
    SoloStep(n, s, RestartLeader(m));
    assert AllFinished(s1);
    s' := Do(s1, BeginSync);
    SoloStep(n, s1, BeginSync);
    SoloConcat(n, s, [RestartLeader(m)], s1, [BeginSync], s', !Rebuilds(s.primary, n, m), false);
    steps := [RestartLeader(m)] + [BeginSync];
  }

  /**
   * A leader that crashes at any moment and starts again, over a link with any fates, is a run of the step
   * system: what was under way has not succeeded, memory is what the restart put there, the standby is as the sync
   * leaves it, and the start ends well exactly when the sync does.
   */
  lemma StartIsARun(c: Codec, n: nat, s: State, m: Mem, fates: seq<Fate>) returns (steps: seq<Step>, s': State)
    ensures var r := Sync(c, Link(s.backup, fates), s.primary);
            && SoloRun(n, s, steps, s', !Rebuilds(s.primary, n, m))
            && s'.primary == s.primary && s'.memory == m && s'.backup == r.link.backup
            && CutOff(s, s') && |s'.threads| == |s.threads| + 1
            && s'.threads[|s.threads|] == Thread(None, if r.ok then Finished(true) else Failing)
  {
    var t := |s.threads|;
    var crash, s1 := CrashRun(n, s, m);
    var talk;
    talk, s' := SyncRun(c, s1, [], s1, t, None, s.primary, fates);
    TalkIsSolo(n, s1, talk, t);
    SoloConcat(n, s, crash, s1, talk, s', !Rebuilds(s.primary, n, m), false);
    steps := crash + talk;
  }

  // ---- Any sequence of requests ----

  /** Some replication failed. */
  ghost predicate Fails(p: Pair, n: nat, reqs: seq<Request>) {
    exists i :: 0 <= i < |reqs| && !ServedAt(p, n, reqs, i).replicated
  }

  /** The thread request `i` leaves behind, if its record was written. */
  function ThreadAt(p: Pair, n: nat, reqs: seq<Request>, i: nat): Thread
    requires i < |reqs|
  {
    Thread(RecordAt(p, n, reqs, i), Finished(ServedAt(p, n, reqs, i).replicated))
  }

  /** Every written record has its thread, with the answer its client was given. */
  ghost predicate Traced(p: Pair, n: nat, reqs: seq<Request>, s: State) {
    forall i :: 0 <= i < |reqs| && ThreadAt(p, n, reqs, i).entry.Some? ==> ThreadAt(p, n, reqs, i) in s.threads
  }

  lemma EarlierSame(p: Pair, n: nat, reqs: seq<Request>, i: nat)
    requires i < |reqs| - 1
    ensures var init := reqs[..|reqs| - 1];
            ThreadAt(p, n, init, i) == ThreadAt(p, n, reqs, i) && ServedAt(p, n, init, i) == ServedAt(p, n, reqs, i)
  {
    assert reqs[..|reqs| - 1][..i] == reqs[..i];
  }

  /** What holds of the requests but the last goes on holding with the last one's thread added. */
  lemma TracedSnoc(p: Pair, n: nat, reqs: seq<Request>, s: State, s': State)
    requires reqs != [] && Traced(p, n, reqs[..|reqs| - 1], s)
    requires s.threads <= s'.threads
    requires ThreadAt(p, n, reqs, |reqs| - 1).entry.Some? ==> ThreadAt(p, n, reqs, |reqs| - 1) in s'.threads
    ensures Traced(p, n, reqs, s')
  {
    forall i | 0 <= i < |reqs| && ThreadAt(p, n, reqs, i).entry.Some? ensures ThreadAt(p, n, reqs, i) in s'.threads {
      if i < |reqs| - 1 {
        EarlierSame(p, n, reqs, i);
        assert ThreadAt(p, n, reqs, i) in s.threads;
      }
    }
  }

  lemma FailsSnoc(p: Pair, n: nat, reqs: seq<Request>)
    requires reqs != [] && Fails(p, n, reqs[..|reqs| - 1])
    ensures Fails(p, n, reqs)
  {
    var init := reqs[..|reqs| - 1];
    var i :| 0 <= i < |init| && !ServedAt(p, n, init, i).replicated;
    EarlierSame(p, n, reqs, i);
  }

  /**
   * Serving any requests over any link is a legal one-at-a-time run of the step system that ends with the
   * leader's log, its registry and the standby as the server leaves them.
   */
  lemma {:induction false} ServingIsARun(p: Pair, n: nat, reqs: seq<Request>, s0: State)
    returns (steps: seq<Step>, s: State)
    requires Stands(s0, p)
    ensures SoloRun(n, s0, steps, s, !Done(s0) || Fails(p, n, reqs))
    ensures Done(s0) && !Fails(p, n, reqs) ==> Done(s)
    ensures Stands(s, TurnAll(p, n, reqs)) && Traced(p, n, reqs, s) && s.promoted == s0.promoted
    decreases |reqs|
  {
    steps, s := [], s0;
    if reqs != [] {
      var last := |reqs| - 1;
      var init := reqs[..last];
      steps, s := ServingIsARun(p, n, init, s0);
      var p1, s1 := TurnAll(p, n, init), s;
      if RecordOf(p1, n, reqs[last]).Some? {
        var more, s2 := RelayIsARun(p1, n, reqs[last], s1);
        var failed := !Done(s1) || !ServedAt(p, n, reqs, last).replicated;
        SoloConcat(n, s0, steps, s1, more, s2, !Done(s0) || Fails(p, n, init), failed);
        steps, s := steps + more, s2;
        assert ThreadAt(p, n, reqs, last) == s2.threads[|s1.threads|];
      }
      TracedSnoc(p, n, reqs, s1, s);
      if Fails(p, n, init) {
        FailsSnoc(p, n, reqs);
      }
    }
  }

  /** The leader's log is numbered from one and the standby holds a prefix of it, perhaps none of it. */
  ghost predicate Behind(p: Pair) {
    FromOne(p.core.log) && p.link.backup.log <= p.core.log && p.link.backup.last == LastSeq(p.link.backup.log)
  }

  /** The step system before the first request. */
  ghost function Before(p: Pair): State {
    State(p.core.log, p.core.mem, [], [], {}, p.link.backup, None, [])
  }

  lemma PromoteAfter(n: nat, s0: State, steps: seq<Step>, s: State) returns (steps': seq<Step>, s': State)
    requires SoloRun(n, s0, steps, s, true) && s.promoted.None?
    ensures SoloRun(n, s0, steps', s', true)
    ensures s'.promoted == Some(s.backup.log) && s'.threads == s.threads
  {
    var s1 := Do(s, StopAccepting);
    SoloStep(n, s, StopAccepting);
    SoloConcat(n, s0, steps, s, [StopAccepting], s1, true, true);
    SoloStep(n, s1, Promote);
    s' := Do(s1, Promote);
    SoloConcat(n, s0, steps + [StopAccepting], s1, [Promote], s', true, true);
    steps' := steps + [StopAccepting] + [Promote];
  }

  lemma SoloIsDurable(s0: State, steps: seq<Step>, s: State, t: nat)
    requires StartsAsPrefix(s0) || StartsEmpty(s0)
    requires Legal(s0, steps) && OneAtATime(s0, steps) && Final(s0, steps) == s && Acknowledged(s, t)
    ensures InPlace(s.promoted.value, s.threads[t].entry.value)
  {
    if StartsEmpty(s0) {
      FailoverDurabilityFromEmpty(s0, steps, t);
    } else {
      FailoverDurability(s0, steps, t);
      PrefixInvariant(s0, steps);
      StartHasInv(s0);
      RunKeepsInv(s0, steps);
      FirstRecordDecides(s.backup.log, s.primary);
    }
  }

  /**
   * Durability for the server itself: whatever the link does, a record whose client was told that it succeeded
   * is, at its own number, in the log a promotion of the standby reads.
   */
  lemma ServedIsDurable(p: Pair, n: nat, reqs: seq<Request>, i: nat)
    requires Behind(p) && i < |reqs|
    requires ThreadAt(p, n, reqs, i).entry.Some? && ServedAt(p, n, reqs, i).replicated
    ensures InPlace(TurnAll(p, n, reqs).link.backup.log, ThreadAt(p, n, reqs, i).entry.value)
  {
    var s0, th := Before(p), ThreadAt(p, n, reqs, i);
    var steps, s := ServingIsARun(p, n, reqs, s0);
    steps, s := PromoteAfter(n, s0, steps, s);
    var t :| 0 <= t < |s.threads| && s.threads[t] == th;
    SoloIsDurable(s0, steps, s, t);
  }

  /** A standby that starts with a non-empty prefix of the leader's log has one after any requests over any link. */
  lemma ServedStaysPrefix(p: Pair, n: nat, reqs: seq<Request>)
    requires Behind(p) && p.link.backup.log != []
    ensures TurnAll(p, n, reqs).link.backup.log <= TurnAll(p, n, reqs).core.log
  {
    var steps, s := ServingIsARun(p, n, reqs, Before(p));
    PrefixInvariant(Before(p), steps);
  }

  /** The standby loses nothing. */
  lemma ServedKeeps(p: Pair, n: nat, reqs: seq<Request>)
    requires Behind(p)
    ensures p.link.backup.log <= TurnAll(p, n, reqs).link.backup.log
  {
    var steps, s := ServingIsARun(p, n, reqs, Before(p));
    StartHasInv(Before(p));
    RunKeepsInv(Before(p), steps);
  }

  /** Equality for the server itself: from equal logs, if no replication fails, the standby's log rebuilds the leader's registry. */
  lemma ServedIsRebuilt(p: Pair, n: nat, reqs: seq<Request>)
    requires Behind(p) && p.link.backup.log == p.core.log && Replayable(p.core, n)
    requires !Fails(p, n, reqs)
    ensures Rebuilds(TurnAll(p, n, reqs).link.backup.log, n, TurnAll(p, n, reqs).core.mem)
  {
    var steps, s := ServingIsARun(p, n, reqs, Before(p));
    FailoverEquality(Before(p), n, steps);
  }

  lemma TurnIsHandle(p: Pair, n: nat, req: Request)
    requires FromOne(p.core.log)
    ensures var t := Turn(p, n, req);
            && t.pair.core == Handle(p.core, n, req, t.served.persisted, t.served.replicated)
            && t.served.req == req && t.pair.own == p.own && FromOne(t.pair.core.log)
  {
    ConsecutiveMax(p.core.log);
  }

  /** The pair's node is what its handlers made of the answers so far, and its log is numbered from one. */
  lemma {:induction false} CoreAt(p: Pair, n: nat, reqs: seq<Request>, served: seq<Served>, j: nat)
    requires FromOne(p.core.log) && |served| == |reqs| && j <= |reqs|
    requires forall i :: 0 <= i < |reqs| ==> served[i] == ServedAt(p, n, reqs, i)
    ensures Run(p.core, n, served).At(j) == TurnAll(p, n, reqs[..j]).core
    ensures TurnAll(p, n, reqs[..j]).own == p.own
    ensures FromOne(TurnAll(p, n, reqs[..j]).core.log)
  {
    if j > 0 {
      CoreAt(p, n, reqs, served, j - 1);
      NextIs(Run(p.core, n, served), j - 1);
      assert reqs[..j][..j - 1] == reqs[..j - 1];
      TurnIsHandle(TurnAll(p, n, reqs[..j - 1]), n, reqs[j - 1]);
    }
  }

  /** A record logged when the leader's log was already as long as the standby's was not acknowledged. */
  lemma BeyondStandbyFailed(p: Pair, n: nat, reqs: seq<Request>, served: seq<Served>, j: nat)
    requires Behind(p) && p.link.backup.log != [] && |served| == |reqs| && j < |reqs|
    requires forall i :: 0 <= i < |reqs| ==> served[i] == ServedAt(p, n, reqs, i)
    requires var r := Run(p.core, n, served);
             r.Logged(j) && |TurnAll(p, n, reqs).link.backup.log| <= |r.At(j).log|
    ensures !served[j].replicated
  {
    CoreAt(p, n, reqs, served, j);
    CoreAt(p, n, reqs, served, |reqs|);
    assert reqs[..|reqs|] == reqs;
    ServedStaysPrefix(p, n, reqs);
    ConsecutiveMax(TurnAll(p, n, reqs[..j]).core.log);
    if served[j].replicated {
      ServedIsDurable(p, n, reqs, j);
    }
  }

  /**
   * What the standby's log rebuilds after any requests, failed replications included, once it has caught up with
   * the leader's starting log: it holds the records of the requests up to some point, and unless they broke the run, it
   * rebuilds the leader's registry except for the clients that lag at that point.
   */
  lemma RebuiltAfterFailures(p: Pair, n: nat, reqs: seq<Request>, served: seq<Served>) returns (i: nat)
    requires Behind(p) && Sound(p, n) && |served| == |reqs|
    requires |p.core.log| <= |TurnAll(p, n, reqs).link.backup.log|
    requires forall i :: 0 <= i < |reqs| ==> served[i] == ServedAt(p, n, reqs, i)
    ensures var p' := TurnAll(p, n, reqs);
            Trails(Run(p.core, n, served), i, p'.link.backup.log, p'.core.mem)
  {
    var r, p' := Run(p.core, n, served), TurnAll(p, n, reqs);
    var log := p'.link.backup.log;
    assert reqs[..|reqs|] == reqs && served[..|served|] == served;
    CoreAt(p, n, reqs, served, |reqs|);
    ServedStaysPrefix(p, n, reqs);
    i := LengthReached(r, |reqs|, |log|);
    LogGrows(r, i, |reqs|);
    forall j: nat | i <= j < |reqs| && r.Logged(j) ensures !served[j].replicated {
      LogGrows(r, i, j);
      BeyondStandbyFailed(p, n, reqs, served, j);
    }
    TrailsWhenLaterFail(r, i);
  }

  /** Every record whose client was told that it succeeded is in `log`, at its own number. */
  ghost predicate AllDurable(p: Pair, n: nat, reqs: seq<Request>, served: seq<Served>, log: seq<Entry>)
    requires |served| == |reqs|
  {
    forall i :: 0 <= i < |reqs| && ThreadAt(p, n, reqs, i).entry.Some? && served[i].replicated ==>
      InPlace(log, ThreadAt(p, n, reqs, i).entry.value)
  }

  /** The leader's log rebuilt its registry at the start, and the standby held a non-empty prefix of it. */
  ghost predicate Sound(p: Pair, n: nat) {
    p.link.backup.log != [] && Replayable(p.core, n)
  }

  /** The logs were equal at the start, and no replication has failed. */
  ghost predicate Flawless(p: Pair, n: nat, served: seq<Served>) {
    && p.link.backup.log == p.core.log && Replayable(p.core, n)
    && forall i :: 0 <= i < |served| ==> served[i].replicated
  }

  /**
   * What a promotion finds after the leader has served `reqs` and answered them as `served` says: every
   * acknowledged record; a log that replays exactly when no record in it broke the leader's run; if the logs were
   * equal at the start, the leader's registry except for lagging clients; and without failed replications, all of it.
   */
  lemma AfterServing(p: Pair, n: nat, reqs: seq<Request>, served: seq<Served>, p': Pair)
    requires Behind(p) && Follows(p, n, reqs, served, p') && |served| == |reqs|
    requires p'.core == HandleAll(p.core, n, served)
    ensures AllDurable(p, n, reqs, served, p'.link.backup.log)
    ensures Sound(p, n) ==>
              var log := p'.link.backup.log;
              Replay(map[], n, log).status ==
                if UnbrokenWithin(Run(p.core, n, served), |log|) then Completed else Stopped
    ensures Sound(p, n) && p.link.backup.log == p.core.log ==>
              exists i: nat :: Trails(Run(p.core, n, served), i, p'.link.backup.log, p'.core.mem)
    ensures Flawless(p, n, served) ==> Rebuilds(p'.link.backup.log, n, p'.core.mem)
  {
    assert reqs[..|served|] == reqs;
    forall i | 0 <= i < |reqs| && ThreadAt(p, n, reqs, i).entry.Some? && served[i].replicated
      ensures InPlace(p'.link.backup.log, ThreadAt(p, n, reqs, i).entry.value)
    {
      ServedIsDurable(p, n, reqs, i);
    }
    if Sound(p, n) {
      ServedStaysPrefix(p, n, reqs);
      PrefixReplaysIff(Run(p.core, n, served), p'.link.backup.log);
      if p.link.backup.log == p.core.log {
        ServedKeeps(p, n, reqs);
        var i := RebuiltAfterFailures(p, n, reqs, served);
      }
    }
    if Flawless(p, n, served) {
      ServedIsRebuilt(p, n, reqs);
    }
  }
}
