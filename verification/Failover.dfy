/** Failover equality: what the promoted node rebuilds is the registry the leader had. */
module Failover {
  import opened Entries
  import opened RegistrySpec
  import opened ControlSpec
  import opened ReplicationRuns
  import opened ReplicationSafety

  /** The last thing the leader did, if anything, ended well. */
  ghost predicate Done(s: State) {
    s.threads == [] || s.threads[|s.threads| - 1].pc == Finished(true)
  }

  /**
   * Requests that pass the handlers' guards and change memory as the registry functions do, on a leader none of
   * whose replications fails. It may crash at any moment: it then replays its log into memory, and after a crash
   * that cut something off it serves again only when its start-up sync has succeeded.
   */
  ghost predicate Faithful(s: State, n: nat, step: Step)
    requires Enabled(s, step)
  {
    match step
    case Begin(op) => Done(s) && exists req :: Guarded(s.memory, n, req) == Some(op)
    case ApplyMemory(t, ok, m) =>
      s.threads[t].entry.Some? &&
      (match Apply(s.memory, n, s.threads[t].entry.value.op)
       case Ok(m') => ok && m == m'
       case _ => !ok && m == s.memory)
    case Rollback(_, _) => false
    case RestartLeader(m) => Rebuilds(s.primary, n, m)
    case _ => true
  }

  ghost predicate FaithfulRun(s: State, n: nat, steps: seq<Step>)
    requires Legal(s, steps)
    decreases steps
  {
    steps == [] || (Faithful(s, n, steps[0]) && FaithfulRun(Do(s, steps[0]), n, steps[1..]))
  }

  /** Leader and standby start with the same log, which rebuilds what the leader has in memory. */
  ghost predicate Synced(s: State, n: nat) {
    Fresh(s) && s.backup.log == s.primary && Rebuilds(s.primary, n, s.memory)
  }

  /** No client request is under way. */
  ghost predicate Idle(s: State) {
    s.threads == [] || s.threads[|s.threads| - 1].pc.Finished? || s.threads[|s.threads| - 1].entry.None?
  }

  ghost predicate Earlier(s: State) {
    forall t :: 0 <= t < |s.threads| - 1 ==> s.threads[t].pc.Finished?
  }

  /** The request under way owns the last record; memory is what the log rebuilds without or with it. */
  ghost predicate InFlight(s: State, n: nat, before: Mem)
    requires !Idle(s)
  {
    var th := s.threads[|s.threads| - 1];
    var k := |s.primary| - 1;
    && k >= 0 && th.entry.value == s.primary[k]
    && |s.backup.log| >= k
    && Rebuilds(s.primary[..k], n, before)
    && Apply(before, n, s.primary[k].op).Ok?
    && s.memory == if th.pc.Appended? then before else Apply(before, n, s.primary[k].op).mem
  }

  /** No client request is under way, and every crash that cut something off has been followed by a sync. */
  ghost predicate Level(s: State) {
    Idle(s) && (Done(s) || forall t :: 0 <= t < |s.threads| ==> s.threads[t].pc != Finished(false))
  }

  /** A sync under way goes through the leader's present log. */
  ghost predicate LastScan(s: State) {
    s.threads != [] ==>
      var pc := s.threads[|s.threads| - 1].pc;
      pc.Scanning? || pc.AwaitSync? ==> pc.entries == s.primary
  }

  ghost predicate EqualityInv(s: State, n: nat) {
    && Earlier(s) && LastScan(s)
    && s.backup.log <= s.primary
    && (Idle(s) ==> |s.primary| <= |s.backup.log| + 1 && Rebuilds(s.primary, n, s.memory))
    && (Level(s) ==> s.backup.log == s.primary)
    && (!Idle(s) ==> exists before :: InFlight(s, n, before))
  }

  /** A standby that is at most one record behind keeps a prefix of the leader's log. */
  lemma StaysPrefix(s: State, s': State)
    requires LogInv(s) && LogInv(s') && Grows(s, s')
    requires s.backup.log <= s.primary
    requires s.backup.log == [] ==> |s'.primary| <= 1
    ensures s'.backup.log <= s'.primary
  {
    if s.backup.log != [] {
      FirstRecordDecides(s.backup.log, s.primary);
      FirstRecordDecides(s'.backup.log, s'.primary);
    }
  }

  /** A prefix that reaches the last record is the whole log. */
  lemma CaughtUp(part: seq<Entry>, whole: seq<Entry>)
    requires FromOne(whole) && part <= whole && whole != []
    requires whole[|whole| - 1].seqno <= LastSeq(part)
    ensures part == whole
  {
    assert part[|part| - 1] == whole[|part| - 1];
  }

  lemma BeginKeepsEquality(s: State, n: nat, op: Op)
    requires EqualityInv(s, n) && AllFinished(s) && Faithful(s, n, Begin(op))
    ensures EqualityInv(Do(s, Begin(op)), n)
  {
    var s' := Do(s, Begin(op));
    var req :| Guarded(s.memory, n, req) == Some(op);
    GuardsMakeApplySucceed(s.memory, n, req);
    assert s'.primary[..|s.primary|] == s.primary;
    assert InFlight(s', n, s.memory);
  }

  /** The request under way has changed memory as its record says. */
  lemma AppliedKeepsEquality(s: State, n: nat, s': State)
    requires EqualityInv(s, n) && !Idle(s) && s.threads[|s.threads| - 1].pc.Appended?
    requires s'.primary == s.primary && s'.backup == s.backup
    requires s'.threads == s.threads[|s.threads| - 1 := s.threads[|s.threads| - 1].(pc := Applied)]
    requires Apply(s.memory, n, s.threads[|s.threads| - 1].entry.value.op) == Ok(s'.memory)
    ensures EqualityInv(s', n)
  {
    var before :| InFlight(s, n, before);
    assert InFlight(s', n, before);
  }

  lemma ApplyKeepsEquality(s: State, n: nat, step: Step)
    requires EqualityInv(s, n) && step.ApplyMemory? && Enabled(s, step) && Faithful(s, n, step)
    ensures EqualityInv(Do(s, step), n)
  {
    assert step.t == |s.threads| - 1 && !Idle(s);
    var before :| InFlight(s, n, before);
    AppliedKeepsEquality(s, n, Do(s, step));
  }

  /** A finished request's record is the last of a log that rebuilds memory. */
  lemma FinishRebuilds(s: State, n: nat)
    requires EqualityInv(s, n) && !Idle(s) && !s.threads[|s.threads| - 1].pc.Appended?
    ensures Rebuilds(s.primary, n, s.memory)
  {
    var k := |s.primary| - 1;
    var before :| InFlight(s, n, before);
    ReplayAppend(n, s.primary[..k], before, s.primary[k]);
    assert s.primary == s.primary[..k] + [s.primary[k]];
  }

  /** Every step but Begin, ApplyMemory, a crash and those of a failure: memory and the leader's log stay as they are. */
  ghost predicate Moves(s: State, s': State) {
    && s'.primary == s.primary && s'.memory == s.memory
    && ThreadsKept(s, s')
    && (|s'.threads| > |s.threads| ==> AllFinished(s) && s'.threads[|s.threads|] == Thread(None, NeedSync))
    && forall t :: 0 <= t < |s.threads| ==>
         && (s.threads[t].pc.Appended? <==> s'.threads[t].pc.Appended?)
         && (s'.threads[t].pc == Finished(false) <==> s.threads[t].pc == Finished(false))
  }

  lemma OtherStepsMove(s: State, n: nat, step: Step)
    requires Enabled(s, step) && Faithful(s, n, step)
    requires !step.Begin? && !step.ApplyMemory? && !step.RestartLeader? && (step.BeginSync? ==> AllFinished(s))
    ensures Moves(s, Do(s, step))
  {
  }

  lemma OtherStepsScan(s: State, n: nat, step: Step)
    requires Enabled(s, step) && Earlier(s) && LastScan(s) && Moves(s, Do(s, step))
    ensures LastScan(Do(s, step))
  {
  }

  lemma MoveKeepsEquality(s: State, n: nat, s': State)
    requires EqualityInv(s, n) && Moves(s, s') && LastScan(s')
    requires s'.backup.log <= s'.primary && |s.backup.log| <= |s'.backup.log|
    requires Level(s') ==> s'.backup.log == s'.primary
    ensures EqualityInv(s', n)
  {
    AtMostOneBehind(s, n);
    if !Idle(s) {
      var before :| InFlight(s, n, before);
      if Idle(s') {
        FinishRebuilds(s, n);
      } else {
        assert InFlight(s', n, before);
      }
    }
  }

  lemma AtMostOneBehind(s: State, n: nat)
    requires EqualityInv(s, n)
    ensures |s.primary| <= |s.backup.log| + 1
    ensures !Idle(s) ==> s.primary != [] && s.threads[|s.threads| - 1].entry.value == s.primary[|s.primary| - 1]
  {
    if !Idle(s) {
      var before :| InFlight(s, n, before);
    }
  }

  /** The leader's log is numbered from one, and the standby remembers the end of the prefix it holds. */
  ghost predicate Numbered(s: State) {
    FromOne(s.primary) && s.backup.log <= s.primary && s.backup.last == LastSeq(s.backup.log)
  }

  /** When the request under way finishes, it was acknowledged, so the standby has its record. */
  lemma FinishIsCaughtUp(s: State, n: nat, s': State)
    requires EqualityInv(s, n) && Moves(s, s') && !Idle(s) && Idle(s')
    requires Numbered(s') && ThreadInv(s')
    ensures s'.backup.log == s'.primary
  {
    AtMostOneBehind(s, n);
    assert ThreadOk(s', s'.threads[|s.threads| - 1]);
    CaughtUp(s'.backup.log, s'.primary);
  }

  /** A sync at its end has gone through the leader's whole log. */
  lemma SyncIsCaughtUp(s: State, pc: Pc, s': State)
    requires ScanOk(s, pc) && pc.Scanning? && pc.next == |pc.entries| && pc.entries == s'.primary
    requires Numbered(s') && s.backup.last <= s'.backup.last
    ensures s'.backup.log == s'.primary
  {
    if s'.primary != [] {
      assert pc.entries[|pc.entries| - 1].seqno <= s.backup.last;
      CaughtUp(s'.backup.log, s'.primary);
    }
  }

  lemma SyncEndsInScan(s: State, step: Step, t: nat)
    requires Enabled(s, step) && t < |s.threads| && ThreadOk(s, s.threads[t])
    requires s.threads[t].entry.None? && s.threads[t].pc != Finished(true)
    requires Do(s, step).threads[t].pc == Finished(true)
    ensures step == Scan(t) && s.threads[t].pc.next == |s.threads[t].pc.entries|
  {
  }

  /** The ways to become level. */
  lemma BecomesLevel(s: State, n: nat, s': State)
    requires EqualityInv(s, n) && Moves(s, s') && Level(s') && !Level(s) && Idle(s)
    ensures s.threads != [] && |s'.threads| == |s.threads|
    ensures s.threads[|s.threads| - 1].entry.None? && s.threads[|s.threads| - 1].pc != Finished(true)
    ensures s'.threads[|s.threads| - 1].pc == Finished(true)
  {
    var t :| 0 <= t < |s.threads| && s.threads[t].pc == Finished(false);
    assert s'.threads[t].pc == Finished(false);
  }

  lemma SyncStepIsCaughtUp(s: State, step: Step, s': State, t: nat)
    requires Enabled(s, step) && s' == Do(s, step) && t == |s.threads| - 1 && ThreadOk(s, s.threads[t]) && LastScan(s)
    requires s.threads[t].entry.None? && s.threads[t].pc != Finished(true) && s'.threads[t].pc == Finished(true)
    requires Numbered(s') && s.backup.last <= s'.backup.last
    ensures s'.backup.log == s'.primary
  {
    SyncEndsInScan(s, step, t);
    SyncIsCaughtUp(s, s.threads[t].pc, s');
  }

  lemma LevelIsCaughtUp(s: State, n: nat, step: Step, s': State)
    requires EqualityInv(s, n) && Enabled(s, step) && s' == Do(s, step) && Moves(s, s') && Level(s')
    requires ThreadInv(s) && ThreadInv(s') && Numbered(s')
    requires s.backup.log <= s'.backup.log && s.backup.last <= s'.backup.last
    ensures s'.backup.log == s'.primary
  {
    if !Idle(s) {
      FinishIsCaughtUp(s, n, s');
    } else if !Level(s) {
      BecomesLevel(s, n, s');
      var t := |s.threads| - 1;
      assert ThreadOk(s, s.threads[t]);
      SyncStepIsCaughtUp(s, step, s', t);
    }
  }

  lemma MovingKeepsEquality(s: State, n: nat, step: Step, s': State)
    requires LogInv(s) && EqualityInv(s, n) && Enabled(s, step) && s' == Do(s, step)
    requires Moves(s, s') && LastScan(s')
    requires LogInv(s') && ThreadInv(s) && ThreadInv(s') && Grows(s, s')
    ensures EqualityInv(s', n)
  {
    AtMostOneBehind(s, n);
    StaysPrefix(s, s');
    if Level(s') {
      LevelIsCaughtUp(s, n, step, s');
    }
    MoveKeepsEquality(s, n, s');
  }

  /** After a crash the leader has what its log rebuilds, and is level only if it was level before. */
  lemma RestartKeepsEquality(s: State, n: nat, m: Mem)
    requires EqualityInv(s, n) && Rebuilds(s.primary, n, m)
    ensures EqualityInv(Do(s, RestartLeader(m)), n)
  {
    var s' := Do(s, RestartLeader(m));
    AtMostOneBehind(s, n);
    if Level(s') && s.threads != [] {
      var t := |s.threads| - 1;
      assert s'.threads[t].pc != Finished(false) && s.threads[t].pc == Finished(true);
    }
  }

  lemma StepKeepsEquality(s: State, n: nat, step: Step)
    requires Inv(s) && EqualityInv(s, n) && Enabled(s, step) && Faithful(s, n, step)
    requires step.Begin? || step.BeginSync? ==> AllFinished(s)
    requires LogInv(Do(s, step)) && ThreadInv(Do(s, step)) && Grows(s, Do(s, step))
    ensures EqualityInv(Do(s, step), n)
  {
    if step.Begin? {
      BeginKeepsEquality(s, n, step.op);
    } else if step.ApplyMemory? {
      ApplyKeepsEquality(s, n, step);
    } else if step.RestartLeader? {
      RestartKeepsEquality(s, n, step.memory);
    } else {
      OtherStepsMove(s, n, step);
      OtherStepsScan(s, n, step);
      MovingKeepsEquality(s, n, step, Do(s, step));
    }
  }

  lemma {:induction false} RunKeepsEquality(s: State, n: nat, steps: seq<Step>)
    requires Inv(s) && EqualityInv(s, n) && Legal(s, steps) && OneAtATime(s, steps) && FaithfulRun(s, n, steps)
    ensures Inv(Final(s, steps)) && EqualityInv(Final(s, steps), n)
    decreases steps
  {
    if steps != [] {
      StepKeepsInv(s, steps[0]);
      StepKeepsEquality(s, n, steps[0]);
      RunKeepsEquality(Do(s, steps[0]), n, steps[1..]);
    }
  }

  /** The registry a node rebuilds from the standby's log. */
  ghost function Rebuilt(s: State, n: nat): Replayed {
    Replay(map[], n, s.backup.log)
  }

  lemma SyncedHasInv(s: State, n: nat)
    requires Synced(s, n)
    ensures Inv(s) && EqualityInv(s, n)
  {
    assert s.backup.log + s.tail == s.backup.log;
  }

  /** `got` and `kept` are both the registry before or after the last record of `log`. */
  ghost predicate AroundLast(log: seq<Entry>, n: nat, got: Mem, kept: Mem) {
    && log != []
    && var r := Replay(map[], n, log[..|log| - 1]);
    && var after := Apply(r.mem, n, log[|log| - 1].op);
    && r.status == Completed && after.Ok?
    && got in {r.mem, after.mem} && kept in {r.mem, after.mem}
  }

  lemma RebuiltInFlight(s: State, n: nat)
    requires EqualityInv(s, n) && !Idle(s)
    ensures Rebuilt(s, n).status == Completed
    ensures AroundLast(s.primary, n, Rebuilt(s, n).mem, s.memory)
  {
    var k := |s.primary| - 1;
    var before :| InFlight(s, n, before);
    ReplayAppend(n, s.primary[..k], before, s.primary[k]);
    assert s.primary == s.primary[..k] + [s.primary[k]];
    assert s.backup.log == s.primary || s.backup.log == s.primary[..k];
  }

  /** After a crash, before the sync is done, the standby may still lack the last record. */
  lemma RebuiltAfterCrash(s: State, n: nat)
    requires EqualityInv(s, n) && Idle(s) && s.primary != []
    ensures Rebuilt(s, n).status == Completed
    ensures AroundLast(s.primary, n, Rebuilt(s, n).mem, s.memory)
  {
    var k := |s.primary| - 1;
    assert s.primary == s.primary[..k] + [s.primary[k]];
    ReplayConcat(map[], n, s.primary[..k], [s.primary[k]]);
    assert s.backup.log == s.primary || s.backup.log == s.primary[..k];
  }

  /**
   * Failover equality. At every point of such a run the standby's log replays without error. With no
   * request under way, and the standby synced since the last crash, it rebuilds the leader's registry; otherwise
   * both are the registry before or after the last record of the leader's log.
   */
  lemma FailoverEquality(s0: State, n: nat, steps: seq<Step>)
    requires Synced(s0, n) && Legal(s0, steps) && OneAtATime(s0, steps) && FaithfulRun(s0, n, steps)
    ensures var s := Final(s0, steps);
            && (s.promoted.Some? ==> s.promoted.value == s.backup.log)
            && Rebuilt(s, n).status == Completed
            && (Level(s) || s.primary == [] ==> Rebuilt(s, n).mem == s.memory)
            && (!Level(s) && s.primary != [] ==> AroundLast(s.primary, n, Rebuilt(s, n).mem, s.memory))
  {
    var s := Final(s0, steps);
    SyncedHasInv(s0, n);
    RunKeepsEquality(s0, n, steps);
    if !Idle(s) {
      RebuiltInFlight(s, n);
    } else if s.primary != [] {
      RebuiltAfterCrash(s, n);
    }
  }
}
