/**
 * The replication protocol as a step system: any number of concurrent requests on the leader, remote
 * calls that may be lost, delayed, duplicated and reordered, restarts of either side, and one promotion.
 */
module ReplicationRuns {
  import opened Entries
  import opened InboundSpec
  import opened RegistrySpec

  // ---- State ----

  /** A remote call, identified by its position in `State.calls`; it may be delivered any number of times. */
  datatype Call = ReplicateCall(entry: Entry) | PingCall

  datatype Reply = Replied(ok: bool) | Pong(last: nat)

  /** Where a request stands in ReplicateAndWait, replicateWithRetry and syncBackupWal. */
  datatype Pc =
    | Appended
    | Applied
    | AwaitFirst(call: nat)
    | NeedSync
    | AwaitPing(call: nat)
    | Pinged(last: nat)
    | Scanning(last: nat, entries: seq<Entry>, next: nat)
    | AwaitSync(last: nat, entries: seq<Entry>, next: nat, call: nat)
    | Synced
    | AwaitRetry(call: nat)
    | Failing
    | Finished(ok: bool)

  /** A client request carrying the entry it appended, or (with `None`) the sync a leader runs at start-up. */
  datatype Thread = Thread(entry: Option<Entry>, pc: Pc)

  /**
   * `promoted` is the log promoteToLeader read, `tail` what the promoted node appended to it later.
   * `memory` is the leader's registry; how concurrent requests change it is left open.
   */
  datatype State = State(
    primary: seq<Entry>, memory: Mem, threads: seq<Thread>,
    calls: seq<Call>, replies: set<(nat, Reply)>,
    backup: Backup, promoted: Option<seq<Entry>>, tail: seq<Entry>)

  // ---- Steps ----

  datatype Step =
    | Begin(op: Op)
    | BeginSync
    | ApplyMemory(t: nat, ok: bool, memory: Mem)
    | Send(t: nat)
    | ReadLog(t: nat)
    | Scan(t: nat)
    | Receive(t: nat, reply: Reply)
    | Timeout(t: nat)
    | Rollback(t: nat, memory: Mem)
    | Deliver(call: nat, stored: bool)
    | RestartLeader(memory: Mem)
    | RestartBackup
    | StopAccepting
    | Promote
    | LeaderAppend(op: Op)

  predicate Awaiting(pc: Pc) {
    pc.AwaitFirst? || pc.AwaitPing? || pc.AwaitSync? || pc.AwaitRetry?
  }

  predicate Matches(pc: Pc, reply: Reply) {
    pc.AwaitPing? <==> reply.Pong?
  }

  predicate Sends(pc: Pc) {
    || pc.Applied? || pc.NeedSync? || pc.Synced?
    || (pc.Scanning? && pc.next < |pc.entries| && pc.entries[pc.next].seqno > pc.last)
  }

  predicate Scans(pc: Pc) {
    pc.Scanning? && pc.next <= |pc.entries| && (pc.next < |pc.entries| ==> pc.entries[pc.next].seqno <= pc.last)
  }

  predicate Enabled(s: State, step: Step) {
    match step
    case ApplyMemory(t, _, _) => t < |s.threads| && s.threads[t].pc == Appended
    case Send(t) =>
      && t < |s.threads| && Sends(s.threads[t].pc)
      && (s.threads[t].pc.Applied? || s.threads[t].pc.Synced? ==> s.threads[t].entry.Some?)
    case ReadLog(t) => t < |s.threads| && s.threads[t].pc.Pinged?
    case Scan(t) => t < |s.threads| && Scans(s.threads[t].pc)
    case Receive(t, reply) =>
      && t < |s.threads| && Awaiting(s.threads[t].pc)
      && (s.threads[t].pc.call, reply) in s.replies && Matches(s.threads[t].pc, reply)
    case Timeout(t) => t < |s.threads| && Awaiting(s.threads[t].pc)
    case Rollback(t, _) => t < |s.threads| && s.threads[t].pc == Failing
    case Deliver(c, _) => c < |s.calls|
    case RestartBackup => s.promoted.None?
    case Promote => s.promoted.None? && !s.backup.accepting
    case LeaderAppend(_) => s.promoted.Some?
    case _ => true
  }

  /** The call a sending thread makes and where it then waits; `c` is the fresh call's identity. */
  function Outgoing(th: Thread, c: nat): (Call, Pc)
    requires Sends(th.pc) && (th.pc.Applied? || th.pc.Synced? ==> th.entry.Some?)
  {
    match th.pc
    case Applied => (ReplicateCall(th.entry.value), AwaitFirst(c))
    case Synced => (ReplicateCall(th.entry.value), AwaitRetry(c))
    case NeedSync => (PingCall, AwaitPing(c))
    case Scanning(last, entries, next) => (ReplicateCall(entries[next]), AwaitSync(last, entries, next, c))
  }

  /** The sync loop skips a record the backup reported, and ends after the last one. */
  function AfterScan(th: Thread): Pc
    requires Scans(th.pc)
  {
    if th.pc.next < |th.pc.entries| then Scanning(th.pc.last, th.pc.entries, th.pc.next + 1)
    else if th.entry.Some? then Synced
    else Finished(true)
  }

  /** A call that timed out or was refused: the first try leads to a sync, any later one fails the request. */
  function AfterFailure(pc: Pc): Pc {
    if pc.AwaitFirst? then NeedSync else Failing
  }

  function AfterReply(pc: Pc, reply: Reply): Pc
    requires Awaiting(pc) && Matches(pc, reply)
  {
    match reply
    case Pong(last) => Pinged(last)
    case Replied(ok) =>
      if !ok then AfterFailure(pc)
      else if pc.AwaitSync? then Scanning(pc.last, pc.entries, pc.next + 1)
      else Finished(true)
  }

  /** Requests cut off by a crash never report success. */
  function Abort(threads: seq<Thread>): seq<Thread> {
    seq(|threads|, i requires 0 <= i < |threads| =>
      if threads[i].pc.Finished? then threads[i] else threads[i].(pc := Finished(false)))
  }

  function Moved(s: State, t: nat, pc: Pc): State
    requires t < |s.threads|
  {
    s.(threads := s.threads[t := s.threads[t].(pc := pc)])
  }

  function Do(s: State, step: Step): State
    requires Enabled(s, step)
  {
    match step
    case Begin(op) =>
      var e := Entry(MaxSeq(s.primary) + 1, op);
      s.(primary := s.primary + [e], threads := s.threads + [Thread(Some(e), Appended)])
    case BeginSync => s.(threads := s.threads + [Thread(None, NeedSync)])
    case ApplyMemory(t, ok, m) => Moved(s, t, if ok then Applied else Finished(false)).(memory := m)
    case Send(t) =>
      var (call, pc) := Outgoing(s.threads[t], |s.calls|);
      Moved(s, t, pc).(calls := s.calls + [call])
    case ReadLog(t) => Moved(s, t, Scanning(s.threads[t].pc.last, s.primary, 0))
    case Scan(t) => Moved(s, t, AfterScan(s.threads[t]))
    case Receive(t, reply) => Moved(s, t, AfterReply(s.threads[t].pc, reply))
    case Timeout(t) => Moved(s, t, AfterFailure(s.threads[t].pc))
    case Rollback(t, m) => Moved(s, t, Finished(false)).(memory := m)
    case Deliver(c, stored) =>
      (match s.calls[c]
       case PingCall => s.(replies := s.replies + {(c, Pong(s.backup.last))})
       case ReplicateCall(e) =>
         var a := Accept(s.backup, e, stored);
         s.(backup := a.backup, replies := s.replies + {(c, Replied(a.ok))}))
    case RestartLeader(m) => s.(threads := Abort(s.threads), memory := m)
    case RestartBackup => s.(backup := Opened(s.backup.log))
    case StopAccepting => s.(backup := s.backup.(accepting := false))
    case Promote => s.(promoted := Some(s.backup.log))
    case LeaderAppend(op) => s.(tail := s.tail + [Entry(MaxSeq(s.backup.log + s.tail) + 1, op)])
  }

  /** A run is a sequence of steps, each enabled where it is taken. */
  ghost predicate Legal(s: State, steps: seq<Step>)
    decreases steps
  {
    steps == [] || (Enabled(s, steps[0]) && Legal(Do(s, steps[0]), steps[1..]))
  }

  ghost function Final(s: State, steps: seq<Step>): State
    requires Legal(s, steps)
    decreases steps
  {
    if steps == [] then s else Final(Do(s, steps[0]), steps[1..])
  }

  // ---- The invariant ----

  /** `e` is the record numbered `e.seqno` of a leader's log. */
  ghost predicate Recorded(log: seq<Entry>, e: Entry) {
    1 <= e.seqno <= |log| && log[e.seqno - 1] == e
  }

  /** `part` is a contiguous stretch of `whole`, placed where its first record's number says. */
  ghost predicate Segment(part: seq<Entry>, whole: seq<Entry>) {
    part == [] ||
    (var from := part[0].seqno - 1;
     0 <= from && from + |part| <= |whole| && part == whole[from..from + |part|])
  }

  ghost predicate LogInv(s: State) {
    && FromOne(s.primary)
    && Segment(s.backup.log, s.primary)
    && s.backup.last == LastSeq(s.backup.log)
  }

  ghost predicate CallInv(s: State) {
    forall c :: 0 <= c < |s.calls| && s.calls[c].ReplicateCall? ==> Recorded(s.primary, s.calls[c].entry)
  }

  ghost predicate ReplyInv(s: State) {
    forall r :: r in s.replies ==>
      && r.0 < |s.calls|
      && (r.1 == Replied(true) && s.calls[r.0].ReplicateCall? ==> s.calls[r.0].entry.seqno <= s.backup.last)
      && (r.1.Pong? ==> r.1.last <= s.backup.last)
  }

  /** What the sync loop has passed is on the standby. */
  ghost predicate ScanOk(s: State, pc: Pc) {
    && (pc.Pinged? || pc.Scanning? || pc.AwaitSync? ==> pc.last <= s.backup.last)
    && (pc.Scanning? || pc.AwaitSync? ==>
          && pc.next <= |pc.entries|
          && forall i :: 0 <= i < pc.next ==> pc.entries[i].seqno <= s.backup.last)
    && (pc.AwaitSync? ==>
          pc.next < |pc.entries| && pc.call < |s.calls| && s.calls[pc.call] == ReplicateCall(pc.entries[pc.next]))
  }

  ghost predicate ThreadOk(s: State, th: Thread) {
    && ScanOk(s, th.pc)
    && (th.entry.Some? ==> Recorded(s.primary, th.entry.value))
    && (th.pc.AwaitFirst? || th.pc.AwaitRetry? ==>
          th.entry.Some? && th.pc.call < |s.calls| && s.calls[th.pc.call] == ReplicateCall(th.entry.value))
    && (th.pc.Appended? ==> th.entry.Some?)
    && (th.pc.Scanning? || th.pc.AwaitSync? ==>
          forall i :: 0 <= i < |th.pc.entries| ==> Recorded(s.primary, th.pc.entries[i]))
    && (th.pc == Finished(true) && th.entry.Some? ==> th.entry.value.seqno <= s.backup.last)
  }

  ghost predicate ThreadInv(s: State) {
    forall t :: 0 <= t < |s.threads| ==> ThreadOk(s, s.threads[t])
  }

  ghost predicate PromotionInv(s: State) {
    && (s.promoted.Some? ==> !s.backup.accepting && s.promoted.value == s.backup.log)
    && (s.promoted.None? ==> s.tail == [])
    && Consecutive(s.backup.log + s.tail)
  }

  ghost predicate Inv(s: State) {
    LogInv(s) && CallInv(s) && ReplyInv(s) && ThreadInv(s) && PromotionInv(s)
  }

  /** What a step does to the requests: it may start one, and never touches a finished one. */
  ghost predicate ThreadsKept(s: State, s': State) {
    && |s.threads| <= |s'.threads| <= |s.threads| + 1
    && (|s'.threads| > |s.threads| ==>
          var th := s'.threads[|s.threads|];
          !th.pc.Finished? && (th.entry.Some? ==> s'.primary == s.primary + [th.entry.value]))
    && (s'.primary != s.primary ==> |s'.threads| > |s.threads|)
    && forall t :: 0 <= t < |s.threads| ==>
         && s'.threads[t].entry == s.threads[t].entry
         && (s.threads[t].pc.Finished? ==> s'.threads[t] == s.threads[t])
  }

  lemma ThreadsAreKept(s: State, step: Step)
    requires Enabled(s, step)
    ensures ThreadsKept(s, Do(s, step))
  {
  }

  /** What no step undoes: records already written stay where they are, on either side. */
  ghost predicate Grows(s: State, s': State) {
    && s.primary <= s'.primary
    && s.backup.log <= s'.backup.log
    && s.backup.last <= s'.backup.last
    && s.calls <= s'.calls
  }

  lemma SegmentIsConsecutive(s: State)
    requires LogInv(s)
    ensures Consecutive(s.backup.log)
    ensures MaxSeq(s.primary) == |s.primary|
    ensures MaxSeq(s.backup.log) == s.backup.last
    ensures s.backup.log != [] ==> s.backup.last == s.backup.log[0].seqno - 1 + |s.backup.log| > 0
  {
    ConsecutiveMax(s.primary);
    ConsecutiveMax(s.backup.log);
  }

  lemma SegmentExtends(part: seq<Entry>, whole: seq<Entry>, e: Entry)
    requires part != [] && Segment(part, whole) && Recorded(whole, e) && e.seqno == part[0].seqno + |part|
    ensures Segment(part + [e], whole)
  {
    var from := part[0].seqno - 1;
    assert whole[from..from + |part| + 1] == whole[from..from + |part|] + [whole[from + |part|]];
  }

  /** A recorded entry that the handler takes extends the stretch it holds. */
  lemma AcceptKeepsSegment(s: State, e: Entry, stored: bool)
    requires LogInv(s) && Recorded(s.primary, e)
    ensures var a := Accept(s.backup, e, stored);
            && LogInv(s.(backup := a.backup))
            && (a.ok ==> e.seqno <= a.backup.last)
            && s.backup.log <= a.backup.log && s.backup.last <= a.backup.last
  {
    SegmentIsConsecutive(s);
    var b := s.backup;
    if e.seqno == b.last + 1 && b.log != [] {
      SegmentExtends(b.log, s.primary, e);
    }
  }

  lemma GrowthKeepsThreads(s: State, s': State, th: Thread)
    requires Grows(s, s') && ThreadOk(s, th)
    ensures ThreadOk(s', th)
  {
    if th.pc.Scanning? || th.pc.AwaitSync? {
      forall i | 0 <= i < |th.pc.entries| ensures Recorded(s'.primary, th.pc.entries[i]) {
        assert Recorded(s.primary, th.pc.entries[i]);
      }
    }
  }

  lemma GrowthKeepsCalls(s: State, s': State)
    requires Grows(s, s') && CallInv(s) && ReplyInv(s)
    ensures CallInv(s'.(calls := s.calls))
    ensures ReplyInv(s'.(replies := s.replies))
  {
    forall c | 0 <= c < |s.calls| && s.calls[c].ReplicateCall? ensures Recorded(s'.primary, s.calls[c].entry) {
      assert Recorded(s.primary, s.calls[c].entry);
    }
  }

  /** The thread that a step moves keeps its part of the invariant. */
  lemma MoverOk(s: State, step: Step, t: nat)
    requires Inv(s) && Enabled(s, step) && t < |s.threads|
    requires step in {Send(t), ReadLog(t), Scan(t), Timeout(t)} || (step.Receive? && step.t == t)
             || (step.ApplyMemory? && step.t == t) || (step.Rollback? && step.t == t)
    ensures ThreadOk(Do(s, step), Do(s, step).threads[t])
    ensures CallInv(Do(s, step))
  {
    var th := s.threads[t];
    assert ThreadOk(s, th);
    if step.ReadLog? {
      assert forall i :: 0 <= i < |s.primary| ==> Recorded(s.primary, s.primary[i]);
    }
    if step.Receive? {
      assert (th.pc.call, step.reply) in s.replies;
    }
  }

  lemma StepGrows(s: State, step: Step)
    requires LogInv(s) && CallInv(s) && Enabled(s, step)
    ensures LogInv(Do(s, step)) && Grows(s, Do(s, step))
  {
    SegmentIsConsecutive(s);
    if step.Deliver? && s.calls[step.call].ReplicateCall? {
      AcceptKeepsSegment(s, s.calls[step.call].entry, step.stored);
    }
  }

  lemma StepKeepsThreads(s: State, step: Step)
    requires Inv(s) && Enabled(s, step) && Grows(s, Do(s, step))
    ensures ThreadInv(Do(s, step))
  {
    var s' := Do(s, step);
    SegmentIsConsecutive(s);
    forall t | 0 <= t < |s'.threads| ensures ThreadOk(s', s'.threads[t]) {
      if t < |s.threads| {
        assert ThreadOk(s, s.threads[t]);
        if s'.threads[t] == s.threads[t] || step.RestartLeader? {
          GrowthKeepsThreads(s, s', s.threads[t]);
        } else {
          MoverOk(s, step, t);
        }
      }
    }
  }

  lemma StepKeepsCalls(s: State, step: Step)
    requires Inv(s) && Enabled(s, step) && Grows(s, Do(s, step))
    ensures CallInv(Do(s, step)) && ReplyInv(Do(s, step))
  {
    GrowthKeepsCalls(s, Do(s, step));
    if step.Send? {
      MoverOk(s, step, step.t);
    }
    if step.Deliver? && s.calls[step.call].ReplicateCall? {
      AcceptKeepsSegment(s, s.calls[step.call].entry, step.stored);
    }
  }

  /** The promoted node numbers its own records on from the log it took over. */
  lemma LeaderAppendContinues(log: seq<Entry>, tail: seq<Entry>, op: Op)
    requires Consecutive(log + tail)
    ensures Consecutive(log + (tail + [Entry(MaxSeq(log + tail) + 1, op)]))
  {
    ConsecutiveMax(log + tail);
    var e := Entry(MaxSeq(log + tail) + 1, op);
    assert log + (tail + [e]) == (log + tail) + [e];
  }

  lemma StepKeepsPromotion(s: State, step: Step)
    requires PromotionInv(s) && Enabled(s, step) && Consecutive(Do(s, step).backup.log)
    ensures PromotionInv(Do(s, step))
  {
    var s' := Do(s, step);
    if step.LeaderAppend? {
      LeaderAppendContinues(s.backup.log, s.tail, step.op);
    } else if s.promoted.None? {
      assert s'.backup.log + s'.tail == s'.backup.log;
    }
  }

  lemma StepKeepsInv(s: State, step: Step)
    requires Inv(s) && Enabled(s, step)
    ensures Inv(Do(s, step)) && Grows(s, Do(s, step))
  {
    StepGrows(s, step);
    StepKeepsThreads(s, step);
    StepKeepsCalls(s, step);
    SegmentIsConsecutive(Do(s, step));
    StepKeepsPromotion(s, step);
  }

  lemma {:induction false} RunKeepsInv(s: State, steps: seq<Step>)
    requires Inv(s) && Legal(s, steps)
    ensures Inv(Final(s, steps)) && Grows(s, Final(s, steps))
    decreases steps
  {
    if steps != [] {
      StepKeepsInv(s, steps[0]);
      RunKeepsInv(Do(s, steps[0]), steps[1..]);
    }
  }
}
