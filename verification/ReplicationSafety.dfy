/** What every run of the replication protocol guarantees about the standby's log and about acknowledged requests. */
module ReplicationSafety {
  import opened Entries
  import opened InboundSpec
  import opened ReplicationRuns

  /** A leader and a standby before the first request; the standby's log is still to be said. */
  ghost predicate Fresh(s: State) {
    && s.threads == [] && s.calls == [] && s.replies == {} && s.promoted.None? && s.tail == []
    && FromOne(s.primary)
    && s.backup.last == LastSeq(s.backup.log)
  }

  ghost predicate StartsAsPrefix(s: State) {
    Fresh(s) && s.backup.log != [] && s.backup.log <= s.primary
  }

  ghost predicate StartsEmpty(s: State) {
    Fresh(s) && s.backup.log == []
  }

  lemma StartHasInv(s: State)
    requires StartsAsPrefix(s) || StartsEmpty(s)
    ensures Inv(s)
  {
    assert s.backup.log + s.tail == s.backup.log;
  }

  lemma FirstRecordDecides(part: seq<Entry>, whole: seq<Entry>)
    requires FromOne(whole) && part != [] && Segment(part, whole)
    ensures part <= whole <==> part[0].seqno == 1
  {
    var from := part[0].seqno - 1;
    if from == 0 {
      assert part == whole[..|part|];
    } else {
      assert whole[0].seqno == 1 && part[0] != whole[0];
    }
  }

  /** A standby that starts with a non-empty prefix of the leader's log holds a prefix of it for ever. */
  lemma PrefixInvariant(s0: State, steps: seq<Step>)
    requires StartsAsPrefix(s0) && Legal(s0, steps)
    ensures var s := Final(s0, steps); s.backup.log != [] && s.backup.log <= s.primary
  {
    StartHasInv(s0);
    RunKeepsInv(s0, steps);
    FirstRecordDecides(s0.backup.log, s0.primary);
    FirstRecordDecides(Final(s0, steps).backup.log, Final(s0, steps).primary);
  }

  /** An acknowledged request's record is in the standby's log exactly when that log starts early enough. */
  lemma AcknowledgedIff(s: State, t: nat)
    requires Inv(s) && t < |s.threads| && s.threads[t].pc == Finished(true) && s.threads[t].entry.Some?
    ensures s.backup.log != []
    ensures var e, log := s.threads[t].entry.value, s.backup.log;
            && (e in log <==> log[0].seqno <= e.seqno)
            && (e in log ==> log[e.seqno - log[0].seqno] == e)
  {
    var e, log := s.threads[t].entry.value, s.backup.log;
    assert ThreadOk(s, s.threads[t]);
    SegmentIsConsecutive(s);
    if log[0].seqno <= e.seqno {
      assert log[e.seqno - log[0].seqno] == s.primary[e.seqno - 1];
    }
  }

  /** Request `t` was reported as done, and a standby has been promoted. */
  ghost predicate Acknowledged(s: State, t: nat) {
    s.promoted.Some? && t < |s.threads| && s.threads[t].pc == Finished(true) && s.threads[t].entry.Some?
  }

  /**
   * Failover durability. Whatever the network does and whether or not the old leader has noticed, a
   * request it reported as done is, at its own number, in the log the promoted node read, and stays
   * there when that node appends.
   */
  lemma FailoverDurability(s0: State, steps: seq<Step>, t: nat)
    requires StartsAsPrefix(s0) && Legal(s0, steps) && Acknowledged(Final(s0, steps), t)
    ensures var s := Final(s0, steps);
            var e := s.threads[t].entry.value;
            && 1 <= e.seqno <= |s.promoted.value| && s.promoted.value[e.seqno - 1] == e
            && (s.promoted.value + s.tail)[e.seqno - 1] == e
  {
    var s := Final(s0, steps);
    StartHasInv(s0);
    RunKeepsInv(s0, steps);
    PrefixInvariant(s0, steps);
    FirstRecordDecides(s.backup.log, s.primary);
    assert ThreadOk(s, s.threads[t]);
    AcknowledgedIff(s, t);
  }

  /** From an empty standby: always a stretch of the leader's log, and a prefix exactly if record 1 came first. */
  lemma EmptyStart(s0: State, steps: seq<Step>)
    requires StartsEmpty(s0) && Legal(s0, steps)
    ensures var s := Final(s0, steps);
            && Segment(s.backup.log, s.primary)
            && (s.backup.log != [] ==> (s.backup.log <= s.primary <==> s.backup.log[0].seqno == 1))
  {
    StartHasInv(s0);
    RunKeepsInv(s0, steps);
    var s := Final(s0, steps);
    if s.backup.log != [] {
      FirstRecordDecides(s.backup.log, s.primary);
    }
  }

  /** The first record of such a log is the one of the delivery that found it empty, and it never changes. */
  lemma {:induction false} FirstAccepted(s0: State, steps: seq<Step>) returns (k: nat)
    requires Inv(s0) && s0.backup.log == [] && Legal(s0, steps) && Final(s0, steps).backup.log != []
    ensures k < |steps| && steps[k].Deliver?
    ensures Legal(s0, steps[..k]) && Enabled(Final(s0, steps[..k]), steps[k])
    ensures var s := Final(s0, steps[..k]);
            && s.backup.log == []
            && s.calls[steps[k].call] == ReplicateCall(Final(s0, steps).backup.log[0])
    decreases steps
  {
    var s1 := Do(s0, steps[0]);
    StepKeepsInv(s0, steps[0]);
    if s1.backup.log != [] {
      k := 0;
      RunKeepsInv(s1, steps[1..]);
    } else {
      var j := FirstAccepted(s1, steps[1..]);
      k := j + 1;
      assert steps[..k][1..] == steps[1..][..j];
    }
  }

  // ---- From an empty standby, with requests overlapping ----

  /** `e` is in `log`, at the place its number gives it. */
  ghost predicate InPlace(log: seq<Entry>, e: Entry) {
    log != [] && 0 <= e.seqno - log[0].seqno < |log| && log[e.seqno - log[0].seqno] == e
  }

  /**
   * An acknowledged request survives the promotion exactly when its record is not older than the one whose
   * delivery found the standby's log empty.
   */
  lemma SurvivesIff(s0: State, steps: seq<Step>, t: nat) returns (k: nat)
    requires StartsEmpty(s0) && Legal(s0, steps) && Acknowledged(Final(s0, steps), t)
    ensures k < |steps| && steps[k].Deliver?
    ensures Legal(s0, steps[..k]) && Enabled(Final(s0, steps[..k]), steps[k])
    ensures var met := Final(s0, steps[..k]);
            var call := met.calls[steps[k].call];
            var s := Final(s0, steps);
            var e := s.threads[t].entry.value;
            && met.backup.log == [] && call.ReplicateCall?
            && (e in s.promoted.value <==> call.entry.seqno <= e.seqno)
            && (e in s.promoted.value <==> InPlace(s.promoted.value, e))
  {
    var s := Final(s0, steps);
    StartHasInv(s0);
    RunKeepsInv(s0, steps);
    AcknowledgedIff(s, t);
    assert ThreadOk(s, s.threads[t]);
    SegmentIsConsecutive(s);
    k := FirstAccepted(s0, steps);
  }

  /** A finished request stays as it is, and no request changes its record. */
  lemma {:induction false} ThreadsStay(s: State, steps: seq<Step>, t: nat)
    requires Legal(s, steps) && t < |s.threads|
    ensures var s' := Final(s, steps);
            && t < |s'.threads| && s'.threads[t].entry == s.threads[t].entry
            && (s.threads[t].pc.Finished? ==> s'.threads[t] == s.threads[t])
    decreases steps
  {
    if steps != [] {
      ThreadsAreKept(s, steps[0]);
      ThreadsStay(Do(s, steps[0]), steps[1..], t);
    }
  }

  /** Once the standby holds a record not newer than a request's, that request survives if it is acknowledged. */
  lemma SurvivesFrom(s1: State, steps: seq<Step>, t: nat)
    requires Inv(s1) && s1.backup.log != [] && t < |s1.threads| && s1.threads[t].entry.Some?
    requires s1.backup.log[0].seqno <= s1.threads[t].entry.value.seqno
    requires Legal(s1, steps) && Acknowledged(Final(s1, steps), t)
    ensures InPlace(Final(s1, steps).promoted.value, s1.threads[t].entry.value)
  {
    var s := Final(s1, steps);
    RunKeepsInv(s1, steps);
    ThreadsStay(s1, steps, t);
    AcknowledgedIff(s, t);
    SegmentIsConsecutive(s);
    assert ThreadOk(s, s.threads[t]);
  }

  /**
   * A request that begins when the standby already holds something survives if it is acknowledged, however
   * many others overlap with it.
   */
  lemma BegunOnNonEmptySurvives(s0: State, before: seq<Step>, op: Op, after: seq<Step>)
    requires StartsEmpty(s0) && Legal(s0, before) && Final(s0, before).backup.log != []
    requires Legal(Do(Final(s0, before), Begin(op)), after)
    requires Acknowledged(Final(Do(Final(s0, before), Begin(op)), after), |Final(s0, before).threads|)
    ensures var s1 := Final(s0, before);
            InPlace(Final(Do(s1, Begin(op)), after).promoted.value, Entry(|s1.primary| + 1, op))
  {
    var s1 := Final(s0, before);
    StartHasInv(s0);
    RunKeepsInv(s0, before);
    SegmentIsConsecutive(s1);
    StepKeepsInv(s1, Begin(op));
    SurvivesFrom(Do(s1, Begin(op)), after, |s1.threads|);
  }

  /**
   * A request that is acknowledged before the next one begins survives too, from an empty standby as well,
   * whatever was under way when it began and whatever comes after.
   */
  lemma AcknowledgedAsNewestSurvives(s0: State, before: seq<Step>, t: nat, after: seq<Step>)
    requires StartsEmpty(s0) && Legal(s0, before) && Legal(Final(s0, before), after)
    requires var s1 := Final(s0, before);
             t < |s1.threads| && s1.threads[t].pc == Finished(true) && s1.threads[t].entry.Some?
             && s1.threads[t].entry.value.seqno == |s1.primary|
    requires Final(Final(s0, before), after).promoted.Some?
    ensures InPlace(Final(Final(s0, before), after).promoted.value, Final(s0, before).threads[t].entry.value)
  {
    var s1 := Final(s0, before);
    StartHasInv(s0);
    RunKeepsInv(s0, before);
    SegmentIsConsecutive(s1);
    AcknowledgedIff(s1, t);
    ThreadsStay(s1, after, t);
    SurvivesFrom(s1, after, t);
  }

  // ---- One request at a time ----

  ghost predicate AllFinished(s: State) {
    forall t :: 0 <= t < |s.threads| ==> s.threads[t].pc.Finished?
  }

  /** No request or sync starts while another one is under way. */
  ghost predicate OneAtATime(s: State, steps: seq<Step>)
    requires Legal(s, steps)
    decreases steps
  {
    steps == [] ||
    ((steps[0].Begin? || steps[0].BeginSync? ==> AllFinished(s)) && OneAtATime(Do(s, steps[0]), steps[1..]))
  }

  /** The request under way owns the leader's last record; finished ones are not below the standby's first. */
  ghost predicate SoloOk(s: State, th: Thread) {
    th.entry.Some? ==>
      && (!th.pc.Finished? ==> th.entry.value.seqno == |s.primary|)
      && (th.pc == Finished(true) ==> s.backup.log != [] && s.backup.log[0].seqno <= th.entry.value.seqno)
  }

  ghost predicate SoloInv(s: State) {
    forall t :: 0 <= t < |s.threads| ==> SoloOk(s, s.threads[t])
  }

  lemma StepKeepsSolo(s: State, s': State)
    requires LogInv(s) && SoloInv(s) && ThreadsKept(s, s') && Grows(s, s')
    requires LogInv(s') && ThreadInv(s')
    requires |s'.threads| > |s.threads| ==> AllFinished(s)
    ensures SoloInv(s')
  {
    forall t | 0 <= t < |s'.threads| ensures SoloOk(s', s'.threads[t]) {
      assert ThreadOk(s', s'.threads[t]);
      if t < |s.threads| {
        assert SoloOk(s, s.threads[t]);
        SoloStaysOk(s, s', s.threads[t], s'.threads[t]);
      } else if s'.threads[t].entry.Some? {
        assert s'.primary[|s.primary|] == s'.threads[t].entry.value;
      }
    }
  }

  lemma SoloStaysOk(s: State, s': State, th: Thread, th': Thread)
    requires LogInv(s') && Grows(s, s') && SoloOk(s, th) && ThreadOk(s', th') && th'.entry == th.entry
    requires th.pc.Finished? ==> th' == th
    requires !th.pc.Finished? ==> s'.primary == s.primary
    ensures SoloOk(s', th')
  {
    SegmentIsConsecutive(s');
  }

  lemma {:induction false} RunKeepsSolo(s: State, steps: seq<Step>)
    requires Inv(s) && SoloInv(s) && Legal(s, steps) && OneAtATime(s, steps)
    ensures Inv(Final(s, steps)) && SoloInv(Final(s, steps))
    decreases steps
  {
    if steps != [] {
      StepKeepsInv(s, steps[0]);
      ThreadsAreKept(s, steps[0]);
      StepKeepsSolo(s, Do(s, steps[0]));
      RunKeepsSolo(Do(s, steps[0]), steps[1..]);
    }
  }

  /** With one request at a time the same durability holds from an empty standby, wherever its log begins. */
  lemma FailoverDurabilityFromEmpty(s0: State, steps: seq<Step>, t: nat)
    requires StartsEmpty(s0) && Legal(s0, steps) && OneAtATime(s0, steps) && Acknowledged(Final(s0, steps), t)
    ensures var s := Final(s0, steps);
            InPlace(s.promoted.value, s.threads[t].entry.value)
  {
    var s := Final(s0, steps);
    StartHasInv(s0);
    RunKeepsSolo(s0, steps);
    assert SoloOk(s, s.threads[t]) && ThreadOk(s, s.threads[t]);
    SegmentIsConsecutive(s);
    AcknowledgedIff(s, t);
  }

  // ---- What the network and the clients may do ----

  /**
   * In every state a new request may begin, every call ever sent may be delivered, again or for the first time,
   * and is then answered by the standby as it is now, and every wait may time out.
   */
  lemma AnythingMayHappen(s: State, op: Op, c: nat, stored: bool, t: nat)
    ensures Enabled(s, Begin(op))
    ensures c < |s.calls| ==> Enabled(s, Deliver(c, stored))
    ensures c < |s.calls| ==>
              var s', call := Do(s, Deliver(c, stored)), s.calls[c];
              && s' == s.(backup := s'.backup, replies := s'.replies)
              && (call.PingCall? ==> s'.backup == s.backup && s'.replies == s.replies + {(c, Pong(s.backup.last))})
              && (call.ReplicateCall? ==>
                    var a := Accept(s.backup, call.entry, stored);
                    s'.backup == a.backup && s'.replies == s.replies + {(c, Replied(a.ok))})
    ensures t < |s.threads| && Awaiting(s.threads[t].pc) ==>
              && Enabled(s, Timeout(t))
              && Do(s, Timeout(t)).threads[t].pc == if s.threads[t].pc.AwaitFirst? then NeedSync else Failing
  {
  }

  // ---- Restarted and promoted standbys, in any state a run reaches ----

  /** A standby that restarts before it is promoted keeps its log and takes the next record of the leader's again. */
  lemma RestartedStandbyTakesNext(s: State, c: nat)
    requires LogInv(s) && s.promoted.None?
    requires c < |s.calls| && s.calls[c].ReplicateCall? && s.calls[c].entry.seqno == s.backup.last + 1
    ensures Enabled(s, RestartBackup) && Enabled(Do(s, RestartBackup), Deliver(c, true))
    ensures var s1, e := Do(s, RestartBackup), s.calls[c].entry;
            var s2 := Do(s1, Deliver(c, true));
            && s1.backup.log == s.backup.log
            && s2.backup == Backup(s.backup.log + [e], e.seqno, true) && (c, Replied(true)) in s2.replies
  {
    SegmentIsConsecutive(s);
  }

  /** A promoted node goes on from the log it read: its next record is appended with the following number. */
  lemma PromotedContinues(s: State, op: Op)
    requires PromotionInv(s) && s.promoted.Some?
    ensures Enabled(s, LeaderAppend(op))
    ensures var log := s.promoted.value + s.tail;
            && s.promoted.value + Do(s, LeaderAppend(op)).tail == log + [Entry(LastSeq(log) + 1, op)]
            && Consecutive(log + [Entry(LastSeq(log) + 1, op)])
  {
    var log := s.promoted.value + s.tail;
    ConsecutiveMax(log);
    LeaderAppendContinues(s.promoted.value, s.tail, op);
    var e := Entry(MaxSeq(log) + 1, op);
    assert s.promoted.value + (s.tail + [e]) == log + [e];
  }

  // ---- Where the restrictions come from ----

  lemma {:induction false} Snoc(s: State, steps: seq<Step>, step: Step)
    requires Legal(s, steps) && Enabled(Final(s, steps), step)
    ensures Legal(s, steps + [step]) && Final(s, steps + [step]) == Do(Final(s, steps), step)
    decreases steps
  {
    if steps == [] {
      assert [] + [step] == [step] && [step][1..] == [];
    } else {
      assert (steps + [step])[1..] == steps[1..] + [step];
      Snoc(Do(s, steps[0]), steps[1..], step);
    }
  }

  /** Extends a run that has reached `s` by one step. */
  lemma Then(s0: State, steps: seq<Step>, s: State, step: Step) returns (steps': seq<Step>, s': State)
    requires Legal(s0, steps) && Final(s0, steps) == s && Enabled(s, step)
    ensures steps' == steps + [step] && s' == Do(s, step)
    ensures Legal(s0, steps') && Final(s0, steps') == s'
  {
    Snoc(s0, steps, step);
    steps', s' := steps + [step], Do(s, step);
  }

  /** Two requests have appended and applied, and neither has been sent. */
  lemma TwoRequests(op1: Op, op2: Op) returns (s0: State, steps: seq<Step>, s: State)
    ensures StartsEmpty(s0) && Legal(s0, steps) && Final(s0, steps) == s
    ensures s.threads == [Thread(Some(Entry(1, op1)), Applied), Thread(Some(Entry(2, op2)), Applied)]
    ensures s.calls == [] && s.backup == Backup([], 0, true) && s.promoted.None?
  {
    s0 := State([], map[], [], [], {}, Backup([], 0, true), None, []);
    var e1, e2 := Entry(1, op1), Entry(2, op2);
    steps, s := [], s0;
    steps, s := Then(s0, steps, s, Begin(op1));
    assert s.primary == [] + [e1];
    MaxSeqOfAppend([], e1);
    steps, s := Then(s0, steps, s, Begin(op2));
    assert s.threads == [Thread(Some(e1), Appended), Thread(Some(e2), Appended)];
    steps, s := Then(s0, steps, s, ApplyMemory(0, true, map[]));
    steps, s := Then(s0, steps, s, ApplyMemory(1, true, map[]));
  }

  /** Both are sent, and record 2 reaches the empty standby first. */
  lemma LaterRecordFirst(op1: Op, op2: Op) returns (s0: State, steps: seq<Step>, s: State)
    ensures StartsEmpty(s0) && Legal(s0, steps) && Final(s0, steps) == s
    ensures var e1, e2 := Entry(1, op1), Entry(2, op2);
            && s.threads == [Thread(Some(e1), AwaitFirst(1)), Thread(Some(e2), AwaitFirst(0))]
            && s.calls == [ReplicateCall(e2), ReplicateCall(e1)]
            && s.backup == Backup([e2], 2, true) && s.promoted.None?
  {
    var e1, e2 := Entry(1, op1), Entry(2, op2);
    s0, steps, s := TwoRequests(op1, op2);
    steps, s := Then(s0, steps, s, Send(1));
    steps, s := Then(s0, steps, s, Send(0));
    assert s.threads == [Thread(Some(e1), AwaitFirst(1)), Thread(Some(e2), AwaitFirst(0))];
    assert s.calls == [ReplicateCall(e2), ReplicateCall(e1)];
    steps, s := Then(s0, steps, s, Deliver(0, true));
  }

  /**
   * Two overlapping requests and an empty standby: record 1 is acknowledged without being stored,
   * and the promoted node does not have it.
   */
  lemma OverlappingRequestsLoseAcknowledged() returns (s0: State, steps: seq<Step>)
    ensures StartsEmpty(s0) && Legal(s0, steps)
    ensures var s := Final(s0, steps);
            && |s.threads| == 2 && s.threads[0].pc == Finished(true) && s.threads[0].entry.Some?
            && s.promoted.Some? && s.threads[0].entry.value !in s.promoted.value
  {
    var s;
    s0, steps, s := LaterRecordFirst(Handshake("a", 1), Handshake("b", 2));
    steps, s := Then(s0, steps, s, Deliver(1, true));
    assert (1, Replied(true)) in s.replies;
    steps, s := Then(s0, steps, s, Receive(0, Replied(true)));
    steps, s := Then(s0, steps, s, StopAccepting);
    steps, s := Then(s0, steps, s, Promote);
  }
}
