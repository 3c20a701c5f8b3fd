/** What the leader achieves when the standby can be reached: every record is acknowledged and the logs stay equal. */
module Liveness {
  import opened Entries
  import opened WalFormat
  import opened SyncSpec
  import opened RegistrySpec
  import opened ControlSpec

  /**
   * The standby can be reached for good, what the leader can encode the standby can encode, and the standby is
   * empty only if the leader is.
   */
  ghost predicate Live(p: Pair) {
    && Reachable(p.peer, p.link, p.core.log)
    && (p.link.backup.log == [] ==> p.core.log == [])
    && forall e: Entry :: Writable(p.own, e) ==> Writable(p.peer, e)
  }

  /** Both logs hold the same records. */
  predicate Equal(p: Pair) {
    p.link.backup.log == p.core.log
  }

  lemma AppendReachable(c: Codec, l: Link, log: seq<Entry>, e: Entry)
    requires Reachable(c, l, log) && Writable(c, e) && e.seqno == MaxSeq(log) + 1
    ensures Reachable(c, l, log + [e])
  {
    ConsecutiveMax(log);
  }

  /** An operation past the guards is logged, applied and acknowledged, and the standby ends with the whole log. */
  lemma RelayIsAcknowledged(p: Pair, n: nat, op: Op)
    requires Live(p) && Writable(p.own, NextEntry(p.core, op))
    ensures var r := Relay(p, n, op);
            && r.persisted && r.replicated && Live(r.pair)
            && r.pair.core.log == p.core.log + [Entry(MaxSeq(p.core.log) + 1, op)]
            && r.pair.link.backup.log == r.pair.core.log
            && (Apply(p.core.mem, n, op).Ok? ==> Apply(p.core.mem, n, op) == Ok(r.pair.core.mem))
  {
    var e := NextEntry(p.core, op);
    var log := p.core.log + [e];
    AppendReachable(p.peer, p.link, p.core.log, e);
    assert log[|log| - 1] == e;
    if p.link.backup.log == [] {
      RetryOnEmpty(p.peer, p.link, log);
      assert log == [e];
    } else {
      RetryCatchesUp(p.peer, p.link, log);
    }
  }

  /** No replication fails, and the standby keeps up. */
  lemma TurnIsAcknowledged(p: Pair, n: nat, req: Request)
    requires Live(p)
    ensures var t := Turn(p, n, req);
            && Live(t.pair) && t.served.replicated
            && (Equal(p) || RecordOf(p, n, req).Some? ==> Equal(t.pair))
  {
    var g := Guarded(p.core.mem, n, req);
    if g.Some? && Writable(p.own, NextEntry(p.core, g.value)) {
      RelayIsAcknowledged(p, n, g.value);
    }
  }

  /** Some request left a record. */
  ghost predicate Wrote(p: Pair, n: nat, reqs: seq<Request>) {
    exists i: nat :: i < |reqs| && RecordAt(p, n, reqs, i).Some?
  }

  lemma {:induction false} StaysLive(p: Pair, n: nat, reqs: seq<Request>, m: nat)
    requires Live(p) && m <= |reqs|
    ensures Live(TurnAll(p, n, reqs[..m]))
  {
    if m == 0 {
      assert reqs[..0] == [];
    } else {
      StaysLive(p, n, reqs, m - 1);
      TurnAllNext(p, n, reqs, m - 1);
      TurnIsAcknowledged(TurnAll(p, n, reqs[..m - 1]), n, reqs[m - 1]);
    }
  }

  lemma {:induction false} StaysEqual(p: Pair, n: nat, reqs: seq<Request>, i: nat, m: nat)
    requires Live(p) && i <= m <= |reqs| && Equal(TurnAll(p, n, reqs[..i]))
    ensures Equal(TurnAll(p, n, reqs[..m]))
  {
    if i < m {
      StaysEqual(p, n, reqs, i, m - 1);
      StaysLive(p, n, reqs, m - 1);
      TurnAllNext(p, n, reqs, m - 1);
      TurnIsAcknowledged(TurnAll(p, n, reqs[..m - 1]), n, reqs[m - 1]);
    }
  }

  lemma EqualAfter(p: Pair, n: nat, reqs: seq<Request>, i: nat)
    requires Live(p) && i < |reqs| && RecordAt(p, n, reqs, i).Some?
    ensures Equal(TurnAll(p, n, reqs[..i + 1]))
  {
    StaysLive(p, n, reqs, i);
    TurnAllNext(p, n, reqs, i);
    TurnIsAcknowledged(TurnAll(p, n, reqs[..i]), n, reqs[i]);
  }

  /**
   * Over a link that delivers, no request of any run fails for want of the standby, and the logs end equal if they
   * were equal at the start or any record was written.
   */
  lemma ServingIsAcknowledged(p: Pair, n: nat, reqs: seq<Request>)
    requires Live(p)
    ensures Live(TurnAll(p, n, reqs))
    ensures forall i :: 0 <= i < |reqs| ==> ServedAt(p, n, reqs, i).replicated
    ensures Equal(p) || Wrote(p, n, reqs) ==> Equal(TurnAll(p, n, reqs))
  {
    assert reqs[..|reqs|] == reqs;
    StaysLive(p, n, reqs, |reqs|);
    forall i | 0 <= i < |reqs| ensures ServedAt(p, n, reqs, i).replicated {
      StaysLive(p, n, reqs, i);
      TurnIsAcknowledged(TurnAll(p, n, reqs[..i]), n, reqs[i]);
    }
    if Equal(p) {
      assert reqs[..0] == [];
      StaysEqual(p, n, reqs, 0, |reqs|);
    } else if Wrote(p, n, reqs) {
      var i: nat :| i < |reqs| && RecordAt(p, n, reqs, i).Some?;
      EqualAfter(p, n, reqs, i);
      StaysEqual(p, n, reqs, i + 1, |reqs|);
    }
  }
}
