/** The leader's side of replication as values: one call, the sync of a lagging standby, the single retry. */
module SyncSpec {
  import opened Entries
  import opened WalFormat
  import opened InboundSpec

  // ---- Calls over an unreliable link, as values ----

  /** What becomes of a call: the caller learns the answer only when it is `Delivered`. */
  datatype Fate = Delivered | RequestLost | ReplyLost

  /** The standby and the fates of the calls to come; when they run out, calls are delivered. */
  datatype Link = Link(backup: Backup, fates: seq<Fate>) {
    function Next(): Fate {
      if fates == [] then Delivered else fates[0]
    }
    function Later(): seq<Fate> {
      if fates == [] then [] else fates[1..]
    }
  }

  datatype Sent = Sent(link: Link, ok: bool)

  function Call(c: Codec, l: Link, e: Entry): Sent {
    var a := Accept(l.backup, e, Writable(c, e));
    Sent(Link(if l.Next().RequestLost? then l.backup else a.backup, l.Later()), l.Next().Delivered? && a.ok)
  }

  /** The loop of syncBackupWal over the leader's records, given the number the standby reported. */
  function SyncLoop(c: Codec, l: Link, last: nat, entries: seq<Entry>): Sent
    decreases entries
  {
    if entries == [] then Sent(l, true)
    else if entries[0].seqno <= last then SyncLoop(c, l, last, entries[1..])
    else
      var r := Call(c, l, entries[0]);
      if r.ok then SyncLoop(c, r.link, last, entries[1..]) else r
  }

  function Sync(c: Codec, l: Link, log: seq<Entry>): Sent {
    var l' := l.(fates := l.Later());
    if l.Next().Delivered? then SyncLoop(c, l', l.backup.last, log) else Sent(l', false)
  }

  function Retry(c: Codec, l: Link, log: seq<Entry>, e: Entry): Sent {
    var first := Call(c, l, e);
    if first.ok then first
    else
      var s := Sync(c, first.link, log);
      if s.ok then Call(c, s.link, e) else s
  }

  // ---- What a sync achieves ----

  lemma {:induction false} SkipHeld(c: Codec, l: Link, log: seq<Entry>, last: nat, k: nat)
    requires FromOne(log) && k <= last && k <= |log|
    ensures SyncLoop(c, l, last, log) == SyncLoop(c, l, last, log[k..])
  {
    if k > 0 {
      SkipHeld(c, l, log, last, k - 1);
      assert log[k - 1..][1..] == log[k..];
    } else {
      assert log[0..] == log;
    }
  }

  /** The standby holds exactly records 1..k of some log and remembers k. */
  ghost predicate Holds(b: Backup, k: nat) {
    |b.log| == k && b.last == k && FromOne(b.log)
  }

  lemma {:induction false} SendRest(c: Codec, l: Link, log: seq<Entry>, last: nat, k: nat)
    requires FromOne(log) && last <= k <= |log| && Holds(l.backup, k)
    requires SyncLoop(c, l, last, log[k..]).ok
    ensures var b := SyncLoop(c, l, last, log[k..]).link.backup;
            Holds(b, |log|) && b.log == l.backup.log + log[k..]
    decreases |log| - k
  {
    if k < |log| {
      var r := Call(c, l, log[k]);
      assert log[k..][1..] == log[k + 1..];
      SendRest(c, r.link, log, last, k + 1);
      assert log[k..] == [log[k]] + log[k + 1..];
    } else {
      assert l.backup.log + log[k..] == l.backup.log;
    }
  }

  /** A successful sync appends exactly the leader's records the standby was missing, and nothing else. */
  lemma SyncResult(c: Codec, l: Link, log: seq<Entry>)
    requires FromOne(log) && Holds(l.backup, |l.backup.log|)
    requires Sync(c, l, log).ok
    ensures var k, b := |l.backup.log|, Sync(c, l, log).link.backup;
            && b.log == l.backup.log + (if k <= |log| then log[k..] else [])
            && (k <= |log| ==> (b.log == log <==> l.backup.log <= log))
  {
    var k := |l.backup.log|;
    var l' := l.(fates := l.Later());
    if k <= |log| {
      SkipHeld(c, l', log, k, k);
      SendRest(c, l', log, k, k);
      assert log == log[..k] + log[k..];
      assert (l.backup.log + log[k..])[..k] == l.backup.log;
    } else {
      SkipHeld(c, l', log, k, |log|);
      assert l.backup.log + [] == l.backup.log;
    }
  }

  lemma {:induction false} RestCalls(c: Codec, l: Link, log: seq<Entry>, last: nat, k: nat)
    requires FromOne(log) && last <= k <= |log| && Holds(l.backup, k) && |l.fates| >= |log| - k
    requires SyncLoop(c, l, last, log[k..]).ok
    ensures SyncLoop(c, l, last, log[k..]).link.fates == l.fates[|log| - k..]
    decreases |log| - k
  {
    if k < |log| {
      var r := Call(c, l, log[k]);
      assert log[k..][1..] == log[k + 1..];
      RestCalls(c, r.link, log, last, k + 1);
      assert l.fates[1..][|log| - k - 1..] == l.fates[|log| - k..];
    }
  }

  /** A successful sync asks once for the standby's number and then sends each missing record once, and no other. */
  lemma SyncCalls(c: Codec, l: Link, log: seq<Entry>)
    requires FromOne(log) && Holds(l.backup, |l.backup.log|) && |l.backup.log| <= |log|
    requires Sync(c, l, log).ok && |l.fates| > |log| - |l.backup.log|
    ensures Sync(c, l, log).link.fates == l.fates[1 + |log| - |l.backup.log|..]
  {
    var k, l' := |l.backup.log|, l.(fates := l.Later());
    SkipHeld(c, l', log, k, k);
    RestCalls(c, l', log, k, k);
    assert l.fates[1..][|log| - k..] == l.fates[1 + |log| - k..];
  }

  // ---- What a link that delivers achieves ----

  ghost predicate Reliable(l: Link) {
    forall i :: 0 <= i < |l.fates| ==> l.fates[i] == Delivered
  }

  /** The standby takes records, holds a prefix of the leader's log, or nothing, and every call will be delivered. */
  ghost predicate Reachable(c: Codec, l: Link, log: seq<Entry>) {
    && FromOne(log) && AllWritable(c, log)
    && Reliable(l) && l.backup.accepting && l.backup.log <= log && l.backup.last == |l.backup.log|
  }

  lemma {:induction false} ReliableRest(c: Codec, l: Link, log: seq<Entry>, last: nat, k: nat)
    requires FromOne(log) && AllWritable(c, log) && Reliable(l) && l.backup.accepting
    requires last <= k <= |log| && Holds(l.backup, k)
    ensures var r := SyncLoop(c, l, last, log[k..]);
            r.ok && Reliable(r.link) && r.link.backup.accepting && Holds(r.link.backup, |log|)
    decreases |log| - k
  {
    if k < |log| {
      var r := Call(c, l, log[k]);
      assert Writable(c, log[k]);
      assert log[k..][1..] == log[k + 1..];
      ReliableRest(c, r.link, log, last, k + 1);
    }
  }

  /** Over a link that delivers, a sync succeeds and brings a standby, an empty one too, up to date. */
  lemma SyncCatchesUp(c: Codec, l: Link, log: seq<Entry>)
    requires Reachable(c, l, log)
    ensures var r := Sync(c, l, log);
            r.ok && Reachable(c, r.link, log) && r.link.backup.log == log
  {
    var k, l' := |l.backup.log|, l.(fates := l.Later());
    SkipHeld(c, l', log, k, k);
    ReliableRest(c, l', log, k, k);
    SyncResult(c, l, log);
  }

  // ---- What the retry achieves ----

  /** The standby holds a non-empty prefix of the leader's log and remembers its length. */
  ghost predicate HoldsPrefix(b: Backup, log: seq<Entry>) {
    b.log != [] && b.log <= log && b.last == |b.log|
  }

  lemma CallKeepsPrefix(c: Codec, l: Link, log: seq<Entry>, k: nat)
    requires FromOne(log) && k < |log| && HoldsPrefix(l.backup, log)
    ensures var r := Call(c, l, log[k]);
            && HoldsPrefix(r.link.backup, log) && l.backup.log <= r.link.backup.log
            && (r.ok ==> k < |r.link.backup.log|)
  {
    assert log[k].seqno == k + 1;
  }

  lemma {:induction false} SyncLoopKeepsPrefix(c: Codec, l: Link, last: nat, log: seq<Entry>, k: nat)
    requires FromOne(log) && k <= |log| && HoldsPrefix(l.backup, log)
    ensures var b := SyncLoop(c, l, last, log[k..]).link.backup;
            HoldsPrefix(b, log) && l.backup.log <= b.log
    decreases |log| - k
  {
    if k < |log| {
      assert log[k..][1..] == log[k + 1..];
      if log[k].seqno <= last {
        SyncLoopKeepsPrefix(c, l, last, log, k + 1);
      } else {
        CallKeepsPrefix(c, l, log, k);
        SyncLoopKeepsPrefix(c, Call(c, l, log[k]).link, last, log, k + 1);
      }
    }
  }

  lemma SyncKeepsPrefix(c: Codec, l: Link, log: seq<Entry>)
    requires FromOne(log) && HoldsPrefix(l.backup, log)
    ensures var b := Sync(c, l, log).link.backup;
            HoldsPrefix(b, log) && l.backup.log <= b.log
  {
    assert log[0..] == log;
    SyncLoopKeepsPrefix(c, l.(fates := l.Later()), l.backup.last, log, 0);
  }

  /**
   * Over any link, a retry leaves a standby that held a prefix of the leader's log with a prefix of it,
   * and if it reports success, with all of it.
   */
  lemma RetrySuccessMeansCaughtUp(c: Codec, l: Link, log: seq<Entry>)
    requires FromOne(log) && log != [] && HoldsPrefix(l.backup, log)
    ensures var r := Retry(c, l, log, log[|log| - 1]);
            && HoldsPrefix(r.link.backup, log) && l.backup.log <= r.link.backup.log
            && (r.ok ==> r.link.backup.log == log)
  {
    var k := |log| - 1;
    var first := Call(c, l, log[k]);
    CallKeepsPrefix(c, l, log, k);
    if !first.ok {
      SyncKeepsPrefix(c, first.link, log);
      CallKeepsPrefix(c, Sync(c, first.link, log).link, log, k);
    }
  }

  /**
   * Over a link that delivers, a standby any number of records behind is caught up by one request: the
   * first try succeeds outright when only the new record is missing, otherwise one sync succeeds record
   * by record and the retry is acknowledged, and the two logs end equal.
   */
  lemma RetryCatchesUp(c: Codec, l: Link, log: seq<Entry>)
    requires Reachable(c, l, log) && log != [] && l.backup.log != []
    ensures var first := Call(c, l, log[|log| - 1]);
            first.ok || (first.link.backup == l.backup && Sync(c, first.link, log).ok)
    ensures Call(c, l, log[|log| - 1]).ok <==> |log| <= |l.backup.log| + 1
    ensures var r := Retry(c, l, log, log[|log| - 1]);
            r.ok && Reachable(c, r.link, log) && r.link.backup.log == log
  {
    var e := log[|log| - 1];
    assert Writable(c, e);
    RetrySuccessMeansCaughtUp(c, l, log);
    var first := Call(c, l, e);
    if !first.ok {
      SyncCatchesUp(c, first.link, log);
    }
  }

  /**
   * An empty standby is not caught up by a request: it takes the new record as its first one, the request is
   * acknowledged, and the logs end equal exactly when that record is the leader's only one.
   */
  lemma RetryOnEmpty(c: Codec, l: Link, log: seq<Entry>)
    requires Reachable(c, l, log) && log != [] && l.backup.log == []
    ensures var r := Retry(c, l, log, log[|log| - 1]);
            && r.ok && Reliable(r.link) && r.link.backup == Backup([log[|log| - 1]], |log|, true)
            && (r.link.backup.log == log <==> |log| == 1)
  {
    assert Writable(c, log[|log| - 1]);
  }

  /**
   * How many tries a request makes. An acknowledged first try is the only call. After a sync the record is sent
   * again, and without an answer to that the request fails, although the standby may have the record already.
   */
  lemma RetryTries(c: Codec, l: Link, log: seq<Entry>, e: Entry)
    ensures var first, r := Call(c, l, e), Retry(c, l, log, e);
            var sync := Sync(c, first.link, log);
            && (first.ok ==> r == first)
            && (!first.ok && !sync.ok ==> !r.ok && r.link == sync.link)
            && (!first.ok && sync.ok ==> r.link.fates == sync.link.Later() && (r.ok ==> sync.link.Next().Delivered?))
  {
  }

  /** A standby that none of the calls reaches is left as it is, and the request fails. */
  lemma RetryUnreachable(c: Codec, l: Link, log: seq<Entry>, e: Entry)
    requires |l.fates| >= 2 && l.fates[0].RequestLost? && !l.fates[1].Delivered?
    ensures var r := Retry(c, l, log, e);
            !r.ok && r.link.backup == l.backup
  {
  }

  /**
   * The converse of an acknowledgement does not hold: when the reply to the first try is lost and the
   * standby then cannot be reached, the request is reported as failed although the standby holds it.
   */
  lemma FailedRequestMaySurvive(c: Codec, b: Backup, log: seq<Entry>)
    requires FromOne(log) && log != [] && Writable(c, log[|log| - 1])
    requires b.accepting && Holds(b, |log| - 1) && b.log <= log
    ensures var r := Retry(c, Link(b, [ReplyLost, RequestLost]), log, log[|log| - 1]);
            !r.ok && r.link.backup.log == log
  {
    assert log == log[..|log| - 1] + [log[|log| - 1]];
    assert [ReplyLost, RequestLost][1..] == [RequestLost];
  }
}
