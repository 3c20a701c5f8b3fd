/** The registry as a plain value: which client key listens to which station (-1 for none). */
module RegistrySpec {
  import opened Entries
  import opened ClientKeys

  type Mem = map<string, int>

  /** `Panic` is the out-of-range station index that ApplySetStation does not check. */
  datatype Outcome = Ok(mem: Mem) | Err | Panic

  function KeyOf(op: Op): string {
    if op.Unknown? then "" else ClientKey(op.ip, op.port)
  }

  /** One Apply* call on `n` stations. */
  function Apply(m: Mem, n: nat, op: Op): Outcome {
    var k := KeyOf(op);
    match op
    case Handshake(_, _) => if k in m then Err else Ok(m[k := -1])
    case SetStation(_, _, station, _) =>
      if k !in m then Err else if 0 <= station < n then Ok(m[k := station]) else Panic
    case Disconnect(_, _) => if k in m then Ok(m - {k}) else Err
    case Unknown => Err
  }

  datatype Status = Completed | Stopped | Crashed

  /** How a replay loop ended, and the registry it left behind. */
  datatype Replayed = Replayed(mem: Mem, status: Status)

  /** The replay loop: apply entry after entry to a live registry, stop at the first failure. */
  function Replay(m: Mem, n: nat, log: seq<Entry>): Replayed
    decreases log
  {
    if log == [] then Replayed(m, Completed)
    else match Apply(m, n, log[0].op)
      case Ok(m') => Replay(m', n, log[1..])
      case Err => Replayed(m, Stopped)
      case Panic => Replayed(m, Crashed)
  }

  /** `log` rebuilds exactly `m` on a fresh process with `n` stations. */
  ghost predicate Rebuilds(log: seq<Entry>, n: nat, m: Mem) {
    Replay(map[], n, log) == Replayed(m, Completed)
  }

  lemma {:induction false} ReplayConcat(m: Mem, n: nat, a: seq<Entry>, b: seq<Entry>)
    ensures var r := Replay(m, n, a);
            Replay(m, n, a + b) == if r.status == Completed then Replay(r.mem, n, b) else r
    decreases a
  {
    if a == [] {
      assert a + b == b;
    } else {
      assert (a + b)[1..] == a[1..] + b;
      match Apply(m, n, a[0].op)
      case Ok(m') => ReplayConcat(m', n, a[1..], b);
      case Err =>
      case Panic =>
    }
  }

  lemma ReplayAppend(n: nat, log: seq<Entry>, m: Mem, e: Entry)
    requires Rebuilds(log, n, m)
    ensures Replay(map[], n, log + [e]) == Replay(m, n, [e])
    ensures forall m' :: Apply(m, n, e.op) == Ok(m') ==> Rebuilds(log + [e], n, m')
  {
    ReplayConcat(map[], n, log, [e]);
  }

  lemma PrefixReplays(n: nat, part: seq<Entry>, whole: seq<Entry>)
    requires part <= whole && Replay(map[], n, whole).status == Completed
    ensures Replay(map[], n, part).status == Completed
  {
    assert whole == part + whole[|part|..];
    ReplayConcat(map[], n, part, whole[|part|..]);
  }

  // ---- The second replay of a promotion with a reachable peer ----

  /** A client that survives the log was first registered by it, so a registry that already has it rejects the log. */
  lemma {:induction false} SurvivorBlocksReplay(k: string, clean: Mem, live: Mem, n: nat, log: seq<Entry>)
    requires k !in clean && k in live
    requires Replay(clean, n, log).status == Completed && k in Replay(clean, n, log).mem
    ensures Replay(live, n, log).status != Completed
    decreases log
  {
    if log != [] {
      var op := log[0].op;
      var next := Apply(clean, n, op).mem;
      var next' := Apply(live, n, op);
      if KeyOf(op) != k && next'.Ok? {
        SurvivorBlocksReplay(k, next, next'.mem, n, log[1..]);
      }
    }
  }

  /** Replaying a log a second time succeeds exactly when it leaves nobody registered. */
  lemma SecondReplay(n: nat, log: seq<Entry>, m: Mem)
    requires Rebuilds(log, n, m)
    ensures Replay(m, n, log).status == Completed <==> m == map[]
  {
    if m != map[] {
      var k :| k in m;
      SurvivorBlocksReplay(k, map[], m, n, log);
    }
  }

  /** An entry about a client outside `m` acts on a registry containing `m` as it does without it. */
  lemma ApplyBeside(m: Mem, x: Mem, n: nat, op: Op)
    requires m.Keys !! x.Keys && KeyOf(op) !in m && Apply(x, n, op).Ok?
    ensures Apply(m + x, n, op) == Ok(m + Apply(x, n, op).mem)
    ensures Apply(x, n, op).mem.Keys !! m.Keys
  {
    var k := KeyOf(op);
    match op
    case Handshake(_, _) => assert (m + x)[k := -1] == m + x[k := -1];
    case SetStation(_, _, station, _) => assert (m + x)[k := station] == m + x[k := station];
    case Disconnect(_, _) => assert (m + x) - {k} == m + (x - {k});
    case Unknown =>
  }

  lemma {:induction false} ReplayBeside(m: Mem, x: Mem, n: nat, log: seq<Entry>)
    requires m.Keys !! x.Keys
    requires forall i :: 0 <= i < |log| ==> KeyOf(log[i].op) !in m
    requires Replay(x, n, log).status == Completed
    ensures Replay(x, n, log).mem.Keys !! m.Keys
    ensures Replay(m + x, n, log) == Replayed(m + Replay(x, n, log).mem, Completed)
    decreases log
  {
    if log != [] {
      ApplyBeside(m, x, n, log[0].op);
      ReplayBeside(m, Apply(x, n, log[0].op).mem, n, log[1..]);
    }
  }

  /** The index of the first entry about a client that is registered in `m`. */
  ghost predicate FirstMention(m: Mem, log: seq<Entry>, j: nat) {
    && j < |log|
    && KeyOf(log[j].op) in m
    && forall i :: 0 <= i < j ==> KeyOf(log[i].op) !in m
  }

  lemma {:induction false} MentionExists(k: string, x: Mem, n: nat, log: seq<Entry>)
    requires k !in x && Replay(x, n, log).status == Completed && k in Replay(x, n, log).mem
    ensures exists i :: 0 <= i < |log| && KeyOf(log[i].op) == k
    decreases log
  {
    if KeyOf(log[0].op) == k {
    } else {
      MentionExists(k, Apply(x, n, log[0].op).mem, n, log[1..]);
      var i :| 0 <= i < |log[1..]| && KeyOf(log[1..][i].op) == k;
      assert KeyOf(log[i + 1].op) == k;
    }
  }

  lemma {:induction false} FirstMentionExists(m: Mem, log: seq<Entry>, i: nat) returns (j: nat)
    requires i < |log| && KeyOf(log[i].op) in m
    ensures FirstMention(m, log, j) && j <= i
  {
    if a :| 0 <= a < i && KeyOf(log[a].op) in m {
      j := FirstMentionExists(m, log, a);
    } else {
      j := i;
    }
  }

  /** The first entry about `k` in a log that replays over a registry without `k` is a handshake. */
  lemma {:induction false} FirstMentionIsHandshake(x: Mem, n: nat, log: seq<Entry>, j: nat)
    requires j < |log| && KeyOf(log[j].op) !in x
    requires forall i :: 0 <= i < j ==> KeyOf(log[i].op) != KeyOf(log[j].op)
    requires Replay(x, n, log).status == Completed
    ensures log[j].op.Handshake?
    decreases log
  {
    if j > 0 {
      assert log[1..][j - 1] == log[j];
      assert forall i :: 0 <= i < j - 1 ==> log[1..][i] == log[i + 1];
      FirstMentionIsHandshake(Apply(x, n, log[0].op).mem, n, log[1..], j - 1);
    }
  }

  /**
   * What a failing second replay leaves in memory: the rebuilt registry plus every client that
   * was connected just before the first surviving client was first mentioned.
   */
  lemma SecondReplayResidue(n: nat, log: seq<Entry>, m: Mem, j: nat)
    requires Rebuilds(log, n, m)
    requires FirstMention(m, log, j)
    ensures Replay(map[], n, log[..j]).status == Completed
    ensures Replay(map[], n, log[..j]).mem.Keys !! m.Keys
    ensures Replay(m, n, log) == Replayed(m + Replay(map[], n, log[..j]).mem, Stopped)
  {
    assert log == log[..j] + log[j..];
    ReplayConcat(map[], n, log[..j], log[j..]);
    assert m + map[] == m;
    ReplayBeside(m, map[], n, log[..j]);
    ReplayConcat(m, n, log[..j], log[j..]);
    FirstMentionIsHandshake(map[], n, log, j);
  }

  /** A second replay never crashes: it either completes or stops at a client that is already there. */
  lemma SecondReplayOutcome(n: nat, log: seq<Entry>, m: Mem)
    requires Rebuilds(log, n, m)
    ensures Replay(m, n, log).status == if m == map[] then Completed else Stopped
    ensures m != map[] ==> exists j: nat :: FirstMention(m, log, j)
  {
    if m != map[] {
      var k :| k in m;
      MentionExists(k, map[], n, log);
      var i :| 0 <= i < |log| && KeyOf(log[i].op) == k;
      var j := FirstMentionExists(m, log, i);
      SecondReplayResidue(n, log, m, j);
    }
  }

  /** The second replay leaves memory as the first one built it exactly when nobody was connected at that point. */
  lemma SecondReplayHarmless(n: nat, log: seq<Entry>, m: Mem, j: nat)
    requires Rebuilds(log, n, m)
    requires FirstMention(m, log, j)
    ensures Replay(m, n, log).mem == m <==> Replay(map[], n, log[..j]).mem == map[]
  {
    SecondReplayResidue(n, log, m, j);
    var x := Replay(map[], n, log[..j]).mem;
    if x != map[] {
      var k :| k in x;
      assert k in (m + x) && k !in m;
    } else {
      assert m + x == m;
    }
  }

  /** A log whose second replay brings back a client that had already disconnected. */
  lemma SecondReplayRevivesClient()
    ensures var log := [Entry(1, Handshake("a", 1)), Entry(2, Handshake("b", 2)), Entry(3, Disconnect("a", 1))];
            var a, b := ClientKey("a", 1), ClientKey("b", 2);
            && Rebuilds(log, 1, map[b := -1])
            && Replay(map[b := -1], 1, log) == Replayed(map[a := -1, b := -1], Stopped)
  {
    var log := [Entry(1, Handshake("a", 1)), Entry(2, Handshake("b", 2)), Entry(3, Disconnect("a", 1))];
    var a, b := ClientKey("a", 1), ClientKey("b", 2);
    if a == b {
      ClientKeyInjective("a", 1, "b", 2);
    }
    var none: Mem := map[];
    assert log == [log[0]] + [log[1]] + [log[2]];
    ReplayConcat(none, 1, [log[0]] + [log[1]], [log[2]]);
    ReplayConcat(none, 1, [log[0]], [log[1]]);
    assert none[a := -1][b := -1] - {a} == map[b := -1];
    ReplayConcat(map[b := -1], 1, [log[0]] + [log[1]], [log[2]]);
    ReplayConcat(map[b := -1], 1, [log[0]], [log[1]]);
    assert map[b := -1][a := -1] == map[a := -1, b := -1];
  }
}
