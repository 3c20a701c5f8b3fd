/**
 * What replay means, said without running it: a client is registered when the last record about it is not its
 * disconnect, on the station of that record; and a log replays when every record fits those before it.
 */
module ReplayMeaning {
  import opened Entries
  import opened RegistrySpec

  /** Record `i` is the last one about `k` among the first `m`. */
  ghost predicate LastMention(log: seq<Entry>, m: nat, k: string, i: nat)
    requires m <= |log|
  {
    && i < m && !log[i].op.Unknown? && KeyOf(log[i].op) == k
    && forall j: nat :: i < j < m && !log[j].op.Unknown? ==> KeyOf(log[j].op) != k
  }

  ghost predicate Connected(log: seq<Entry>, m: nat, k: string)
    requires m <= |log|
  {
    exists i: nat :: LastMention(log, m, k, i) && !log[i].op.Disconnect?
  }

  /** A connect of a client that is not connected, or a disconnect or a change to an existing station of one that is. */
  ghost predicate Fits(n: nat, log: seq<Entry>, m: nat)
    requires m < |log|
  {
    match log[m].op
    case Handshake(_, _) => !Connected(log, m, KeyOf(log[m].op))
    case SetStation(_, _, station, _) => Connected(log, m, KeyOf(log[m].op)) && 0 <= station < n
    case Disconnect(_, _) => Connected(log, m, KeyOf(log[m].op))
    case Unknown => false
  }

  ghost predicate AllFit(n: nat, log: seq<Entry>, m: nat)
    requires m <= |log|
  {
    forall i: nat :: i < m ==> Fits(n, log, i)
  }

  /** The station a record puts its client on. */
  function StationOf(op: Op): int {
    if op.SetStation? then op.station else -1
  }

  /** `mem` says about `k` what the first `m` records say. */
  ghost predicate Says(log: seq<Entry>, m: nat, mem: Mem, k: string)
    requires m <= |log|
  {
    && (k in mem <==> Connected(log, m, k))
    && forall i: nat :: LastMention(log, m, k, i) && k in mem ==> mem[k] == StationOf(log[i].op)
  }

  ghost function Upto(n: nat, log: seq<Entry>, m: nat): Replayed
    requires m <= |log|
  {
    Replay(map[], n, log[..m])
  }

  lemma UptoNext(n: nat, log: seq<Entry>, m: nat)
    requires m < |log|
    ensures var r := Upto(n, log, m);
            Upto(n, log, m + 1) ==
              if r.status != Completed then r
              else match Apply(r.mem, n, log[m].op)
                case Ok(mem) => Replayed(mem, Completed)
                case Err => Replayed(r.mem, Stopped)
                case Panic => Replayed(r.mem, Crashed)
  {
    assert log[..m + 1] == log[..m] + [log[m]];
    ReplayConcat(map[], n, log[..m], [log[m]]);
  }

  /** One more record changes the last mention of its own client only. */
  lemma NextMention(log: seq<Entry>, m: nat, k: string, i: nat)
    requires m < |log|
    ensures LastMention(log, m + 1, k, i) <==>
              if !log[m].op.Unknown? && KeyOf(log[m].op) == k then i == m else LastMention(log, m, k, i)
  {
  }

  lemma NextConnected(log: seq<Entry>, m: nat, k: string)
    requires m < |log|
    ensures Connected(log, m + 1, k) <==>
              if !log[m].op.Unknown? && KeyOf(log[m].op) == k then !log[m].op.Disconnect? else Connected(log, m, k)
  {
    NextMention(log, m, k, m);
    forall i: nat ensures LastMention(log, m + 1, k, i) <==>
        if !log[m].op.Unknown? && KeyOf(log[m].op) == k then i == m else LastMention(log, m, k, i) {
      NextMention(log, m, k, i);
    }
  }

  lemma NextSays(n: nat, log: seq<Entry>, m: nat, k: string)
    requires m < |log| && Fits(n, log, m)
    requires Upto(n, log, m).status == Completed && Says(log, m, Upto(n, log, m).mem, KeyOf(log[m].op))
    requires Says(log, m, Upto(n, log, m).mem, k)
    ensures Upto(n, log, m + 1).status == Completed && Says(log, m + 1, Upto(n, log, m + 1).mem, k)
  {
    UptoNext(n, log, m);
    NextConnected(log, m, k);
    forall i: nat ensures LastMention(log, m + 1, k, i) <==>
        if !log[m].op.Unknown? && KeyOf(log[m].op) == k then i == m else LastMention(log, m, k, i) {
      NextMention(log, m, k, i);
    }
  }

  lemma {:induction false} FittingReplays(n: nat, log: seq<Entry>, m: nat)
    requires m <= |log| && AllFit(n, log, m)
    ensures Upto(n, log, m).status == Completed
    ensures forall k :: Says(log, m, Upto(n, log, m).mem, k)
  {
    if m == 0 {
      assert log[..0] == [];
    } else {
      FittingReplays(n, log, m - 1);
      var last, mem := m - 1, Upto(n, log, m).mem;
      forall k ensures Says(log, m, mem, k) {
        NextSays(n, log, last, k);
      }
      NextSays(n, log, last, KeyOf(log[last].op));
    }
  }

  lemma {:induction false} MisfitStep(n: nat, log: seq<Entry>, m: nat)
    requires m < |log| && !Fits(n, log, m)
    requires Upto(n, log, m).status == Completed && Says(log, m, Upto(n, log, m).mem, KeyOf(log[m].op))
    ensures var op := log[m].op;
            Upto(n, log, m + 1) ==
              Replayed(Upto(n, log, m).mem, if op.SetStation? && Connected(log, m, KeyOf(op)) then Crashed else Stopped)
  {
    UptoNext(n, log, m);
  }

  /** Replay ends at the first record that does not fit, with the registry of the records before it. */
  lemma {:induction false} MisfitEnds(n: nat, log: seq<Entry>, m: nat)
    requires m < |log| && AllFit(n, log, m) && !Fits(n, log, m)
    ensures var op := log[m].op;
            Replay(map[], n, log) ==
              Replayed(Upto(n, log, m).mem, if op.SetStation? && Connected(log, m, KeyOf(op)) then Crashed else Stopped)
  {
    FittingReplays(n, log, m);
    assert Says(log, m, Upto(n, log, m).mem, KeyOf(log[m].op));
    MisfitStep(n, log, m);
    assert log == log[..m + 1] + log[m + 1..];
    ReplayConcat(map[], n, log[..m + 1], log[m + 1..]);
  }

  lemma {:induction false} FirstMisfit(n: nat, log: seq<Entry>, m: nat) returns (i: nat)
    requires m <= |log| && !AllFit(n, log, m)
    ensures i < m && AllFit(n, log, i) && !Fits(n, log, i)
  {
    if AllFit(n, log, m - 1) {
      i := m - 1;
    } else {
      i := FirstMisfit(n, log, m - 1);
    }
  }

  /**
   * Every log: it replays exactly when each record fits those before it, and then a client is registered exactly
   * when its last record is not a disconnect, on the station that record gives.
   */
  lemma ReplayMeans(n: nat, log: seq<Entry>)
    ensures var r := Replay(map[], n, log);
            && (r.status == Completed <==> AllFit(n, log, |log|))
            && (r.status == Completed ==> forall k :: Says(log, |log|, r.mem, k))
  {
    assert log[..|log|] == log;
    if AllFit(n, log, |log|) {
      FittingReplays(n, log, |log|);
    } else {
      var m := FirstMisfit(n, log, |log|);
      MisfitEnds(n, log, m);
    }
  }
}
