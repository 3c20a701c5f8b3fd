/** The records of the write-ahead log, and what it means for a log to be numbered without a gap. */
module Entries {

  datatype Option<+T> = None | Some(value: T)

  /** The `op` oneof of a WalEntry. `Unknown` stands for an unset or unrecognised op. */
  datatype Op =
    | Handshake(ip: string, port: nat)
    | SetStation(ip: string, port: nat, station: int, previous: int)
    | Disconnect(ip: string, port: nat)
    | Unknown

  datatype Entry = Entry(seqno: nat, op: Op)

  function Max(a: nat, b: nat): nat {
    if a < b then b else a
  }

  function MaxUpTo(log: seq<Entry>, n: nat): nat
    requires n <= |log|
  {
    if n == 0 then 0 else Max(MaxUpTo(log, n - 1), log[n - 1].seqno)
  }

  /** The highest sequence number in a log, 0 when the log is empty. */
  function MaxSeq(log: seq<Entry>): nat {
    MaxUpTo(log, |log|)
  }

  /** The sequence number of the last record, 0 when the log is empty. */
  function LastSeq(log: seq<Entry>): nat {
    if log == [] then 0 else log[|log| - 1].seqno
  }

  /** No gap and no repeat: each record is numbered one more than the record before it. */
  ghost predicate Consecutive(log: seq<Entry>) {
    forall i :: 0 <= i < |log| ==> log[i].seqno == log[0].seqno + i
  }

  /** The log of a leader that started from nothing: records 1, 2, 3, ... */
  ghost predicate FromOne(log: seq<Entry>) {
    forall i :: 0 <= i < |log| ==> log[i].seqno == i + 1
  }

  lemma {:induction false} MaxUpToIsUpperBound(log: seq<Entry>, n: nat, i: nat)
    requires i < n <= |log|
    ensures log[i].seqno <= MaxUpTo(log, n)
  {
    if i < n - 1 {
      MaxUpToIsUpperBound(log, n - 1, i);
    }
  }

  lemma {:induction false} MaxUpToIsReached(log: seq<Entry>, n: nat) returns (i: nat)
    requires 0 < n <= |log| && MaxUpTo(log, n) > 0
    ensures i < n && log[i].seqno == MaxUpTo(log, n)
  {
    if log[n - 1].seqno == MaxUpTo(log, n) {
      i := n - 1;
    } else {
      i := MaxUpToIsReached(log, n - 1);
    }
  }

  /** The highest number: no record is above it, and some record has it unless it is 0. */
  lemma MaxSeqIsHighest(log: seq<Entry>)
    ensures forall i :: 0 <= i < |log| ==> log[i].seqno <= MaxSeq(log)
    ensures MaxSeq(log) > 0 ==> exists i :: 0 <= i < |log| && log[i].seqno == MaxSeq(log)
  {
    forall i | 0 <= i < |log| ensures log[i].seqno <= MaxSeq(log) {
      MaxUpToIsUpperBound(log, |log|, i);
    }
    if MaxSeq(log) > 0 {
      var i := MaxUpToIsReached(log, |log|);
    }
  }

  lemma {:induction false} MaxUpToOfPrefix(log: seq<Entry>, more: seq<Entry>, n: nat)
    requires n <= |log|
    ensures MaxUpTo(log + more, n) == MaxUpTo(log, n)
  {
    if n > 0 {
      MaxUpToOfPrefix(log, more, n - 1);
    }
  }

  lemma MaxSeqOfAppend(log: seq<Entry>, e: Entry)
    ensures MaxSeq(log + [e]) == Max(MaxSeq(log), e.seqno)
  {
    MaxUpToOfPrefix(log, [e], |log|);
  }

  lemma {:induction false} ConsecutiveMaxUpTo(log: seq<Entry>, n: nat)
    requires Consecutive(log) && 0 < n <= |log|
    ensures MaxUpTo(log, n) == log[n - 1].seqno
  {
    if n > 1 {
      ConsecutiveMaxUpTo(log, n - 1);
    }
  }

  lemma ConsecutiveMax(log: seq<Entry>)
    requires Consecutive(log)
    ensures MaxSeq(log) == LastSeq(log)
  {
    if log != [] {
      ConsecutiveMaxUpTo(log, |log|);
    }
  }
}
