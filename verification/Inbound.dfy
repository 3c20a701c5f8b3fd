/** The standby's replication handler over its write-ahead log. */
module Inbound {
  import opened Entries
  import opened WalFormat
  import opened Wal
  import opened InboundSpec

  class InboundHandler {
    const wal: Log
    var lastWalSeq: nat
    var accepting: bool

    ghost predicate Valid()
      reads this, wal
    {
      wal.Valid() && lastWalSeq == wal.top
    }

    ghost function View(): Backup
      requires Valid()
      reads this, wal
    {
      Backup(wal.records, lastWalSeq, accepting)
    }

    constructor (wal: Log)
      requires wal.Valid()
      ensures Valid() && this.wal == wal
      ensures accepting && lastWalSeq == MaxSeq(wal.records)
      ensures View() == Opened(wal.records)
    {
      this.wal, this.lastWalSeq, this.accepting := wal, wal.top, true;
    }

    /** Answers a message as `Accept` says; a message without an entry is refused. */
    method Replicate(entry: Option<Entry>) returns (ok: bool)
      requires Valid()
      modifies this, wal
      ensures Valid()
      ensures entry.None? ==> !ok && View() == old(View())
      ensures entry.Some? ==>
                Answer(View(), ok) == Accept(old(View()), entry.value, Writable(wal.codec, entry.value))
    {
      if entry.None? { return false; }
      var e := entry.value;
      if !accepting { return false; }
      if e.seqno <= lastWalSeq { return true; }
      if lastWalSeq > 0 && e.seqno != lastWalSeq + 1 { return false; }
      var stored := wal.AppendReplicated(e, Fine);
      if !stored { return false; }
      lastWalSeq := e.seqno;
      return true;
    }

    method Ping() returns (last: nat)
      requires Valid()
      ensures last == View().last == MaxSeq(wal.records)
    {
      last := lastWalSeq;
    }

    /** The fence a promotion puts up before it reads the log. */
    method StopAccepting()
      requires Valid()
      modifies this`accepting
      ensures Valid() && View() == old(View()).(accepting := false)
    {
      accepting := false;
    }
  }
}
