/** The coordinator: the leader's log, its link to the standby, and the number last acknowledged. */
module Coordinator {
  import opened Entries
  import opened Wal
  import opened Inbound
  import opened SyncSpec

  /** The acknowledged mark after the records above `last` have been sent: their highest number, if that is higher. */
  function Marked(mark: nat, last: nat, sent: seq<Entry>): nat {
    if MaxSeq(sent) > last then Max(mark, MaxSeq(sent)) else mark
  }

  lemma MarkedSnoc(mark: nat, last: nat, sent: seq<Entry>, e: Entry)
    ensures Marked(mark, last, sent + [e]) ==
              if e.seqno > last then Max(Marked(mark, last, sent), e.seqno) else Marked(mark, last, sent)
  {
    MaxSeqOfAppend(sent, e);
  }

  class Coordinator {
    const wal: Log
    const backup: InboundHandler
    var fates: seq<Fate>
    var lastWalSeq: nat

    /** The acknowledged mark never runs ahead of what the standby has taken. */
    ghost predicate Valid()
      reads this, wal, backup, backup.wal
    {
      && wal.Valid() && backup.Valid() && wal != backup.wal
      && lastWalSeq <= backup.lastWalSeq
    }

    ghost function View(): Link
      requires Valid()
      reads this, wal, backup, backup.wal
    {
      Link(backup.View(), fates)
    }

    constructor (wal: Log, backup: InboundHandler, fates: seq<Fate>)
      requires wal.Valid() && backup.Valid() && wal != backup.wal
      ensures Valid() && this.wal == wal && this.backup == backup && this.fates == fates && lastWalSeq == 0
    {
      this.wal, this.backup, this.fates, this.lastWalSeq := wal, backup, fates, 0;
    }

    /** The fate of the call about to be made. */
    method NextFate() returns (f: Fate)
      requires Valid()
      modifies this`fates
      ensures Valid() && f == old(View()).Next() && View() == old(View()).(fates := old(View()).Later())
    {
      if fates == [] { return Delivered; }
      f := fates[0];
      fates := fates[1..];
    }

    method Replicate(e: Entry) returns (ok: bool)
      requires Valid()
      modifies this`fates, backup, backup.wal
      ensures Valid()
      ensures Sent(View(), ok) == Call(backup.wal.codec, old(View()), e)
      ensures ok ==> e.seqno <= backup.lastWalSeq
    {
      var f := NextFate();
      if f.RequestLost? { return false; }
      var answer := backup.Replicate(Some(e));
      return f.Delivered? && answer;
    }

    method BackupLastWalSeq() returns (last: Option<nat>)
      requires Valid()
      modifies this`fates
      ensures Valid() && View() == old(View()).(fates := old(View()).Later())
      ensures last == if old(View()).Next().Delivered? then Some(View().backup.last) else None
    {
      var f := NextFate();
      if !f.Delivered? { return None; }
      var pong := backup.Ping();
      return Some(pong);
    }

    /** Sends the records above `last` one by one, stopping at the first refusal, and raises the mark with each. */
    method SendAbove(entries: seq<Entry>, last: nat) returns (ok: bool)
      requires Valid()
      modifies this, backup, backup.wal
      ensures Valid()
      ensures Sent(View(), ok) == SyncLoop(backup.wal.codec, old(View()), last, entries)
      ensures old(lastWalSeq) <= lastWalSeq
      ensures ok ==> lastWalSeq == Marked(old(lastWalSeq), last, entries)
    {
      var i := 0;
      assert entries[0..] == entries;
      while i < |entries|
        invariant i <= |entries|
        invariant Valid()
        invariant lastWalSeq == Marked(old(lastWalSeq), last, entries[..i])
        invariant SyncLoop(backup.wal.codec, old(View()), last, entries)
               == SyncLoop(backup.wal.codec, View(), last, entries[i..])
      {
        assert entries[i..][0] == entries[i] && entries[i..][1..] == entries[i + 1..];
        assert entries[..i + 1] == entries[..i] + [entries[i]];
        MarkedSnoc(old(lastWalSeq), last, entries[..i], entries[i]);
        if entries[i].seqno > last {
          var sent := Replicate(entries[i]);
          if !sent { return false; }
          MarkAcknowledged(entries[i].seqno);
        }
        i := i + 1;
      }
      assert entries[..i] == entries;
      return true;
    }

    /** Brings the standby up to date with every record above the number it reports. */
    method SyncBackupWal() returns (ok: bool)
      requires Valid()
      modifies this, wal`cursor, backup, backup.wal
      ensures Valid() && wal.records == old(wal.records)
      ensures Sent(View(), ok) == Sync(backup.wal.codec, old(View()), wal.records)
      ensures old(lastWalSeq) <= lastWalSeq
      ensures ok ==> lastWalSeq == Marked(old(lastWalSeq), old(backup.lastWalSeq), wal.records)
    {
      var last := BackupLastWalSeq();
      if last.None? { return false; }
      var contents := wal.ReadAll();
      ok := SendAbove(contents.log, last.value);
    }

    /** Replicates with a single retry; `synced` tells whether a sync was needed. */
    method ReplicateWithRetry(e: Entry) returns (ok: bool, synced: bool)
      requires Valid()
      modifies this, wal`cursor, backup, backup.wal
      ensures Valid() && wal.records == old(wal.records)
      ensures Sent(View(), ok) == Retry(backup.wal.codec, old(View()), wal.records, e)
      ensures synced == !Call(backup.wal.codec, old(View()), e).ok
      ensures ok ==> e.seqno <= backup.lastWalSeq
    {
      ok := Replicate(e);
      synced := !ok;
      if ok { return; }
      ok := SyncBackupWal();
      if !ok { return; }
      ok := Replicate(e);
    }

    /** Raises the acknowledged mark after a request that the standby has taken. */
    method MarkAcknowledged(seqno: nat)
      requires Valid() && seqno <= backup.lastWalSeq
      modifies this`lastWalSeq
      ensures Valid() && View() == old(View()) && lastWalSeq == Max(old(lastWalSeq), seqno)
    {
      if seqno > lastWalSeq {
        lastWalSeq := seqno;
      }
    }
  }
}
