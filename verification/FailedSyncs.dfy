/** Logs on a disk whose syncs may fail: exactly when the numbering of the log survives. */
module FailedSyncs {
  import opened Entries
  import opened WalFormat
  import opened Wal

  /**
   * What a process does with its log. Both a leader's append and the record a standby's handler lets through carry
   * the number after the counter.
   */
  datatype Event = Write(op: Op, synced: bool) | Reread | Reopen

  function Next(c: Codec, d: Disk, ev: Event): (d': Disk)
    requires d.cursor <= |d.file|
    ensures d'.cursor <= |d'.file|
  {
    match ev
    case Write(op, synced) => Attempted(c, d, Entry(d.top + 1, op), if synced then Fine else Unsynced)
    case Reread => if ReadFile(c, d.file).Records? then d.(cursor := |d.file|) else d
    case Reopen => if Reopened(c, d).Some? then Reopened(c, d).value else d
  }

  datatype History = History(codec: Codec, start: Disk, events: seq<Event>) {

    /** A healthy log without gaps or repeats. */
    ghost predicate Starts() {
      Lawful(codec) && Healthy(codec, start) && Consecutive(LogOf(codec, start))
    }

    /** The log after the first `m` events. */
    function At(m: nat): (d: Disk)
      requires start.cursor <= |start.file| && m <= |events|
      ensures d.cursor <= |d.file|
    {
      if m == 0 then start else Next(codec, At(m - 1), events[m - 1])
    }

    /** What the file then reads as. */
    function Log(m: nat): Contents
      requires start.cursor <= |start.file| && m <= |events|
    {
      ReadFile(codec, At(m).file)
    }

    /** Event `i` puts a record into the file. */
    predicate Puts(i: nat)
      requires start.cursor <= |start.file| && i < |events|
    {
      events[i].Write? && Writable(codec, Entry(At(i).top + 1, events[i].op))
    }

    /** The log was not reopened between events `i` and `m`. */
    ghost predicate Open(i: nat, m: nat)
      requires m <= |events|
    {
      forall j: nat :: i < j < m ==> !events[j].Reopen?
    }

    /** The sync of record `i` failed, and the log was not reopened since. */
    ghost predicate LooseSince(i: nat, m: nat)
      requires start.cursor <= |start.file| && i < m <= |events|
    {
      Puts(i) && !events[i].synced && Open(i, m)
    }

    ghost predicate Loose(m: nat)
      requires start.cursor <= |start.file| && m <= |events|
    {
      exists i: nat :: i < m && LooseSince(i, m)
    }

    /** Some record was put into the file in that situation. */
    ghost predicate Repeats(m: nat)
      requires start.cursor <= |start.file| && m <= |events|
    {
      exists j: nat :: j < m && Puts(j) && Loose(j)
    }
  }

  lemma {:induction false} NextRepeats(h: History, m: nat)
    requires h.start.cursor <= |h.start.file| && m < |h.events|
    ensures h.Repeats(m + 1) <==> h.Repeats(m) || (h.Puts(m) && h.Loose(m))
  {
  }

  lemma {:induction false} NextLoose(h: History, m: nat)
    requires h.start.cursor <= |h.start.file| && m < |h.events|
    ensures h.Loose(m + 1) <==>
              !h.events[m].Reopen? && (h.Loose(m) || (h.Puts(m) && !h.events[m].synced))
  {
    if h.Loose(m) && !h.events[m].Reopen? {
      var i: nat :| i < m && h.LooseSince(i, m);
      assert h.LooseSince(i, m + 1);
    }
    if h.Puts(m) && !h.events[m].synced {
      assert h.LooseSince(m, m + 1);
    }
    if h.Loose(m + 1) {
      var i: nat :| i < m + 1 && h.LooseSince(i, m + 1);
      assert i < m ==> h.LooseSince(i, m) && !h.events[m].Reopen?;
    }
  }

  /** The file reads well; its numbering survives until a repeat, and the counter is one short exactly while loose. */
  ghost predicate Keeps(h: History, m: nat)
    requires h.start.cursor <= |h.start.file| && m <= |h.events|
  {
    && h.Log(m).Records? && h.At(m).cursor == |h.At(m).file|
    && var log := h.Log(m).log;
       if h.Repeats(m) then !Consecutive(log)
       else Consecutive(log) && h.At(m).top + (if h.Loose(m) then 1 else 0) == MaxSeq(log)
  }

  /** Appending to a log keeps a fault in its numbering, and adds one exactly when the number is not the next one. */
  lemma AppendNumbering(log: seq<Entry>, e: Entry)
    ensures !Consecutive(log) ==> !Consecutive(log + [e])
    ensures Consecutive(log) && log != [] ==> (Consecutive(log + [e]) <==> e.seqno == MaxSeq(log) + 1)
    ensures MaxSeq(log + [e]) == Max(MaxSeq(log), e.seqno)
  {
    if Consecutive(log + [e]) {
      forall i | 0 <= i < |log| ensures log[i].seqno == log[0].seqno + i {
        assert (log + [e])[i] == log[i] && (log + [e])[0] == log[0];
      }
      assert (log + [e])[|log|] == e;
    }
    if Consecutive(log) {
      ConsecutiveMax(log);
    }
    MaxSeqOfAppend(log, e);
  }

  /** A record put into the file reads back after those before it. */
  lemma WriteReads(c: Codec, d: Disk, op: Op, synced: bool)
    requires Lawful(c) && ReadFile(c, d.file).Records? && d.cursor == |d.file| && Writable(c, Entry(d.top + 1, op))
    ensures var e, d' := Entry(d.top + 1, op), Next(c, d, Write(op, synced));
            && ReadFile(c, d'.file) == Records(ReadFile(c, d.file).log + [e])
            && d'.cursor == |d'.file|
            && d'.top == d.top + if synced then 1 else 0
  {
    var e := Entry(d.top + 1, op);
    ReadFileAppend(c, d.file, e);
    assert Next(c, d, Write(op, synced)).file == d.file + Frame(c, e);
  }

  lemma PutKeeps(h: History, m: nat)
    requires h.start.cursor <= |h.start.file| && m < |h.events| && Lawful(h.codec) && Keeps(h, m) && h.Puts(m)
    ensures Keeps(h, m + 1)
  {
    WriteReads(h.codec, h.At(m), h.events[m].op, h.events[m].synced);
    NextRepeats(h, m);
    NextLoose(h, m);
    AppendNumbering(h.Log(m).log, Entry(h.At(m).top + 1, h.events[m].op));
  }

  /** Anything else leaves the file as it is; a reopening finds the highest number. */
  lemma OtherReads(h: History, m: nat)
    requires h.start.cursor <= |h.start.file| && m < |h.events|
    requires !h.Puts(m) && h.Log(m).Records? && h.At(m).cursor == |h.At(m).file|
    ensures h.At(m + 1) == h.At(m).(top := if h.events[m].Reopen? then MaxSeq(h.Log(m).log) else h.At(m).top)
    ensures h.Log(m + 1) == h.Log(m)
  {
  }

  lemma OtherKeeps(h: History, m: nat)
    requires h.start.cursor <= |h.start.file| && m < |h.events| && Keeps(h, m) && !h.Puts(m)
    ensures Keeps(h, m + 1)
  {
    OtherReads(h, m);
    NextRepeats(h, m);
    NextLoose(h, m);
  }

  lemma EventKeeps(h: History, m: nat)
    requires h.start.cursor <= |h.start.file| && m < |h.events| && Lawful(h.codec) && Keeps(h, m)
    ensures Keeps(h, m + 1)
  {
    if h.Puts(m) {
      PutKeeps(h, m);
    } else {
      OtherKeeps(h, m);
    }
  }

  lemma {:induction false} HistoryKeeps(h: History, m: nat)
    requires h.Starts() && m <= |h.events|
    ensures Keeps(h, m)
  {
    if m == 0 {
      assert h.Log(0) == ReadFile(h.codec, h.start.file);
    } else {
      HistoryKeeps(h, m - 1);
      EventKeeps(h, m - 1);
    }
  }

  /**
   * Over every history the file reads well, and its records are numbered without gap or repeat exactly when
   * no record was put into it after a failed sync without a reopening in between.
   */
  lemma NumberingSurvivesIff(h: History)
    requires h.Starts()
    ensures var r := h.Log(|h.events|);
            r.Records? && (Consecutive(r.log) <==> !h.Repeats(|h.events|))
  {
    HistoryKeeps(h, |h.events|);
  }

  /** The shortest such history: after a failed sync the next record repeats the number, and the log holds both. */
  lemma FailedSyncRepeatsNumber(c: Codec, d: Disk, op1: Op, op2: Op)
    requires Lawful(c) && Healthy(c, d)
    requires Writable(c, Entry(d.top + 1, op1)) && Writable(c, Entry(d.top + 1, op2))
    ensures var d1 := Next(c, d, Write(op1, false));
            var d2 := Next(c, d1, Write(op2, true));
            && ReadFile(c, d2.file) == Records(LogOf(c, d) + [Entry(d.top + 1, op1)] + [Entry(d.top + 1, op2)])
            && Next(c, d1, Event.Reopen).top == d.top + 1
  {
    var d1 := Next(c, d, Write(op1, false));
    WriteReads(c, d, op1, false);
    WriteReads(c, d1, op2, true);
    MaxSeqOfAppend(LogOf(c, d), Entry(d.top + 1, op1));
  }
}
