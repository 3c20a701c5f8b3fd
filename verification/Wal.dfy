/** The write-ahead log: an open file with a cursor, and the highest sequence number given out. */
module Wal {
  import opened Entries
  import opened WalFormat

  // ---- The log as a value ----

  datatype Disk = Disk(file: seq<Byte>, cursor: nat, top: nat)

  /** The read loop: records accumulate until the file ends or a bad one is met. */
  function ReadOn(c: Codec, bytes: seq<Byte>, log: seq<Entry>): Contents
    decreases |bytes|
  {
    if bytes == [] then Records(log)
    else match ReadFront(c, bytes)
      case Bad(fault) => Corrupt(fault)
      case Record(e, size) => ReadOn(c, bytes[size..], log + [e])
  }

  function ReadFile(c: Codec, bytes: seq<Byte>): Contents {
    ReadOn(c, bytes, [])
  }

  lemma {:induction false} ReadOnIsParse(c: Codec, bytes: seq<Byte>, log: seq<Entry>)
    ensures ReadOn(c, bytes, log) == Prepend(log, Parse(c, bytes))
    decreases |bytes|
  {
    if bytes != [] {
      var f := ReadFront(c, bytes);
      if f.Record? {
        ReadOnIsParse(c, bytes[f.size..], log + [f.entry]);
        PrependTwice(log, [f.entry], Parse(c, bytes[f.size..]));
      }
    }
  }

  /** The accumulating loop reads a file as the format says. */
  lemma ReadFileIsParse(c: Codec, bytes: seq<Byte>)
    ensures ReadFile(c, bytes) == Parse(c, bytes)
  {
    ReadOnIsParse(c, bytes, []);
  }

  /** A file that reads well, with the cursor at its end and `top` the highest number in it. */
  ghost predicate Healthy(c: Codec, d: Disk) {
    && ReadFile(c, d.file).Records?
    && d.cursor == |d.file|
    && d.top == MaxSeq(ReadFile(c, d.file).log)
  }

  ghost function LogOf(c: Codec, d: Disk): seq<Entry>
    requires Healthy(c, d)
  {
    ReadFile(c, d.file).log
  }

  /** Writing at the cursor, which need not be the end of the file. */
  function WriteAt(file: seq<Byte>, pos: nat, data: seq<Byte>): seq<Byte>
    requires pos <= |file|
  {
    file[..pos] + data + if pos + |data| <= |file| then file[pos + |data|..] else []
  }

  /** A write replaces the bytes under it, extends the file where it reaches beyond the end, and touches no others. */
  lemma WriteAtReplaces(file: seq<Byte>, pos: nat, data: seq<Byte>)
    requires pos <= |file|
    ensures var w := WriteAt(file, pos, data);
            && |w| == Max(|file|, pos + |data|)
            && forall i :: 0 <= i < |w| ==> w[i] == if pos <= i < pos + |data| then data[i - pos] else file[i]
  {
  }

  /** Header and payload written one after the other, then the counter raised to the record's number. */
  function Written(c: Codec, d: Disk, e: Entry): Disk
    requires d.cursor <= |d.file|
  {
    if !Writable(c, e) then d
    else
      var frame := Frame(c, e);
      Disk(WriteAt(d.file, d.cursor, frame), d.cursor + |frame|, Max(d.top, e.seqno))
  }

  /** A reopened file: read from the start, cursor left at the end, counter recovered from the records. */
  function Reopened(c: Codec, d: Disk): Option<Disk> {
    match ReadFile(c, d.file)
    case Records(log) => Some(Disk(d.file, |d.file|, MaxSeq(log)))
    case Corrupt(_) => None
  }

  lemma ReadFileAppend(c: Codec, file: seq<Byte>, e: Entry)
    requires Lawful(c) && Writable(c, e) && ReadFile(c, file).Records?
    ensures ReadFile(c, file + Frame(c, e)) == Records(ReadFile(c, file).log + [e])
  {
    ReadFileIsParse(c, file);
    ReadFileIsParse(c, file + Frame(c, e));
    ParseAppend(c, file, e);
  }

  /** Writing to a healthy log appends exactly the record, or nothing if it cannot be encoded. */
  lemma WrittenAppends(c: Codec, d: Disk, e: Entry)
    requires Lawful(c) && Healthy(c, d)
    ensures var d' := Written(c, d, e);
            && Healthy(c, d')
            && LogOf(c, d') == if Writable(c, e) then LogOf(c, d) + [e] else LogOf(c, d)
  {
    if Writable(c, e) {
      ReadFileAppend(c, d.file, e);
      assert Written(c, d, e).file == d.file + Frame(c, e);
      MaxSeqOfAppend(LogOf(c, d), e);
    }
  }

  /** Everything a process does with its log; `Reopen` is a close followed by an open. */
  datatype Action = Append(op: Op) | AppendReplicated(entry: Entry) | ReadAll | Reopen

  /** The effect of an action; a log that fails to reopen is `None`, as is anything after it. */
  function Act(c: Codec, d: Disk, a: Action): Option<Disk>
    requires d.cursor <= |d.file|
  {
    match a
    case Append(op) => Some(Written(c, d, Entry(d.top + 1, op)))
    case AppendReplicated(e) => Some(Written(c, d, e))
    case ReadAll => if ReadFile(c, d.file).Records? then Some(d.(cursor := |d.file|)) else Some(d)
    case Reopen => Reopened(c, d)
  }

  /** The records an action should leave behind, said without bytes. */
  ghost function ExpectedOne(c: Codec, log: seq<Entry>, a: Action): seq<Entry> {
    if a.Append? && Writable(c, Entry(MaxSeq(log) + 1, a.op)) then log + [Entry(MaxSeq(log) + 1, a.op)]
    else if a.AppendReplicated? && Writable(c, a.entry) then log + [a.entry]
    else log
  }

  ghost function Expected(c: Codec, log: seq<Entry>, history: seq<Action>): seq<Entry>
    decreases history
  {
    if history == [] then log else Expected(c, ExpectedOne(c, log, history[0]), history[1..])
  }

  ghost function ActAll(c: Codec, d: Disk, history: seq<Action>): Option<Disk>
    requires d.cursor <= |d.file|
    decreases history
  {
    if history == [] then Some(d)
    else
      var d' := Act(c, d, history[0]);
      if d'.None? then None
      else if d'.value.cursor > |d'.value.file| then None
      else ActAll(c, d'.value, history[1..])
  }

  lemma ActKeepsHealthy(c: Codec, d: Disk, a: Action)
    requires Lawful(c) && Healthy(c, d)
    ensures var r := Act(c, d, a);
            && r.Some? && Healthy(c, r.value)
            && LogOf(c, r.value) == ExpectedOne(c, LogOf(c, d), a)
  {
    if a.Append? {
      assert Act(c, d, a) == Some(Written(c, d, Entry(d.top + 1, a.op)));
      WrittenAppends(c, d, Entry(d.top + 1, a.op));
    } else if a.AppendReplicated? {
      WrittenAppends(c, d, a.entry);
    } else {
      assert Act(c, d, a) == Some(d);
    }
  }

  lemma NextIsAbove(c: Codec, d: Disk, i: nat)
    requires Healthy(c, d) && i < |LogOf(c, d)|
    ensures LogOf(c, d)[i].seqno < d.top + 1
  {
    MaxUpToIsUpperBound(LogOf(c, d), |LogOf(c, d)|, i);
  }

  /**
   * Over every interleaving of appends, replicated appends, reads and reopenings, the log opens, reads
   * back as exactly what was appended in order, keeps its cursor at the end, keeps the counter that a
   * reopening would recover, and will number its next record above every record in the file.
   */
  lemma {:induction false} RoundTripOverHistory(c: Codec, d: Disk, history: seq<Action>)
    requires Lawful(c) && Healthy(c, d)
    ensures var r := ActAll(c, d, history);
            && r.Some? && Healthy(c, r.value)
            && LogOf(c, r.value) == Expected(c, LogOf(c, d), history)
            && Reopened(c, r.value) == r
            && forall i :: 0 <= i < |LogOf(c, r.value)| ==> LogOf(c, r.value)[i].seqno < r.value.top + 1
    decreases history
  {
    if history == [] {
      forall i | 0 <= i < |LogOf(c, d)| ensures LogOf(c, d)[i].seqno < d.top + 1 {
        NextIsAbove(c, d, i);
      }
    } else {
      ActKeepsHealthy(c, d, history[0]);
      RoundTripOverHistory(c, Act(c, d, history[0]).value, history[1..]);
    }
  }

  // ---- Failing disks ----

  /** What the disk does to a write: nothing wrong, fails after some bytes of the frame, or fails in the sync. */
  datatype Io = Fine | Torn(written: nat) | Unsynced

  predicate Stored(c: Codec, e: Entry, io: Io) {
    Writable(c, e) && (io.Fine? || (io.Torn? && io.written >= |Frame(c, e)|))
  }

  /** A write that fails leaves its bytes in the file and takes the counter back. */
  function Attempted(c: Codec, d: Disk, e: Entry, io: Io): (d': Disk)
    requires d.cursor <= |d.file|
    ensures d'.cursor <= |d'.file|
  {
    if !Writable(c, e) || Stored(c, e, io) then Written(c, d, e)
    else if io.Unsynced? then Written(c, d, e).(top := d.top)
    else
      var part := Frame(c, e)[..io.written];
      Disk(WriteAt(d.file, d.cursor, part), d.cursor + |part|, d.top)
  }

  /**
   * What a healthy log reads as after a write with any outcome: a failed sync leaves the record there, and a
   * write that failed half-way leaves a file that does not open.
   */
  lemma AttemptReads(c: Codec, d: Disk, e: Entry, io: Io)
    requires Lawful(c) && Healthy(c, d)
    ensures ReadFile(c, Attempted(c, d, e, io).file) ==
              if !Writable(c, e) then Records(LogOf(c, d))
              else if Stored(c, e, io) || io.Unsynced? then Records(LogOf(c, d) + [e])
              else if io.written == 0 then Records(LogOf(c, d))
              else Corrupt(Truncated)
  {
    if Writable(c, e) {
      WrittenAppends(c, d, e);
      if io.Torn? && !Stored(c, e, io) {
        var file := d.file + Frame(c, e)[..io.written];
        assert Attempted(c, d, e, io).file == file;
        ReadFileIsParse(c, d.file);
        ReadFileIsParse(c, file);
        TornAppend(c, d.file, LogOf(c, d), e, io.written);
      }
    }
  }

  /** What a failed write leaves behind: its bytes at the end of the file, the cursor after them, and the old counter. */
  lemma FailedWriteLeaves(c: Codec, d: Disk, e: Entry, io: Io)
    requires d.cursor == |d.file| && Writable(c, e) && !Stored(c, e, io)
    ensures var part := if io.Unsynced? then Frame(c, e) else Frame(c, e)[..io.written];
            Attempted(c, d, e, io) == Disk(d.file + part, |d.file| + |part|, d.top)
  {
  }

  // ---- The log as an object ----

  class Log {
    const codec: Codec
    var file: seq<Byte>
    var cursor: nat
    var top: nat
    /** What the file reads as. */
    ghost var records: seq<Entry>

    ghost function View(): Disk
      reads this
    {
      Disk(file, cursor, top)
    }

    ghost predicate Valid()
      reads this
    {
      Lawful(codec) && Healthy(codec, View()) && records == LogOf(codec, View())
    }

    constructor (codec: Codec, file: seq<Byte>)
      ensures this.codec == codec && this.file == file && cursor == 0 && top == 0
    {
      this.codec, this.file, this.cursor, this.top := codec, file, 0, 0;
    }

    static method Open(codec: Codec, file: seq<Byte>) returns (r: Option<Log>)
      requires Lawful(codec)
      ensures r.Some? <==> ReadFile(codec, file).Records?
      ensures r.Some? ==> fresh(r.value) && r.value.codec == codec && r.value.file == file
      ensures r.Some? ==> r.value.Valid() && r.value.records == ReadFile(codec, file).log
    {
      var l := new Log(codec, file);
      var ok := l.RecoverSeq();
      r := if ok then Some(l) else None;
    }

    method RecoverSeq() returns (ok: bool)
      modifies this`cursor, this`top, this`records
      ensures ok == ReadFile(codec, file).Records?
      ensures ok ==> cursor == |file| && records == ReadFile(codec, file).log && top == Max(old(top), MaxSeq(ReadFile(codec, file).log))
    {
      var r := ReadAll();
      ok := r.Records?;
      if ok {
        var i := 0;
        while i < |r.log|
          modifies this`top
          invariant i <= |r.log|
          invariant top == Max(old(top), MaxSeq(r.log[..i]))
        {
          assert r.log[..i + 1] == r.log[..i] + [r.log[i]];
          MaxSeqOfAppend(r.log[..i], r.log[i]);
          if r.log[i].seqno > top {
            top := r.log[i].seqno;
          }
          i := i + 1;
        }
        assert r.log[..i] == r.log;
        records := r.log;
      }
    }

    /** io.ReadFull: exactly `n` bytes from the cursor, or nothing. */
    method ReadFull(n: nat) returns (data: Option<seq<Byte>>)
      requires cursor <= |file|
      modifies this`cursor
      ensures old(cursor) + n <= |file| ==> data == Some(file[old(cursor)..old(cursor) + n]) && cursor == old(cursor) + n
      ensures old(cursor) + n > |file| ==> data == None && cursor == |file|
    {
      if cursor + n <= |file| {
        data := Some(file[cursor..cursor + n]);
        cursor := cursor + n;
      } else {
        data := None;
        cursor := |file|;
      }
    }

    /** Reads the file from the start; the first bad record makes the whole read fail. */
    method ReadAll() returns (r: Contents)
      modifies this`cursor
      ensures r == ReadFile(codec, file)
      ensures r.Records? ==> cursor == |file|
    {
      cursor := 0;
      var log := [];
      assert file[0..] == file;
      while cursor < |file|
        invariant cursor <= |file|
        invariant ReadFile(codec, file) == ReadOn(codec, file[cursor..], log)
        decreases |file| - cursor
      {
        ghost var rest := file[cursor..];
        ghost var start := cursor;
        var header := ReadFull(4);
        if header.None? { return Corrupt(Truncated); }
        assert header.value == rest[..4];
        var size := HeaderValue(header.value);
        if size == 0 { return Corrupt(ZeroSize); }
        var data := ReadFull(size);
        if data.None? { return Corrupt(Truncated); }
        assert data.value == rest[4..4 + size];
        var entry := codec.unmarshal(data.value);
        if entry.None? { return Corrupt(Malformed); }
        assert rest[4 + size..] == file[cursor..];
        log := log + [entry.value];
      }
      assert file[cursor..] == [];
      r := Contents.Records(log);
    }

    /** A write at the cursor. */
    method Write(data: seq<Byte>)
      requires cursor <= |file|
      modifies this`file, this`cursor
      ensures file == WriteAt(old(file), old(cursor), data) && cursor == old(cursor) + |data| <= |file|
    {
      file := file[..cursor] + data + if cursor + |data| <= |file| then file[cursor + |data|..] else [];
      cursor := cursor + |data|;
    }

    /** Encodes a record and writes its header and its payload; the counter is left to the caller. */
    method WriteRecord(e: Entry, io: Io) returns (ok: bool)
      requires cursor <= |file| && e.seqno > 0
      modifies this`file, this`cursor
      ensures ok == Stored(codec, e, io)
      ensures file == Attempted(codec, old(View()), e, io).file && cursor == Attempted(codec, old(View()), e, io).cursor
    {
      var data := codec.marshal(e);
      if data.None? { return false; }
      var header := Header(|data.value|);
      if io.Torn? && io.written < 4 {
        assert Frame(codec, e)[..io.written] == header[..io.written];
        Write(header[..io.written]);
        return false;
      }
      ghost var start, at := file, cursor;
      Write(header);
      if io.Torn? && io.written < 4 + |data.value| {
        var part := data.value[..io.written - 4];
        assert Frame(codec, e)[..io.written] == header + part;
        WritesJoin(start, at, header, part);
        Write(part);
        return false;
      }
      WritesJoin(start, at, header, data.value);
      Write(data.value);
      return !io.Unsynced?;
    }

    /** Writes a numbered record, and raises the counter to its number if nothing failed. */
    method Store(e: Entry, io: Io) returns (ok: bool)
      requires Valid() && e.seqno > 0
      modifies this
      ensures View() == Attempted(codec, old(View()), e, io)
      ensures ok == Stored(codec, e, io)
      ensures ok || !Writable(codec, e) ==> Valid()
      ensures records == if ok then old(records) + [e] else old(records)
    {
      WrittenAppends(codec, View(), e);
      ok := WriteRecord(e, io);
      if ok {
        records := records + [e];
        if e.seqno > top {
          top := e.seqno;
        }
      }
    }

    /** Writes a record that already has a number; a record numbered 0 is refused. */
    method AppendReplicated(e: Entry, io: Io) returns (ok: bool)
      requires Valid()
      modifies this
      ensures ok == Stored(codec, e, io)
      ensures View() == Attempted(codec, old(View()), e, io)
      ensures ok || !Writable(codec, e) ==> Valid()
      ensures records == if ok then old(records) + [e] else old(records)
    {
      if e.seqno == 0 { return false; }
      ok := Store(e, io);
    }

    /** Gives a new record the next number and writes it; `None` when it cannot be encoded or the disk fails. */
    method Append(op: Op, io: Io) returns (seqno: Option<nat>)
      requires Valid()
      modifies this
      ensures var e := Entry(MaxSeq(old(records)) + 1, op);
              && (seqno.Some? || !Writable(codec, e) ==> Valid())
              && seqno == (if Stored(codec, e, io) then Some(e.seqno) else None)
              && View() == Attempted(codec, old(View()), e, io)
              && records == if Stored(codec, e, io) then old(records) + [e] else old(records)
    {
      var e := Entry(top + 1, op);
      var ok := Store(e, io);
      seqno := if ok then Some(e.seqno) else None;
    }

    method LastSeq() returns (seqno: nat)
      requires Valid()
      ensures seqno == MaxSeq(records)
    {
      seqno := top;
    }
  }

  /** Two writes in a row are one write of both. */
  lemma WritesJoin(file: seq<Byte>, pos: nat, a: seq<Byte>, b: seq<Byte>)
    requires pos <= |file|
    ensures pos + |a| <= |WriteAt(file, pos, a)|
    ensures WriteAt(WriteAt(file, pos, a), pos + |a|, b) == WriteAt(file, pos, a + b)
  {
    var w := WriteAt(file, pos, a);
    assert w[..pos + |a|] == file[..pos] + a;
    if pos + |a| + |b| <= |file| {
      assert w[pos + |a| + |b|..] == file[pos + |a| + |b|..];
    }
  }
}
