/** The standby's side of replication as a value: its log, the last number it acknowledged, and the fence. */
module InboundSpec {
  import opened Entries

  datatype Backup = Backup(log: seq<Entry>, last: nat, accepting: bool)

  datatype Answer = Answer(backup: Backup, ok: bool)

  /**
   * One Replicate call, run under the handler's mutex. `stored` tells whether the log could take the
   * record, should the handler get as far as writing it.
   */
  function Accept(b: Backup, e: Entry, stored: bool): Answer {
    if !b.accepting then Answer(b, false)
    else if e.seqno <= b.last then Answer(b, true)
    else if b.last > 0 && e.seqno != b.last + 1 then Answer(b, false)
    else if !stored then Answer(b, false)
    else Answer(b.(log := b.log + [e], last := e.seqno), true)
  }

  /** A handler started over an existing log. */
  function Opened(log: seq<Entry>): Backup {
    Backup(log, MaxSeq(log), true)
  }

  /** Anything that can reach the handler: a message (possibly without an entry), a restart, the fence. */
  datatype Input = Message(entry: Option<Entry>, stored: bool) | Restart | Stop

  function Consume(b: Backup, input: Input): Backup {
    match input
    case Message(None, _) => b
    case Message(Some(e), stored) => Accept(b, e, stored).backup
    case Restart => Opened(b.log)
    case Stop => b.(accepting := false)
  }

  function Drive(b: Backup, inputs: seq<Input>): Backup
    decreases inputs
  {
    if inputs == [] then b else Drive(Consume(b, inputs[0]), inputs[1..])
  }

  /** A fenced handler changes nothing any more, whatever messages still arrive, until it is restarted. */
  lemma {:induction false} FencedStaysAsItIs(b: Backup, inputs: seq<Input>)
    requires !b.accepting && forall i :: 0 <= i < |inputs| ==> !inputs[i].Restart?
    ensures Drive(b, inputs) == b
    decreases inputs
  {
    if inputs != [] {
      assert !inputs[0].Restart? && Consume(b, inputs[0]) == b;
      FencedStaysAsItIs(b, inputs[1..]);
    }
  }

  /** The log has no gap and no repeat, and the handler remembers its last number. */
  ghost predicate Numbered(b: Backup) {
    && Consecutive(b.log)
    && b.last == LastSeq(b.log)
    && (b.log != [] ==> b.log[0].seqno > 0)
  }

  lemma ConsumeKeepsNumbered(b: Backup, input: Input)
    requires Numbered(b)
    ensures Numbered(Consume(b, input))
    ensures b.log <= Consume(b, input).log
  {
    ConsecutiveMax(b.log);
  }

  /**
   * Whatever reaches the handler, the log only grows, stays consecutive, and `last` stays the log's
   * own highest number; the record a promoted node then appends continues the same numbering.
   */
  lemma {:induction false} ConsecutiveUnderAnyInput(b: Backup, inputs: seq<Input>, op: Op)
    requires Numbered(b)
    ensures var b' := Drive(b, inputs);
            && Numbered(b') && b'.last == MaxSeq(b'.log)
            && b.log <= b'.log
            && Consecutive(b'.log + [Entry(MaxSeq(b'.log) + 1, op)])
    decreases inputs
  {
    ConsecutiveMax(b.log);
    if inputs != [] {
      ConsumeKeepsNumbered(b, inputs[0]);
      ConsecutiveUnderAnyInput(Consume(b, inputs[0]), inputs[1..], op);
    }
  }

  // ---- What is answered, and how ----

  /**
   * The answers of a numbered handler. Behind the fence nothing is acknowledged. In front of it, a record the log
   * already reaches is acknowledged and changes nothing; the next one (on an empty log any one) is stored and
   * acknowledged if the log can take it; everything else is refused and changes nothing.
   */
  lemma AnswersIff(b: Backup, e: Entry, stored: bool)
    requires Numbered(b)
    ensures var a := Accept(b, e, stored);
            var held, next := e.seqno <= LastSeq(b.log), b.log == [] || e.seqno == LastSeq(b.log) + 1;
            && (a.ok <==> b.accepting && (held || (next && stored)))
            && a.backup.log == (if a.ok && !held then b.log + [e] else b.log)
            && a.backup.last == (if a.ok && !held then e.seqno else b.last)
            && a.backup.accepting == b.accepting
  {
  }

  lemma {:induction false} DriveConcat(b: Backup, x: seq<Input>, y: seq<Input>)
    ensures Drive(b, x + y) == Drive(Drive(b, x), y)
    decreases x
  {
    if x == [] {
      assert x + y == y;
    } else {
      assert (x + y)[1..] == x[1..] + y;
      DriveConcat(Consume(b, x[0]), x[1..], y);
    }
  }

  lemma DriveSnoc(b: Backup, inputs: seq<Input>, input: Input)
    ensures Drive(b, inputs + [input]) == Consume(Drive(b, inputs), input)
  {
    DriveConcat(b, inputs, [input]);
    assert [input][1..] == [];
    assert Drive(Consume(Drive(b, inputs), input), []) == Consume(Drive(b, inputs), input);
  }

  /** A handler opened over any log takes the record that follows its highest number, and goes on accepting. */
  lemma OpenedTakesNext(log: seq<Entry>, op: Op)
    ensures var e := Entry(MaxSeq(log) + 1, op);
            && Accept(Opened(log), e, true) == Answer(Backup(log + [e], e.seqno, true), true)
            && Opened(log).log == log
  {
  }

  /** So does a handler that is restarted, whatever reached it before. */
  lemma RestartedTakesNext(b: Backup, inputs: seq<Input>, op: Op)
    ensures var b' := Drive(b, inputs + [Restart]);
            var e := Entry(MaxSeq(b'.log) + 1, op);
            && b'.log == Drive(b, inputs).log
            && Accept(b', e, true) == Answer(Backup(b'.log + [e], e.seqno, true), true)
  {
    DriveSnoc(b, inputs, Restart);
    OpenedTakesNext(Drive(b, inputs).log, op);
  }

  /** Once fenced, whatever reached it before, a handler keeps its log and acknowledges nothing until it is restarted. */
  lemma StopFences(b: Backup, before: seq<Input>, after: seq<Input>, e: Entry, stored: bool)
    requires forall i :: 0 <= i < |after| ==> !after[i].Restart?
    ensures var b' := Drive(b, before + [Stop] + after);
            && b'.log == Drive(b, before).log
            && Accept(b', e, stored) == Answer(b', false)
  {
    DriveConcat(b, before + [Stop], after);
    DriveSnoc(b, before, Stop);
    FencedStaysAsItIs(Drive(b, before + [Stop]), after);
  }
}
