/** The bytes of a log file: length-prefixed records, how they are read back, and what a torn file reads as. */
module WalFormat {
  import opened Entries

  type Byte = b: int | 0 <= b < 256

  /** The payload codec, here a parameter. Encoding may fail, as proto.Marshal may. */
  datatype Codec = Codec(marshal: Entry -> Option<seq<Byte>>, unmarshal: seq<Byte> -> Option<Entry>)

  const SIZE_LIMIT := 0x1_0000_0000

  /** What the log relies on: numbered records encode to something non-empty that decodes back. */
  ghost predicate Lawful(c: Codec) {
    forall e: Entry :: c.marshal(e).Some? && e.seqno > 0 ==>
      && 0 < |c.marshal(e).value| < SIZE_LIMIT
      && c.unmarshal(c.marshal(e).value) == Some(e)
  }

  predicate Writable(c: Codec, e: Entry) {
    e.seqno > 0 && c.marshal(e).Some?
  }

  ghost predicate AllWritable(c: Codec, log: seq<Entry>) {
    forall i :: 0 <= i < |log| ==> Writable(c, log[i])
  }

  /** binary.BigEndian.PutUint32 of a length, which keeps the low 32 bits. */
  function Header(size: nat): (h: seq<Byte>)
    ensures |h| == 4
  {
    [size / 0x100_0000 % 0x100, size / 0x1_0000 % 0x100, size / 0x100 % 0x100, size % 0x100]
  }

  function HeaderValue(h: seq<Byte>): nat
    requires |h| == 4
  {
    h[0] as int * 0x100_0000 + h[1] as int * 0x1_0000 + h[2] as int * 0x100 + h[3] as int
  }

  lemma HeaderRoundTrip(size: nat)
    requires size < SIZE_LIMIT
    ensures HeaderValue(Header(size)) == size
  {
    assert size / 0x1_0000 == (size / 0x100) / 0x100;
    assert size / 0x100_0000 == (size / 0x1_0000) / 0x100;
  }

  /** The header is the length in base 256, most significant byte first. */
  lemma HeaderIsBigEndian(size: nat)
    requires size < SIZE_LIMIT
    ensures var h := Header(size);
            h[0] as int * 0x100_0000 + h[1] as int * 0x1_0000 + h[2] as int * 0x100 + h[3] as int == size
  {
    assert size / 0x1_0000 == (size / 0x100) / 0x100;
    assert size / 0x100_0000 == (size / 0x1_0000) / 0x100;
  }

  /** One record on disk. */
  function Frame(c: Codec, e: Entry): (f: seq<Byte>)
    requires Writable(c, e)
    ensures |f| >= 4
  {
    var data := c.marshal(e).value;
    Header(|data|) + data
  }

  /** The file that writing `log` record by record produces. */
  ghost function Frames(c: Codec, log: seq<Entry>): seq<Byte>
    requires AllWritable(c, log)
  {
    if log == [] then [] else Frame(c, log[0]) + Frames(c, log[1..])
  }

  datatype Fault = Truncated | ZeroSize | Malformed

  datatype Contents = Records(log: seq<Entry>) | Corrupt(fault: Fault)

  /** The outcome of reading one record at the front of `bytes`. */
  datatype Front = Record(entry: Entry, size: nat) | Bad(fault: Fault)

  function ReadFront(c: Codec, bytes: seq<Byte>): (f: Front)
    requires bytes != []
    ensures f.Record? ==> 4 < f.size <= |bytes|
  {
    if |bytes| < 4 then Bad(Truncated)
    else
      var size := HeaderValue(bytes[..4]);
      if size == 0 then Bad(ZeroSize)
      else if |bytes| < 4 + size then Bad(Truncated)
      else match c.unmarshal(bytes[4..4 + size])
        case None => Bad(Malformed)
        case Some(e) => Record(e, 4 + size)
  }

  /** What a whole file holds. */
  function Parse(c: Codec, bytes: seq<Byte>): Contents {
    if bytes == [] then Records([])
    else match ReadFront(c, bytes)
      case Bad(fault) => Corrupt(fault)
      case Record(e, size) => Prepend([e], Parse(c, bytes[size..]))
  }

  function Prepend(log: seq<Entry>, rest: Contents): Contents {
    if rest.Records? then Records(log + rest.log) else rest
  }

  lemma ReadFrontOfFrame(c: Codec, e: Entry, rest: seq<Byte>)
    requires Lawful(c) && Writable(c, e)
    ensures var frame := Frame(c, e);
            ReadFront(c, frame + rest) == Record(e, |frame|)
  {
    var data := c.marshal(e).value;
    var bytes := Frame(c, e) + rest;
    HeaderRoundTrip(|data|);
    assert bytes[..4] == Header(|data|);
    assert bytes[4..4 + |data|] == data;
  }

  /** A record that could be read is read the same when more bytes follow. */
  lemma FrontIgnoresRest(c: Codec, a: seq<Byte>, b: seq<Byte>)
    requires a != [] && ReadFront(c, a).Record?
    ensures ReadFront(c, a + b) == ReadFront(c, a)
  {
    var size := ReadFront(c, a).size;
    assert (a + b)[..4] == a[..4];
    assert (a + b)[4..size] == a[4..size];
  }

  /** Reading goes on after a readable file as it would at the start of one. */
  lemma {:induction false} ParseConcat(c: Codec, a: seq<Byte>, b: seq<Byte>)
    requires Parse(c, a).Records?
    ensures Parse(c, a + b) == Prepend(Parse(c, a).log, Parse(c, b))
    decreases |a|
  {
    if a == [] {
      assert a + b == b;
    } else {
      var f := ReadFront(c, a);
      var rest := a[f.size..];
      ParseConcat(c, rest, b);
      ParseAfter(c, a, b, f.entry, f.size);
      PrependTwice([f.entry], Parse(c, rest).log, Parse(c, b));
    }
  }

  lemma ParseAfter(c: Codec, a: seq<Byte>, b: seq<Byte>, e: Entry, size: nat)
    requires a != [] && ReadFront(c, a) == Record(e, size)
    ensures Parse(c, a + b) == Prepend([e], Parse(c, a[size..] + b))
  {
    FrontIgnoresRest(c, a, b);
    assert (a + b)[size..] == a[size..] + b;
  }

  lemma PrependTwice(x: seq<Entry>, y: seq<Entry>, rest: Contents)
    ensures Prepend(x, Prepend(y, rest)) == Prepend(x + y, rest)
  {
    if rest.Records? {
      assert x + (y + rest.log) == (x + y) + rest.log;
    }
  }

  lemma ParseFrame(c: Codec, e: Entry, rest: seq<Byte>)
    requires Lawful(c) && Writable(c, e)
    ensures Parse(c, Frame(c, e) + rest) == Prepend([e], Parse(c, rest))
  {
    ReadFrontOfFrame(c, e, rest);
    assert (Frame(c, e) + rest)[|Frame(c, e)|..] == rest;
  }

  /** Appending one frame to any readable file appends one record to what it reads as. */
  lemma ParseAppend(c: Codec, bytes: seq<Byte>, e: Entry)
    requires Lawful(c) && Writable(c, e) && Parse(c, bytes).Records?
    ensures Parse(c, bytes + Frame(c, e)) == Records(Parse(c, bytes).log + [e])
  {
    assert Frame(c, e) + [] == Frame(c, e);
    ParseFrame(c, e, []);
    ParseConcat(c, bytes, Frame(c, e));
  }

  /** Every written file reads back as exactly the records written, in order. */
  lemma {:induction false} RoundTrip(c: Codec, log: seq<Entry>)
    requires Lawful(c) && AllWritable(c, log)
    ensures Parse(c, Frames(c, log)) == Records(log)
  {
    if log != [] {
      ParseFrame(c, log[0], Frames(c, log[1..]));
      RoundTrip(c, log[1..]);
    }
  }

  /** A frame is the payload behind its own length in four bytes. */
  lemma FrameLayout(c: Codec, e: Entry)
    requires Lawful(c) && Writable(c, e)
    ensures var f := Frame(c, e);
            && c.marshal(e) == Some(f[4..])
            && f[0] as int * 0x100_0000 + f[1] as int * 0x1_0000 + f[2] as int * 0x100 + f[3] as int == |f| - 4
  {
    HeaderIsBigEndian(|c.marshal(e).value|);
  }

  /**
   * What a readable file followed by something unreadable is refused as: a zero length as such, a payload that
   * does not decode as malformed.
   */
  lemma RefusedAs(c: Codec, file: seq<Byte>, data: seq<Byte>, rest: seq<Byte>)
    requires Parse(c, file).Records? && |data| < SIZE_LIMIT
    ensures Parse(c, file + ([0, 0, 0, 0] + rest)) == Corrupt(ZeroSize)
    ensures data != [] && c.unmarshal(data) == None ==>
              Parse(c, file + (Header(|data|) + data + rest)) == Corrupt(Malformed)
  {
    var zero: seq<Byte> := [0, 0, 0, 0];
    ParseConcat(c, file, zero + rest);
    assert (zero + rest)[..4] == zero;
    var frame := Header(|data|) + data + rest;
    ParseConcat(c, file, frame);
    HeaderRoundTrip(|data|);
    assert frame[..4] == Header(|data|) && frame[4..4 + |data|] == data;
  }

  // ---- Torn files ----

  /** `cut` falls right after the first `j` records. */
  ghost predicate Boundary(c: Codec, log: seq<Entry>, cut: nat, j: nat)
    requires AllWritable(c, log)
  {
    j <= |log| && cut == |Frames(c, log[..j])|
  }

  lemma {:induction false} FramesSplit(c: Codec, log: seq<Entry>, j: nat)
    requires AllWritable(c, log) && j <= |log|
    ensures Frames(c, log) == Frames(c, log[..j]) + Frames(c, log[j..])
  {
    if j > 0 {
      FramesSplit(c, log[1..], j - 1);
      assert log[..j][1..] == log[1..][..j - 1] && log[1..][j - 1..] == log[j..];
    } else {
      assert log[0..] == log;
    }
  }

  /** Cut on a frame boundary, a written file reads as exactly the records before the cut. */
  lemma CutOnBoundary(c: Codec, log: seq<Entry>, cut: nat, j: nat)
    requires Lawful(c) && AllWritable(c, log) && Boundary(c, log, cut, j)
    ensures cut <= |Frames(c, log)|
    ensures Parse(c, Frames(c, log)[..cut]) == Records(log[..j])
  {
    FramesSplit(c, log, j);
    assert Frames(c, log)[..cut] == Frames(c, log[..j]);
    RoundTrip(c, log[..j]);
  }

  /** A cut inside the first frame reads as truncated. */
  lemma CutInsideFirst(c: Codec, e: Entry, rest: seq<Byte>, cut: nat)
    requires Lawful(c) && Writable(c, e)
    requires 0 < cut < |Frame(c, e)|
    ensures Parse(c, (Frame(c, e) + rest)[..cut]) == Corrupt(Truncated)
  {
    var data := c.marshal(e).value;
    var bytes := (Frame(c, e) + rest)[..cut];
    if cut >= 4 {
      HeaderRoundTrip(|data|);
      assert bytes[..4] == Header(|data|);
    }
  }

  /** Cut anywhere else, it is refused as truncated; no other fault, and no shorter log, is ever reported. */
  lemma {:induction false} CutOffBoundary(c: Codec, log: seq<Entry>, cut: nat)
    requires Lawful(c) && AllWritable(c, log) && cut <= |Frames(c, log)|
    requires forall j: nat :: j <= |log| ==> !Boundary(c, log, cut, j)
    ensures Parse(c, Frames(c, log)[..cut]) == Corrupt(Truncated)
    decreases log
  {
    assert !Boundary(c, log, cut, 0);
    var frame, rest := Frame(c, log[0]), Frames(c, log[1..]);
    if cut < |frame| {
      CutInsideFirst(c, log[0], rest, cut);
    } else {
      var cut' := cut - |frame|;
      forall j: nat | j <= |log[1..]| ensures !Boundary(c, log[1..], cut', j) {
        assert !Boundary(c, log, cut, j + 1);
        assert log[..j + 1][1..] == log[1..][..j];
      }
      CutOffBoundary(c, log[1..], cut');
      assert (frame + rest)[..cut] == frame + rest[..cut'];
      ParseFrame(c, log[0], rest[..cut']);
    }
  }

  /**
   * A process that dies while appending to a readable file leaves some bytes of the new frame. The file
   * opens again exactly when none or all of them reached the disk.
   */
  lemma TornAppend(c: Codec, file: seq<Byte>, log: seq<Entry>, e: Entry, written: nat)
    requires Lawful(c) && Parse(c, file) == Records(log) && Writable(c, e) && written <= |Frame(c, e)|
    ensures Parse(c, file + Frame(c, e)[..written]) ==
              if written == 0 then Records(log)
              else if written == |Frame(c, e)| then Records(log + [e])
              else Corrupt(Truncated)
  {
    ParseConcat(c, file, Frame(c, e)[..written]);
    if written == |Frame(c, e)| {
      assert Frame(c, e)[..written] == Frame(c, e);
      ParseAppend(c, file, e);
    } else if written > 0 {
      assert Frame(c, e) + [] == Frame(c, e);
      CutInsideFirst(c, e, [], written);
    }
  }
}
