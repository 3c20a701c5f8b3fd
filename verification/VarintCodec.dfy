/** One concrete payload codec, built from base-128 varints, showing that the codec law can be met. */
module VarintCodec {
  import opened Entries
  import opened WalFormat

  /** A value decoded from the front of some bytes, and the bytes after it. */
  datatype Decoded<+T> = Got(value: T, rest: seq<Byte>) | Fail

  function Varint(n: nat): (b: seq<Byte>)
    ensures |b| > 0
  {
    if n < 128 then [n] else [128 + n % 128] + Varint(n / 128)
  }

  function ReadVarint(b: seq<Byte>): (d: Decoded<nat>)
    ensures d.Got? ==> |d.rest| < |b|
  {
    if b == [] then Fail
    else if b[0] < 128 then Got(b[0], b[1..])
    else match ReadVarint(b[1..])
      case Fail => Fail
      case Got(n, rest) => Got(n * 128 + (b[0] - 128), rest)
  }

  lemma {:induction false} VarintRoundTrip(n: nat, rest: seq<Byte>)
    ensures ReadVarint(Varint(n) + rest) == Got(n, rest)
  {
    var b := Varint(n) + rest;
    if n >= 128 {
      VarintRoundTrip(n / 128, rest);
      assert b[1..] == Varint(n / 128) + rest;
    } else {
      assert b[1..] == rest;
    }
  }

  /** Signed numbers alternate around zero, so that -1 stays short. */
  function ZigZag(z: int): nat {
    if z >= 0 then 2 * z else -2 * z - 1
  }

  function UnZigZag(n: nat): int {
    if n % 2 == 0 then n / 2 else -(n / 2) - 1
  }

  function Chars(s: string): seq<Byte> {
    if s == [] then [] else Varint(s[0] as int) + Chars(s[1..])
  }

  function ReadChars(count: nat, b: seq<Byte>): Decoded<string> {
    if count == 0 then Got("", b)
    else match ReadVarint(b)
      case Fail => Fail
      case Got(n, rest) =>
        if !(n < 0xD800 || 0xE000 <= n < 0x11_0000) then Fail
        else match ReadChars(count - 1, rest)
          case Fail => Fail
          case Got(s, rest') => Got([n as char] + s, rest')
  }

  lemma {:induction false} CharsRoundTrip(s: string, rest: seq<Byte>)
    ensures ReadChars(|s|, Chars(s) + rest) == Got(s, rest)
  {
    if s == [] {
      assert Chars(s) + rest == rest;
    } else {
      var more := Chars(s[1..]) + rest;
      assert Chars(s) + rest == Varint(s[0] as int) + more;
      VarintRoundTrip(s[0] as int, more);
      CharsRoundTrip(s[1..], rest);
      assert s == [s[0]] + s[1..];
    }
  }

  function Text(s: string): seq<Byte> {
    Varint(|s|) + Chars(s)
  }

  function ReadText(b: seq<Byte>): Decoded<string> {
    match ReadVarint(b)
    case Fail => Fail
    case Got(n, rest) => ReadChars(n, rest)
  }

  lemma TextRoundTrip(s: string, rest: seq<Byte>)
    ensures ReadText(Text(s) + rest) == Got(s, rest)
  {
    assert Text(s) + rest == Varint(|s|) + (Chars(s) + rest);
    VarintRoundTrip(|s|, Chars(s) + rest);
    CharsRoundTrip(s, rest);
  }

  /** Address and port, common to the three operations. */
  function Client(ip: string, port: nat): seq<Byte> {
    Text(ip) + Varint(port)
  }

  function ReadClient(b: seq<Byte>): Decoded<(string, nat)> {
    match ReadText(b)
    case Fail => Fail
    case Got(ip, rest) =>
      match ReadVarint(rest)
      case Fail => Fail
      case Got(port, rest') => Got((ip, port), rest')
  }

  lemma ClientRoundTrip(ip: string, port: nat, rest: seq<Byte>)
    ensures ReadClient(Client(ip, port) + rest) == Got((ip, port), rest)
  {
    assert Client(ip, port) + rest == Text(ip) + (Varint(port) + rest);
    TextRoundTrip(ip, Varint(port) + rest);
    VarintRoundTrip(port, rest);
  }

  /** Both station numbers of a SetStation. */
  function Stations(station: int, previous: int): seq<Byte> {
    Varint(ZigZag(station)) + Varint(ZigZag(previous))
  }

  function ReadStations(b: seq<Byte>): Decoded<(int, int)> {
    match ReadVarint(b)
    case Fail => Fail
    case Got(s, rest) =>
      match ReadVarint(rest)
      case Fail => Fail
      case Got(p, rest') => Got((UnZigZag(s), UnZigZag(p)), rest')
  }

  lemma StationsRoundTrip(station: int, previous: int)
    ensures ReadStations(Stations(station, previous)) == Got((station, previous), [])
  {
    VarintRoundTrip(ZigZag(station), Varint(ZigZag(previous)));
    VarintRoundTrip(ZigZag(previous), []);
    assert Varint(ZigZag(previous)) + [] == Varint(ZigZag(previous));
  }

  function EncodeOp(op: Op): seq<Byte> {
    match op
    case Unknown => [0]
    case Handshake(ip, port) => [1] + Client(ip, port)
    case SetStation(ip, port, station, previous) => [2] + (Client(ip, port) + Stations(station, previous))
    case Disconnect(ip, port) => [3] + Client(ip, port)
  }

  function DecodeOp(b: seq<Byte>): Option<Op> {
    if b == [] then None
    else if b[0] == 0 then Some(Unknown)
    else match ReadClient(b[1..])
      case Fail => None
      case Got((ip, port), rest) =>
        if b[0] == 1 then Some(Handshake(ip, port))
        else if b[0] == 3 then Some(Disconnect(ip, port))
        else match ReadStations(rest)
          case Fail => None
          case Got((station, previous), _) => Some(SetStation(ip, port, station, previous))
  }

  lemma OpRoundTrip(op: Op)
    ensures DecodeOp(EncodeOp(op)) == Some(op)
  {
    if !op.Unknown? {
      var tail := if op.SetStation? then Stations(op.station, op.previous) else [];
      ClientRoundTrip(op.ip, op.port, tail);
      assert EncodeOp(op)[1..] == Client(op.ip, op.port) + tail;
      if op.SetStation? {
        StationsRoundTrip(op.station, op.previous);
      }
    }
  }

  /** Refuses what would not fit a 32-bit length, as the real encoder refuses oversized messages. */
  function Encode(e: Entry): Option<seq<Byte>> {
    var bytes := Varint(e.seqno) + EncodeOp(e.op);
    if |bytes| < SIZE_LIMIT then Some(bytes) else None
  }

  function Decode(b: seq<Byte>): Option<Entry> {
    match ReadVarint(b)
    case Fail => None
    case Got(n, rest) =>
      match DecodeOp(rest)
      case None => None
      case Some(op) => Some(Entry(n, op))
  }

  const INSTANCE: Codec := Codec(Encode, Decode)

  lemma InstanceIsLawful()
    ensures Lawful(INSTANCE)
  {
    forall e: Entry | Encode(e).Some? && e.seqno > 0
      ensures 0 < |Encode(e).value| < SIZE_LIMIT && Decode(Encode(e).value) == Some(e)
    {
      VarintRoundTrip(e.seqno, EncodeOp(e.op));
      OpRoundTrip(e.op);
    }
  }
}
