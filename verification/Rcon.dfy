/** RCON framing ("Basic Packet Structure" of Valve's Source RCON Protocol): two encoders and the decoder they share. */
module Rcon {
  import opened Common

  type byte = x: int | 0 <= x < 256
  type int32 = x: int | INT32_MIN <= x <= INT32_MAX
  type uint32 = x: int | 0 <= x < 0x1_0000_0000

  datatype Packet = Packet(id: int32, ptype: int32, body: seq<byte>)

  const MAX_LENGTH := 4096
  const MAX_BODY := 4086

  /** Bodies whose packet size still is an int32; beyond that no packet is sent. */
  predicate Sendable(body: seq<byte>) {
    |body| <= INT32_MAX - 14
  }

  // ------------------------------------------------------------ little endian

  function Unsigned(v: int32): uint32 {
    if v < 0 then v + 0x1_0000_0000 else v
  }

  function LittleEndian(v: uint32): (s: seq<byte>)
    ensures |s| == 4
  {
    [v % 256, v / 256 % 256, v / 65536 % 256, v / 16777216]
  }

  function Value(s: seq<byte>): (v: uint32)
    requires |s| == 4
  {
    (s[0] as int) + 256 * (s[1] as int) + 65536 * (s[2] as int) + 16777216 * (s[3] as int)
  }

  function Signed(s: seq<byte>): int32
    requires |s| == 4
  {
    ToInt32(Value(s))
  }

  lemma DigitsOf(v: uint32)
    ensures v % 256 + 256 * (v / 256 % 256) + 65536 * (v / 65536 % 256) + 16777216 * (v / 16777216) == v
  {
    var q := v / 256;
    var r := q / 256;
    assert v / 65536 == r;
    assert v / 16777216 == r / 256;
  }

  lemma SignedRoundTrip(v: int32)
    ensures Signed(LittleEndian(Unsigned(v))) == v
  {
    DigitsOf(Unsigned(v));
  }

  // ------------------------------------------------------------------ encoding

  /** The packet on the wire: length of the rest, id, type, body, two NULs. */
  function Encode(p: Packet): seq<byte>
    requires Sendable(p.body)
  {
    LittleEndian(Unsigned(|p.body| + 10)) + LittleEndian(Unsigned(p.id)) + LittleEndian(Unsigned(p.ptype)) + p.body + [0, 0]
  }

  method PutUint32(buf: array<byte>, at: nat, v: uint32)
    requires at + 4 <= buf.Length
    modifies buf
    ensures buf[at..at + 4] == LittleEndian(v)
    ensures forall i :: 0 <= i < buf.Length && !(at <= i < at + 4) ==> buf[i] == old(buf[i])
  {
    buf[at], buf[at + 1], buf[at + 2], buf[at + 3] := v % 256, v / 256 % 256, v / 65536 % 256, v / 16777216;
  }

  /** Fill a buffer with the packet, field by field at fixed offsets. */
  method Fill(p: Packet) returns (buf: array<byte>)
    requires Sendable(p.body)
    ensures buf[..] == Encode(p)
  {
    var n := |p.body|;
    var length := 4 + 4 + n + 2;
    buf := new byte[4 + length](_ => 0);
    PutUint32(buf, 0, Unsigned(length));
    PutUint32(buf, 4, Unsigned(p.id));
    PutUint32(buf, 8, Unsigned(p.ptype));
    for i := 0 to n
      invariant buf[0..4] == LittleEndian(Unsigned(length)) && buf[4..8] == LittleEndian(Unsigned(p.id)) && buf[8..12] == LittleEndian(Unsigned(p.ptype))
      invariant buf[12..12 + i] == p.body[..i]
    {
      buf[12 + i] := p.body[i];
    }
    buf[12 + n] := 0;
    buf[12 + n + 1] := 0;
    assert buf[..] == buf[0..4] + buf[4..8] + buf[8..12] + buf[12..12 + n] + [buf[12 + n], buf[13 + n]];
  }

  /** The Minecraft client numbers every request 1. */
  method SendMinecraft(ptype: int32, body: seq<byte>) returns (buf: array<byte>)
    requires Sendable(body)
    ensures buf[..] == Encode(Packet(1, ptype, body))
  {
    buf := Fill(Packet(1, ptype, body));
  }

  /** The Source client sends everything, its password included, as type 2. */
  method SendSource(id: int32, body: seq<byte>) returns (buf: array<byte>)
    requires Sendable(body)
    ensures buf[..] == Encode(Packet(id, 2, body))
  {
    buf := Fill(Packet(id, 2, body));
  }

  // ------------------------------------------------------------------ decoding

  /** Outcome of reading one packet, with what is left on the connection. */
  datatype Reading = Got(p: Packet, rest: seq<byte>) | BadLength(rest: seq<byte>) | Short

  /** Up to the first NUL; empty if there is none. */
  function UntilNul(s: seq<byte>): (r: seq<byte>)
    ensures r <= s && 0 !in r
    ensures 0 in s ==> |r| < |s| && s[|r|] == 0
    ensures 0 !in s ==> r == []
  {
    if 0 !in s then [] else Before(s)
  }

  function Before(s: seq<byte>): (r: seq<byte>)
    requires 0 in s
    ensures r <= s && 0 !in r && |r| < |s| && s[|r|] == 0
  {
    if s[0] == 0 then [] else [s[0]] + Before(s[1..])
  }

  function Decode(s: seq<byte>): Reading {
    if |s| < 4 then Short
    else
      var length := Signed(s[..4]);
      if length < 10 || length > MAX_LENGTH then BadLength(s[4..])
      else if |s| < 4 + length then Short
      else
        var data := s[4..4 + length];
        Got(Packet(Signed(data[0..4]), Signed(data[4..8]), UntilNul(data[8..])), s[4 + length..])
  }

  /** A connection: the bytes that have yet to be read. */
  class Conn {
    var input: seq<byte>

    constructor (input: seq<byte>)
      ensures this.input == input
    {
      this.input := input;
    }

    /** Read exactly n bytes, or drain what there is and fail. */
    method ReadFull(n: nat) returns (data: Option<seq<byte>>)
      modifies this
      ensures n <= |old(input)| ==> data == Some(old(input)[..n]) && input == old(input)[n..]
      ensures n > |old(input)| ==> data == None && input == []
    {
      if n > |input| {
        input := [];
        return None;
      }
      data := Some(input[..n]);
      input := input[n..];
    }

    method ReadRawPacket() returns (r: Reading)
      modifies this
      ensures r == Decode(old(input))
      ensures input == if r.Short? then [] else r.rest
    {
      var head := ReadFull(4);
      if head.None? {
        return Short;
      }
      var length := Signed(head.value);
      if length < 10 || length > MAX_LENGTH {
        return BadLength(input);
      }
      var read := ReadFull(length);
      if read.None? {
        return Short;
      }
      var data := read.value;
      assert data == old(input)[4..4 + length] && input == old(input)[4 + length..];
      var body := ScanNul(data[8..]);
      return Got(Packet(Signed(data[0..4]), Signed(data[4..8]), body), input);
    }
  }

  method ScanNul(s: seq<byte>) returns (body: seq<byte>)
    ensures body == UntilNul(s)
  {
    for i := 0 to |s|
      invariant forall j :: 0 <= j < i ==> s[j] != 0
    {
      if s[i] == 0 {
        FirstNul(s, s[..i]);
        return s[..i];
      }
    }
    return [];
  }

  lemma FirstNul(s: seq<byte>, r: seq<byte>)
    requires |r| < |s| && r == s[..|r|] && 0 !in r && s[|r|] == 0
    ensures UntilNul(s) == r
  {
    assert s[|r|] in s;
  }

  // ----------------------------------------------------------------- theorems

  /** Where the fields of a packet lie on the wire. */
  lemma Layout(p: Packet, rest: seq<byte>)
    requires Sendable(p.body)
    ensures var s, length := Encode(p) + rest, |p.body| + 10;
      && |s| == 4 + length + |rest|
      && s[..4] == LittleEndian(Unsigned(length))
      && s[4..4 + length] == LittleEndian(Unsigned(p.id)) + LittleEndian(Unsigned(p.ptype)) + p.body + [0, 0]
      && s[4 + length..] == rest
  {
  }

  lemma DataFields(p: Packet, data: seq<byte>)
    requires data == LittleEndian(Unsigned(p.id)) + LittleEndian(Unsigned(p.ptype)) + p.body + [0, 0]
    ensures Signed(data[0..4]) == p.id && Signed(data[4..8]) == p.ptype
    ensures UntilNul(data[8..]) == UntilNul(p.body + [0])
  {
    SignedRoundTrip(p.id);
    SignedRoundTrip(p.ptype);
    assert data[0..4] == LittleEndian(Unsigned(p.id));
    assert data[4..8] == LittleEndian(Unsigned(p.ptype));
    assert data[8..] == p.body + [0, 0];
    SecondNulIsIdle(p.body);
  }

  /** The number four bytes stand for on the wire, lowest byte first, negative from 2^31 on. */
  function WireInt(s: seq<byte>, at: nat): int
    requires at + 4 <= |s|
  {
    var v := (s[at] as int) + 0x100 * (s[at + 1] as int) + 0x1_0000 * (s[at + 2] as int) + 0x100_0000 * (s[at + 3] as int);
    if v >= 0x8000_0000 then v - 0x1_0000_0000 else v
  }

  lemma WordOnWire(s: seq<byte>, at: nat, v: int32)
    requires at + 4 <= |s| && s[at..at + 4] == LittleEndian(Unsigned(v))
    ensures WireInt(s, at) == v
  {
    DigitsOf(Unsigned(v));
    var w := s[at..at + 4];
    assert w[0] == s[at] && w[1] == s[at + 1] && w[2] == s[at + 2] && w[3] == s[at + 3];
  }

  /** The wire format byte by byte: length of the rest, id, type, each lowest byte first, then the body and two NULs. */
  lemma WireFormat(p: Packet)
    requires Sendable(p.body)
    ensures var s, n := Encode(p), |p.body|;
      && |s| == n + 14
      && WireInt(s, 0) == n + 10 && WireInt(s, 4) == p.id && WireInt(s, 8) == p.ptype
      && s[12..12 + n] == p.body && s[12 + n] == 0 && s[13 + n] == 0
  {
    var s, n := Encode(p), |p.body|;
    assert s[0..4] == LittleEndian(Unsigned(n + 10));
    assert s[4..8] == LittleEndian(Unsigned(p.id));
    assert s[8..12] == LittleEndian(Unsigned(p.ptype));
    WordOnWire(s, 0, n + 10);
    WordOnWire(s, 4, p.id);
    WordOnWire(s, 8, p.ptype);
  }

  lemma SignedIsWireInt(s: seq<byte>, at: nat)
    requires at + 4 <= |s|
    ensures Signed(s[at..at + 4]) == WireInt(s, at)
  {
    var w := s[at..at + 4];
    assert w[0] == s[at] && w[1] == s[at + 1] && w[2] == s[at + 2] && w[3] == s[at + 3];
  }

  /** What any bytes are read as: short without a whole packet, refused unless the length is 10 to 4096, else the fields and the body up to its first NUL. */
  lemma ReadingMeans(s: seq<byte>)
    ensures |s| < 4 ==> Decode(s) == Short
    ensures |s| >= 4 && !(10 <= WireInt(s, 0) <= 4096) ==> Decode(s) == BadLength(s[4..])
    ensures |s| >= 4 && 10 <= WireInt(s, 0) <= 4096 && |s| < 4 + WireInt(s, 0) ==> Decode(s) == Short
    ensures |s| >= 4 && 10 <= WireInt(s, 0) <= 4096 && |s| >= 4 + WireInt(s, 0) ==>
      var end := 4 + WireInt(s, 0);
      && Decode(s).Got? && Decode(s).rest == s[end..]
      && Decode(s).p.id == WireInt(s, 4) && Decode(s).p.ptype == WireInt(s, 8)
      && IsBodyOf(Decode(s).p.body, s[12..end])
  {
    if |s| >= 4 {
      SignedIsWireInt(s, 0);
      assert s[0..4] == s[..4];
      if 10 <= WireInt(s, 0) <= 4096 && |s| >= 4 + WireInt(s, 0) {
        var end := 4 + WireInt(s, 0);
        var data := s[4..end];
        assert data[0..4] == s[4..8] && data[4..8] == s[8..12] && data[8..] == s[12..end];
        SignedIsWireInt(s, 4);
        SignedIsWireInt(s, 8);
      }
    }
  }

  /** Up to the first NUL, or nothing if there is none. */
  ghost predicate IsBodyOf(body: seq<byte>, data: seq<byte>) {
    if 0 in data then |body| < |data| && body == data[..|body|] && 0 !in body && data[|body|] == 0 else body == []
  }

  /** What the other side makes of a packet with `rest` behind it: refused if long, otherwise cut at its first NUL. */
  lemma DecodeEncode(p: Packet, rest: seq<byte>)
    requires Sendable(p.body)
    ensures Decode(Encode(p) + rest) ==
      if |p.body| > MAX_BODY then BadLength((Encode(p) + rest)[4..])
      else Got(Arrived(p), rest)
  {
    var s, length := Encode(p) + rest, |p.body| + 10;
    Layout(p, rest);
    SignedRoundTrip(length);
    if |p.body| <= MAX_BODY {
      DataFields(p, s[4..4 + length]);
    }
  }

  lemma SecondNulIsIdle(body: seq<byte>)
    ensures UntilNul(body + [0, 0]) == UntilNul(body + [0])
  {
    var u := UntilNul(body + [0]);
    assert (body + [0])[|body|] == 0;
    assert (body + [0, 0])[..|u|] == u;
    FirstNul(body + [0, 0], u);
  }

  predicate Clean(body: seq<byte>) {
    |body| <= MAX_BODY && 0 !in body
  }

  /** A body up to its first NUL. */
  function Cut(body: seq<byte>): (r: seq<byte>)
    ensures r <= body && 0 !in r
    ensures if 0 in body then |r| < |body| && body[|r|] == 0 else r == body
  {
    var whole := body + [0];
    assert whole[|body|] == 0;
    var r := UntilNul(whole);
    assert 0 !in body ==> r == body by {
      if 0 !in body { FirstNul(whole, body); }
    }
    assert r == whole[..|r|] && body == whole[..|body|];
    r
  }

  /** A packet as the other side gets it. */
  function Arrived(p: Packet): Packet {
    p.(body := Cut(p.body))
  }

  predicate AllSendable(ps: seq<Packet>) {
    forall i :: 0 <= i < |ps| ==> Sendable(ps[i].body)
  }

  predicate AllShort(ps: seq<Packet>)
    ensures AllShort(ps) ==> AllSendable(ps)
  {
    forall i :: 0 <= i < |ps| ==> Sendable(ps[i].body) && |ps[i].body| <= MAX_BODY
  }

  /** A packet arrives as it was sent, leaving exactly what followed it, if and only if its body is short and free of NULs. */
  lemma RoundTrip(p: Packet, rest: seq<byte>)
    requires Sendable(p.body)
    ensures Decode(Encode(p) + rest) == Got(p, rest) <==> Clean(p.body)
  {
    DecodeEncode(p, rest);
  }

  type Reader = seq<byte> -> Reading

  /** Read packets until the connection is empty or a read fails; the packets, and the bytes from the first one not read. */
  function ReadAll(read: Reader, s: seq<byte>): (seq<Packet>, seq<byte>)
    decreases |s|
  {
    var first := read(s);
    if s == [] || !first.Got? || |first.rest| >= |s| then ([], s)
    else
      var more := ReadAll(read, first.rest);
      ([first.p] + more.0, more.1)
  }

  /** Frames one after the other. */
  function Joined(frames: seq<seq<byte>>): seq<byte> {
    if frames == [] then [] else frames[0] + Joined(frames[1..])
  }

  ghost predicate Reads(read: Reader, frame: seq<byte>, p: Packet) {
    frame != [] && forall rest :: read(frame + rest) == Got(p, rest)
  }

  ghost predicate ReadsAll(read: Reader, frames: seq<seq<byte>>, ps: seq<Packet>) {
    |frames| == |ps| && forall i :: 0 <= i < |ps| ==> Reads(read, frames[i], ps[i])
  }

  /** Frames that are read back whatever follows them are read back in sequence. */
  lemma {:induction false} FrontIsRead(read: Reader, frames: seq<seq<byte>>, ps: seq<Packet>, tail: seq<byte>)
    requires ReadsAll(read, frames, ps)
    ensures ReadAll(read, Joined(frames) + tail) == (ps + ReadAll(read, tail).0, ReadAll(read, tail).1)
  {
    if ps == [] {
      assert Joined(frames) + tail == tail;
      assert ps + ReadAll(read, tail).0 == ReadAll(read, tail).0;
    } else {
      var more := Joined(frames[1..]) + tail;
      FrontIsRead(read, frames[1..], ps[1..], tail);
      assert Joined(frames) + tail == frames[0] + more;
      assert Reads(read, frames[0], ps[0]);
      assert ps + ReadAll(read, tail).0 == [ps[0]] + (ps[1..] + ReadAll(read, tail).0);
    }
  }

  /** If reading fails on what follows, exactly the frames are read. */
  lemma ReadUpTo(read: Reader, frames: seq<seq<byte>>, ps: seq<Packet>, tail: seq<byte>)
    requires ReadsAll(read, frames, ps) && (tail == [] || !read(tail).Got?)
    ensures ReadAll(read, Joined(frames) + tail) == (ps, tail)
    ensures tail == [] ==> Joined(frames) + tail == Joined(frames)
  {
    FrontIsRead(read, frames, ps, tail);
    assert ReadAll(read, tail).0 == [] && ps + [] == ps;
  }

  function EncodeEach(ps: seq<Packet>): (frames: seq<seq<byte>>)
    requires AllSendable(ps)
  {
    seq(|ps|, i requires 0 <= i < |ps| => Encode(ps[i]))
  }

  lemma ShortIsRead(p: Packet)
    requires Sendable(p.body) && |p.body| <= MAX_BODY
    ensures Reads(Decode, Encode(p), Arrived(p))
  {
    forall rest ensures Decode(Encode(p) + rest) == Got(Arrived(p), rest) {
      DecodeEncode(p, rest);
    }
  }

  function ArrivedEach(ps: seq<Packet>): (r: seq<Packet>)
    ensures |r| == |ps| && forall i :: 0 <= i < |ps| ==> r[i] == Arrived(ps[i])
  {
    seq(|ps|, i requires 0 <= i < |ps| => Arrived(ps[i]))
  }

  lemma ShortAreRead(ps: seq<Packet>)
    requires AllShort(ps)
    ensures ReadsAll(Decode, EncodeEach(ps), ArrivedEach(ps))
  {
    forall i | 0 <= i < |ps| ensures Reads(Decode, EncodeEach(ps)[i], ArrivedEach(ps)[i]) {
      ShortIsRead(ps[i]);
    }
  }

  /**
   Any list of packets with bodies that fit, written back to back, is read back in order to the last
   byte, each body cut at its first NUL.
   */
  lemma StreamRoundTrip(ps: seq<Packet>)
    requires AllShort(ps)
    ensures ReadAll(Decode, Joined(EncodeEach(ps))) == (ArrivedEach(ps), [])
  {
    ShortAreRead(ps);
    ReadUpTo(Decode, EncodeEach(ps), ArrivedEach(ps), []);
  }

  /** So it is read back as it was written exactly when no body has a NUL. */
  lemma StreamArrivesAsSent(ps: seq<Packet>)
    ensures ArrivedEach(ps) == ps <==> forall i :: 0 <= i < |ps| ==> 0 !in ps[i].body
  {
    assert forall i :: 0 <= i < |ps| ==> (Arrived(ps[i]) == ps[i] <==> 0 !in ps[i].body);
  }

  /** Reading stops at the first packet whose body is too long: those before it arrive, it and the rest stay unread. */
  lemma StreamStopsAtLongBody(ps: seq<Packet>, p: Packet, rest: seq<byte>)
    requires AllShort(ps)
    requires Sendable(p.body) && |p.body| > MAX_BODY
    ensures ReadAll(Decode, Joined(EncodeEach(ps)) + (Encode(p) + rest)) == (ArrivedEach(ps), Encode(p) + rest)
  {
    ShortAreRead(ps);
    DecodeEncode(p, rest);
    ReadUpTo(Decode, EncodeEach(ps), ArrivedEach(ps), Encode(p) + rest);
  }

  /** Whatever the bytes, what is decoded has no NUL in it and can be sent on unless it is one byte too long. */
  lemma DecodedIsNulFree(s: seq<byte>)
    requires Decode(s).Got?
    ensures var p := Decode(s).p; 0 !in p.body && |p.body| <= MAX_BODY + 1
  {
    var length := Signed(s[..4]);
    assert |s[4..4 + length][8..]| == length - 8;
  }
}
