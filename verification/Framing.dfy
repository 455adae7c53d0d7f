/**
  The wire format: every frame is a two-byte big-endian body length followed by the
  body, and a message body is a two-byte big-endian message id followed by the payload.
  `Parse` is the greedy reading of a byte stream; everything the receive pipeline does
  with its buffers is measured against it.
 */
module Framing {

  newtype Byte = b: int | 0 <= b < 256

  const U16_RANGE := 0x1_0000
  const MAX_BODY := 0xFFFF
  const MAX_PAYLOAD := 65533

  /** Two bytes in network order, as `ntohs` reads them. */
  function U16(s: seq<Byte>): (n: nat)
    requires |s| >= 2
    ensures n < U16_RANGE
  {
    s[0] as int * 256 + s[1] as int
  }

  /** Two bytes in network order of the low sixteen bits of `n`: a conversion to
      `uint16_t` drops the rest. */
  function BigEndian(n: nat): (s: seq<Byte>)
    ensures |s| == 2
  {
    [(n / 256 % 256) as Byte, (n % 256) as Byte]
  }

  lemma BigEndianU16(n: nat, rest: seq<Byte>)
    ensures U16(BigEndian(n) + rest) == n % U16_RANGE
  {
    assert (BigEndian(n) + rest)[0] == BigEndian(n)[0] && (BigEndian(n) + rest)[1] == BigEndian(n)[1];
  }

  datatype Parsed = Parsed(frames: seq<seq<Byte>>, tail: seq<Byte>)

  /** No complete frame at the front of `s`. */
  predicate Incomplete(s: seq<Byte>) {
    |s| < 2 || |s| < 2 + U16(s)
  }

  /** The greedy reading: take complete frames off the front until none is left. */
  function Parse(s: seq<Byte>): Parsed {
    if Incomplete(s) then Parsed([], s)
    else
      var n := 2 + U16(s);
      var rest := Parse(s[n..]);
      Parsed([s[2..n]] + rest.frames, rest.tail)
  }

  lemma ParseIncomplete(s: seq<Byte>)
    requires Incomplete(s)
    ensures Parse(s) == Parsed([], s)
  {
  }

  /** What `Send` puts on the wire for one body: the length field keeps sixteen bits. */
  function Frame(body: seq<Byte>): seq<Byte> {
    BigEndian(|body|) + body
  }

  function FrameAll(bodies: seq<seq<Byte>>): seq<Byte> {
    if bodies == [] then [] else Frame(bodies[0]) + FrameAll(bodies[1..])
  }

  ghost predicate Fits(bodies: seq<seq<Byte>>) {
    forall i :: 0 <= i < |bodies| ==> |bodies[i]| <= MAX_BODY
  }

  lemma BigEndianOfU16(s: seq<Byte>)
    requires |s| >= 2
    ensures BigEndian(U16(s)) == s[..2]
  {
  }

  lemma FrameAllCons(body: seq<Byte>, bodies: seq<seq<Byte>>, tail: seq<Byte>)
    ensures FrameAll([body] + bodies) + tail == Frame(body) + (FrameAll(bodies) + tail)
  {
    assert ([body] + bodies)[1..] == bodies;
  }

  /** One step of `Parse`: a frame in front of `rest` is taken off. */
  lemma ParseFrame(body: seq<Byte>, rest: seq<Byte>)
    requires |body| <= MAX_BODY
    ensures Parse(Frame(body) + rest) == Parsed([body] + Parse(rest).frames, Parse(rest).tail)
  {
    hide BigEndian;
    var s := Frame(body) + rest;
    assert s == BigEndian(|body|) + (body + rest);
    BigEndianU16(|body|, body + rest);
    assert s[2..2 + |body|] == body;
    assert s[2 + |body|..] == rest;
  }

  /** The same step inside a buffer that is read at an offset. */
  lemma ParseAt(data: seq<Byte>, offset: nat, end: nat)
    requires offset + 2 <= end <= |data| && end == offset + 2 + U16(data[offset..])
    ensures Parse(data[offset..]).frames == [data[offset + 2..end]] + Parse(data[end..]).frames
    ensures Parse(data[offset..]).tail == Parse(data[end..]).tail
  {
    var rest := data[offset..];
    var n := 2 + U16(rest);
    assert rest[2..n] == data[offset + 2..offset + n];
    assert rest[n..] == data[offset + n..];
  }

  /** The converse: a stream with a complete frame in front is that frame and the rest. */
  lemma SplitFrame(s: seq<Byte>)
    requires !Incomplete(s)
    ensures s == Frame(s[2..2 + U16(s)]) + s[2 + U16(s)..]
  {
    BigEndianOfU16(s);
    assert s == s[..2] + s[2..2 + U16(s)] + s[2 + U16(s)..];
  }

  /** Parsing loses nothing: the frames and the tail spell the input, the tail holds no
      complete frame, and no frame is longer than the length field can say. */
  lemma {:induction false} ParseSound(s: seq<Byte>)
    ensures s == FrameAll(Parse(s).frames) + Parse(s).tail
    ensures Incomplete(Parse(s).tail)
    ensures Fits(Parse(s).frames)
    decreases |s|
  {
    if Incomplete(s) {
      assert s == [] + s;
    } else {
      var rest := s[2 + U16(s)..];
      ParseSound(rest);
      SplitFrame(s);
      FrameAllCons(s[2..2 + U16(s)], Parse(rest).frames, Parse(rest).tail);
    }
  }

  /** ... and that reading is the only one: any frames that fit, followed by any
      incomplete tail, parse back to exactly themselves. */
  lemma {:induction false} ParseUnique(bodies: seq<seq<Byte>>, tail: seq<Byte>)
    requires Fits(bodies) && Incomplete(tail)
    ensures Parse(FrameAll(bodies) + tail) == Parsed(bodies, tail)
    decreases |bodies|
  {
    if bodies == [] {
      assert [] + tail == tail;
    } else {
      ParseUnique(bodies[1..], tail);
      assert bodies == [bodies[0]] + bodies[1..];
      FrameAllCons(bodies[0], bodies[1..], tail);
      ParseFrame(bodies[0], FrameAll(bodies[1..]) + tail);
    }
  }

  /** Cutting a stream in two changes nothing: parse the first part, keep its tail, and
      parse the tail with the second part behind it. */
  lemma {:induction false} ParseSplit(a: seq<Byte>, b: seq<Byte>)
    ensures Parse(a + b).frames == Parse(a).frames + Parse(Parse(a).tail + b).frames
    ensures Parse(a + b).tail == Parse(Parse(a).tail + b).tail
    decreases |a|
  {
    if !Incomplete(a) {
      var n := 2 + U16(a);
      assert U16(a + b) == U16(a);
      assert (a + b)[n..] == a[n..] + b;
      assert (a + b)[2..n] == a[2..n];
      ParseSplit(a[n..], b);
    }
  }

  lemma FrameAllConcat(xs: seq<seq<Byte>>, ys: seq<seq<Byte>>)
    ensures FrameAll(xs + ys) == FrameAll(xs) + FrameAll(ys)
  {
    if xs == [] {
      assert xs + ys == ys;
    } else {
      assert (xs + ys)[1..] == xs[1..] + ys;
      FrameAllConcat(xs[1..], ys);
    }
  }

  /** A stream of frames that fit, cut off anywhere: what has been parsed are the first bodies,
      and what is left is the beginning of the frames of the others. */
  lemma ParsePrefix(s: seq<Byte>, rest: seq<Byte>, bodies: seq<seq<Byte>>)
    requires Fits(bodies) && s + rest == FrameAll(bodies)
    ensures var p := Parse(s); var n := |p.frames|;
            && n <= |bodies| && p.frames == bodies[..n]
            && s == FrameAll(bodies[..n]) + p.tail
            && p.tail + rest == FrameAll(bodies[n..])
  {
    hide Parse, FrameAll, Fits;
    var p := Parse(s);
    assert Incomplete([]);
    assert FrameAll(bodies) + [] == FrameAll(bodies);
    ParseUnique(bodies, []);
    ParseSplit(s, rest);
    ParseSound(s);
    var n := |p.frames|;
    var later := Parse(p.tail + rest).frames;
    assert bodies == p.frames + later;
    assert bodies == bodies[..n] + bodies[n..];
    FrameAllConcat(p.frames, later);
    CancelFront(FrameAll(p.frames), p.tail, rest, FrameAll(later));
  }

  lemma CancelFront(front: seq<Byte>, a: seq<Byte>, b: seq<Byte>, c: seq<Byte>)
    requires front + a + b == front + c
    ensures a + b == c
  {
    assert front + a + b == front + (a + b);
    assert (front + (a + b))[|front|..] == a + b;
    assert (front + c)[|front|..] == c;
  }

  /** What is left unparsed never outgrows the largest frame less one byte. */
  lemma ParseTailBound(s: seq<Byte>)
    ensures |Parse(s).tail| <= MAX_BODY + 1
    ensures |Parse(s).tail| <= |s|
  {
    ParseSound(s);
  }

  datatype Message = Message(id: nat, payload: seq<Byte>)

  /** The body `Send` frames for a message with a sixteen-bit id. */
  function Body(m: Message): seq<Byte> {
    BigEndian(m.id) + m.payload
  }

  function Bodies(ms: seq<Message>): (bs: seq<seq<Byte>>)
    ensures |bs| == |ms| && forall i :: 0 <= i < |ms| ==> bs[i] == Body(ms[i])
  {
    seq(|ms|, i requires 0 <= i < |ms| => Body(ms[i]))
  }

  /** How `HandlePacket` splits a body of at least two bytes. */
  function Decode(body: seq<Byte>): Message
    requires |body| >= 2
  {
    Message(U16(body), body[2..])
  }

  lemma DecodeBody(m: Message)
    requires m.id < U16_RANGE
    ensures Decode(Body(m)) == m
  {
    BigEndianU16(m.id, m.payload);
    assert Body(m)[2..] == m.payload;
  }

  /** The bytes on the wire: a first byte `hi` and a second byte `lo` announce 256 * hi + lo bytes
      of body, and the stream goes on behind them. */
  lemma ParseBytes(hi: Byte, lo: Byte, body: seq<Byte>, rest: seq<Byte>)
    requires |body| == 256 * hi as int + lo as int
    ensures Parse([hi, lo] + body + rest) == Parsed([body] + Parse(rest).frames, Parse(rest).tail)
  {
    assert [hi, lo] + body == Frame(body);
    ParseFrame(body, rest);
  }

  /** As long as fewer have come, nothing is taken off. */
  lemma ParseWaits(s: seq<Byte>)
    ensures Parse(s) == Parsed([], s) <==> |s| < 2 || |s| - 2 < 256 * s[0] as int + s[1] as int
  {
  }

  /** A body is the id, high byte first, and then the payload. */
  lemma DecodeBytes(hi: Byte, lo: Byte, payload: seq<Byte>)
    ensures Decode([hi, lo] + payload) == Message(256 * hi as int + lo as int, payload)
  {
  }

  /** What is sent for a message: four bytes, which are the length of the rest but two and the
      id, both high byte first and cut to sixteen bits, and then the payload. */
  lemma FrameBytes(m: Message, hi: Byte, lo: Byte, idHi: Byte, idLo: Byte)
    requires (2 + |m.payload|) % 0x1_0000 == 256 * hi as int + lo as int
    requires m.id % 0x1_0000 == 256 * idHi as int + idLo as int
    ensures Frame(Body(m)) == [hi, lo, idHi, idLo] + m.payload
  {
    BigEndianBytes(2 + |m.payload|, hi, lo);
    BigEndianBytes(m.id, idHi, idLo);
    hide BigEndian;
    assert |Body(m)| == 2 + |m.payload|;
    assert [hi, lo] + ([idHi, idLo] + m.payload) == [hi, lo, idHi, idLo] + m.payload;
  }

  /** The same, read off the frame. */
  lemma FrameHead(m: Message)
    ensures var c := Frame(Body(m));
            && |c| == 4 + |m.payload| && c[4..] == m.payload
            && 256 * c[0] as int + c[1] as int == (2 + |m.payload|) % 0x1_0000
            && 256 * c[2] as int + c[3] as int == m.id % 0x1_0000
  {
    var n, id := (2 + |m.payload|) % 0x1_0000, m.id % 0x1_0000;
    FrameBytes(m, (n / 256) as Byte, (n % 256) as Byte, (id / 256) as Byte, (id % 256) as Byte);
  }

  lemma BigEndianBytes(n: nat, hi: Byte, lo: Byte)
    requires n % 0x1_0000 == 256 * hi as int + lo as int
    ensures BigEndian(n) == [hi, lo]
  {
    Digits(n / 0x1_0000, hi as int, lo as int);
  }

  lemma Digits(q: nat, hi: nat, lo: nat)
    requires hi < 256 && lo < 256
    ensures var n := 256 * (256 * q + hi) + lo; n / 256 % 256 == hi && n % 256 == lo
  {
    assert (256 * (256 * q + hi) + lo) / 256 == 256 * q + hi;
    assert (256 * q + hi) % 256 == hi;
  }

  /** Any list of messages framed back to back is read back exactly, with nothing left
      over, if and only if every payload fits in the sixteen-bit length field. */
  lemma RoundTripExact(ms: seq<Message>)
    ensures Parse(FrameAll(Bodies(ms))) == Parsed(Bodies(ms), [])
            <==> forall i :: 0 <= i < |ms| ==> |ms[i].payload| <= MAX_PAYLOAD
  {
    var bs := Bodies(ms);
    assert forall i :: 0 <= i < |ms| ==> |bs[i]| == 2 + |ms[i].payload|;
    if forall i :: 0 <= i < |ms| ==> |ms[i].payload| <= MAX_PAYLOAD {
      ParseUnique(bs, []);
      assert FrameAll(bs) + [] == FrameAll(bs);
    } else {
      var i :| 0 <= i < |ms| && |ms[i].payload| > MAX_PAYLOAD;
      assert |bs[i]| > MAX_BODY;
      ParseSound(FrameAll(bs));
    }
  }
}
