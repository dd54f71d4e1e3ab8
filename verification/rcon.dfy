/**
 RCON packets (internal/mc/rcon.go:16-52): a little-endian length, id and
 type, the body and two NUL bytes.
 */
module Rcon {
  import opened Prelude
  import opened VarInt

  const MAX_BODY := 4096

  datatype Packet = Packet(id: Int32, typ: Int32, body: seq<Byte>)

  datatype DecodeError = ShortRead | BadLength(length: Int32)

  /** A conversion to int32, which keeps the low 32 bits. */
  function Truncated(n: nat): Int32 { ToInt32(n % TWO32) }

  function LittleEndian(v: Int32): (b: seq<Byte>)
    ensures |b| == 4
  {
    var u := ToUint32(v);
    [u % 256, u / 256 % 256, u / 65_536 % 256, u / 16_777_216]
  }

  function FromLittleEndian(b: seq<Byte>): Int32
    requires |b| == 4
  {
    var b0: int, b1: int, b2: int, b3: int := b[0], b[1], b[2], b[3];
    ToInt32(b0 + 256 * b1 + 65_536 * b2 + 16_777_216 * b3)
  }

  lemma LittleEndianReadsBack(v: Int32)
    ensures FromLittleEndian(LittleEndian(v)) == v
  {
    var u := ToUint32(v);
    assert u / 256 / 256 == u / 65_536 && u / 65_536 / 256 == u / 16_777_216;
  }

  function TrimNuls(s: seq<Byte>): seq<Byte> {
    if s != [] && s[|s| - 1] == 0 then TrimNuls(s[..|s| - 1]) else s
  }

  predicate EndsInNul(s: seq<Byte>) { s != [] && s[|s| - 1] == 0 }

  lemma {:induction false} TrimNulsWorks(s: seq<Byte>)
    ensures TrimNuls(s) <= s && !EndsInNul(TrimNuls(s)) && (TrimNuls(s) == s <==> !EndsInNul(s))
    ensures TrimNuls(s + [0, 0]) == TrimNuls(s)
  {
    if EndsInNul(s) {
      TrimNulsWorks(s[..|s| - 1]);
    }
    assert (s + [0, 0])[..|s| + 1] == s + [0] && (s + [0])[..|s|] == s;
  }

  method EncodePacket(p: Packet) returns (buf: seq<Byte>)
    ensures buf == Encoded(p)
  {
    buf := LittleEndian(Truncated(4 + 4 + |p.body| + 2));
    buf := buf + LittleEndian(p.id);
    buf := buf + LittleEndian(p.typ);
    buf := buf + p.body;
    buf := buf + [0, 0];
    Flatten(LittleEndian(Truncated(|p.body| + 10)), LittleEndian(p.id), LittleEndian(p.typ), p.body, [0, 0]);
  }

  lemma Flatten<T>(a: seq<T>, b: seq<T>, c: seq<T>, d: seq<T>, e: seq<T>)
    ensures a + b + c + d + e == a + (b + (c + (d + e)))
  {
  }

  function Encoded(p: Packet): seq<Byte> {
    LittleEndian(Truncated(|p.body| + 10)) + (LittleEndian(p.id) + (LittleEndian(p.typ) + (p.body + [0, 0])))
  }

  /** Reading one packet off a stream; the rest of the stream is left. */
  method DecodePacket(stream: seq<Byte>) returns (r: Result<(Packet, seq<Byte>), DecodeError>)
    ensures r == Decoded(stream)
  {
    if |stream| < 4 {
      return Err(ShortRead);
    }
    var length := FromLittleEndian(stream[..4]);
    if length < 10 || length > MAX_BODY + 10 {
      return Err(BadLength(length));
    }
    if |stream| < 4 + length {
      return Err(ShortRead);
    }
    var payload := stream[4..4 + length];
    var id := FromLittleEndian(payload[0..4]);
    var typ := FromLittleEndian(payload[4..8]);
    return Ok((Packet(id, typ, TrimNuls(payload[8..])), stream[4 + length..]));
  }

  function Decoded(stream: seq<Byte>): Result<(Packet, seq<Byte>), DecodeError> {
    if |stream| < 4 then Err(ShortRead)
    else
      var length := FromLittleEndian(stream[..4]);
      if !(10 <= length <= MAX_BODY + 10) then Err(BadLength(length))
      else if |stream| < 4 + length then Err(ShortRead)
      else
        var payload := stream[4..4 + length];
        Ok((Packet(FromLittleEndian(payload[..4]), FromLittleEndian(payload[4..8]), TrimNuls(payload[8..])),
            stream[4 + length..]))
  }

  lemma HeadAndRest<T>(head: seq<T>, rest: seq<T>)
    ensures (head + rest)[..|head|] == head && (head + rest)[|head|..] == rest
  {
  }

  /** The bytes of a number, the least significant first. */
  lemma LittleEndianBytes(v: Int32)
    ensures var b0: int, b1: int, b2: int, b3: int :=
              LittleEndian(v)[0], LittleEndian(v)[1], LittleEndian(v)[2], LittleEndian(v)[3];
            ToUint32(v) == b0 + 256 * b1 + 65_536 * b2 + 16_777_216 * b3
  {
    var u := ToUint32(v);
    assert u / 256 / 256 == u / 65_536 && u / 65_536 / 256 == u / 16_777_216;
  }

  /** What stands where in a packet: the length of the rest, id, type, body and two NULs. */
  lemma PacketLayout(p: Packet)
    requires |p.body| <= MAX_BODY
    ensures var buf, n := Encoded(p), |p.body|;
            && |buf| == n + 14 && buf[..4] == LittleEndian(n + 10)
            && buf[4..8] == LittleEndian(p.id) && buf[8..12] == LittleEndian(p.typ)
            && buf[12..12 + n] == p.body && buf[12 + n..] == [0, 0]
  {
  }

  /**
   A stream is refused exactly if its length field is out of range, or it ends
   before the field or the packet does.
   */
  lemma RefusedIff(stream: seq<Byte>)
    ensures Decoded(stream).Err? <==>
              |stream| < 4 ||
              var length := FromLittleEndian(stream[..4]);
              length < 10 || length > 4106 || |stream| < 4 + length
    ensures |stream| < 4 ==> Decoded(stream) == Err(ShortRead)
    ensures |stream| >= 4 ==>
              var length := FromLittleEndian(stream[..4]);
              (Decoded(stream) == Err(BadLength(length)) <==> length < 10 || length > 4106)
  {
  }

  /** What comes back for a body that fits: the id, the type, and the body without trailing NULs. */
  lemma FittingPacketReadsBack(p: Packet, rest: seq<Byte>)
    requires |p.body| <= MAX_BODY
    ensures Decoded(Encoded(p) + rest) == Ok((p.(body := TrimNuls(p.body)), rest))
  {
    var length := |p.body| + 10;
    var head, tail := LittleEndian(p.id), LittleEndian(p.typ) + (p.body + [0, 0]);
    var payload := head + tail;
    var stream := Encoded(p) + rest;
    assert Truncated(length) == length;
    LittleEndianReadsBack(Truncated(length));
    LittleEndianReadsBack(p.id);
    LittleEndianReadsBack(p.typ);
    HeadAndRest(LittleEndian(Truncated(length)), payload + rest);
    assert stream == LittleEndian(Truncated(length)) + (payload + rest);
    HeadAndRest(payload, rest);
    assert stream[4..4 + length] == payload && stream[4 + length..] == rest by {
      assert stream[4..] == payload + rest;
      assert stream[4..4 + length] == stream[4..][..length];
      assert stream[4 + length..] == stream[4..][length..];
    }
    HeadAndRest(head, tail);
    HeadAndRest(LittleEndian(p.typ), p.body + [0, 0]);
    assert payload[4..8] == payload[4..][..4] && payload[8..] == payload[4..][4..];
    TrimNulsWorks(p.body);
  }

  /** A longer body is refused, unless its length wraps around in 32 bits; it never comes back as it was. */
  lemma LongBodyDoesNotComeBack(p: Packet, rest: seq<Byte>)
    requires |p.body| > MAX_BODY
    ensures Decoded(Encoded(p) + rest) != Ok((p, rest))
  {
  }

  /**
   Encode, then decode, with anything behind: exactly the packets with at most
   4096 bytes not ending in NUL come back.
   */
  lemma PacketRoundTripIff(p: Packet, rest: seq<Byte>)
    ensures Decoded(Encoded(p) + rest) == Ok((p, rest)) <==> |p.body| <= MAX_BODY && !EndsInNul(p.body)
  {
    if |p.body| <= MAX_BODY {
      FittingPacketReadsBack(p, rest);
      TrimNulsWorks(p.body);
    } else {
      LongBodyDoesNotComeBack(p, rest);
    }
  }
}
