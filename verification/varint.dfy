/**
 The variable-length integers of the server-list ping
 (internal/mc/ping.go:142-173): seven bits to a byte, least significant group
 first, as in the unsigned LEB128 of section 7.6 of DWARF 5, applied to the
 two's-complement value of a 32-bit integer.
 */
module VarInt {
  import opened Prelude

  const TWO32 := 0x1_0000_0000
  const TWO31 := 0x8000_0000

  type Byte = b: int | 0 <= b < 256

  type Int32 = v: int | -TWO31 <= v < TWO31

  type Uint32 = u: int | 0 <= u < TWO32

  function ToUint32(v: Int32): Uint32 { if v < 0 then v + TWO32 else v }

  function ToInt32(u: Uint32): Int32 { if u < TWO31 then u else u - TWO32 }

  function Pow128(n: nat): nat { if n == 0 then 1 else 128 * Pow128(n - 1) }

  /** A number moved up by n groups of seven bits. */
  function Place(n: nat, v: nat): nat { Pow128(n) * v }

  /** Groups of seven bits; every byte but the last has its high bit set. */
  function Encoding(u: nat): seq<Byte> {
    if u < 128 then [u] else [u % 128 + 128] + Encoding(u / 128)
  }

  datatype ReadError = EndOfStream | TooLong

  /** What was read, and how many bytes it took. */
  datatype Read<+T> = Read(value: T, used: nat)

  /** Reading when `i` bytes are already behind: the groups so far unread, as one number. */
  function ReadGroups(s: seq<Byte>, i: nat): Result<Read<nat>, ReadError>
    decreases |s|
  {
    if i >= 5 then Err(TooLong)
    else if s == [] then Err(EndOfStream)
    else if s[0] < 128 then Ok(Read(s[0], 1))
    else
      match ReadGroups(s[1..], i + 1)
      case Err(e) => Err(e)
      case Ok(r) => Ok(Read(s[0] - 128 + 128 * r.value, r.used + 1))
  }

  /** The fifth byte's upper bits are shifted out of the 32-bit result. */
  function Decoded(s: seq<Byte>): Result<Read<Int32>, ReadError> {
    match ReadGroups(s, 0)
    case Err(e) => Err(e)
    case Ok(r) => Ok(Read(ToInt32(r.value % TWO32), r.used))
  }

  method AppendVarInt(b: seq<Byte>, v: Int32) returns (out: seq<Byte>)
    ensures out == b + Encoding(ToUint32(v))
  {
    var u := ToUint32(v);
    out := b;
    while true
      invariant out + Encoding(u) == b + Encoding(ToUint32(v))
      decreases u
    {
      if u < 128 {
        return out + [u];
      }
      assert out + ([u % 128 + 128] + Encoding(u / 128)) == out + [u % 128 + 128] + Encoding(u / 128);
      out := out + [u % 128 + 128];
      u := u / 128;
    }
  }

  /** What the whole stream reads as, given what the first `i` bytes and the rest contribute. */
  predicate Continues(s: seq<Byte>, i: nat, result: nat)
    requires i <= |s|
  {
    match ReadGroups(s[i..], i)
    case Err(e) => ReadGroups(s, 0) == Err(e)
    case Ok(r) => ReadGroups(s, 0) == Ok(Read(result + Place(i, r.value), r.used + i))
  }

  lemma PlaceStep(i: nat, group: nat, v: nat)
    ensures Place(i, group + 128 * v) == Place(i, group) + Place(i + 1, v)
  {
  }

  lemma ContinuesFurther(s: seq<Byte>, i: nat, result: nat)
    requires i < 5 && i < |s| && s[i] >= 128 && Continues(s, i, result)
    ensures Continues(s, i + 1, result + Place(i, s[i] - 128))
  {
    assert s[i..][1..] == s[i + 1..];
    var tail := ReadGroups(s[i + 1..], i + 1);
    if tail.Ok? {
      PlaceStep(i, s[i] - 128, tail.value.value);
    }
  }

  lemma Powers()
    ensures Pow128(1) == 128 && Pow128(2) == 16_384 && Pow128(3) == 2_097_152 && Pow128(4) == 268_435_456
    ensures Pow128(5) == 34_359_738_368
  {
  }

  /** The first four groups fit below 32 bits; of the fifth, what does not fit is cut off. */
  lemma GroupFits(i: nat, result: nat, group: nat)
    requires i < 5 && result < Pow128(i) && group < 128
    ensures i < 4 ==> result + Place(i, group) < Pow128(i + 1) && Place(i, group) < TWO32
    ensures (result + Place(i, group)) % TWO32 == result + Place(i, group) % TWO32
  {
    Powers();
  }

  lemma LastGroup(s: seq<Byte>, i: nat, result: nat)
    requires i < 5 && i < |s| && s[i] < 128 && Continues(s, i, result) && result < Pow128(i)
    ensures Decoded(s) == Ok(Read(ToInt32((result + Place(i, s[i])) % TWO32), i + 1))
  {
  }

  lemma NoLastGroup(s: seq<Byte>, i: nat, result: nat)
    requires i <= |s| && i <= 5 && Continues(s, i, result) && (i == |s| || i == 5)
    ensures Decoded(s) == Err(if i == 5 then TooLong else EndOfStream)
  {
  }

  method ReadVarInt(s: seq<Byte>) returns (r: Result<Read<Int32>, ReadError>)
    ensures r == Decoded(s)
  {
    var result: nat := 0;
    assert s[0..] == s;
    for i := 0 to 5
      invariant i <= |s| && Continues(s, i, result)
      invariant i < 5 ==> result < Pow128(i)
    {
      if i == |s| {
        NoLastGroup(s, i, result);
        return Err(EndOfStream);
      }
      var group := s[i] % 128;
      GroupFits(i, result, group);
      if s[i] < 128 {
        LastGroup(s, i, result);
        assert group == s[i];
        return Ok(Read(ToInt32(result + Place(i, group) % TWO32), i + 1));
      }
      assert group == s[i] - 128;
      ContinuesFurther(s, i, result);
      NextGroup(s, i, result, Place(i, group));
      result := result + Place(i, group) % TWO32;
    }
    NoLastGroup(s, 5, result);
    return Err(TooLong);
  }

  lemma NextGroup(s: seq<Byte>, i: nat, result: nat, place: nat)
    requires i < 5 && i < |s| && Continues(s, i + 1, result + place) && (i < 4 ==> place < TWO32)
    ensures Continues(s, i + 1, result + place % TWO32)
  {
  }

  // --- encode, then decode ----------------------------------------------------------------

  /** A number takes at most n bytes exactly if it is below 128 to the n: the encoding is the shortest. */
  lemma {:induction false} EncodingIsShortest(u: nat, n: nat)
    requires n > 0
    ensures |Encoding(u)| <= n <==> u < Pow128(n)
  {
    if n == 1 {
      assert Pow128(1) == 128 * Pow128(0);
    } else if u >= 128 {
      EncodingIsShortest(u / 128, n - 1);
    } else {
      PowPositive(n - 1);
    }
  }

  lemma {:induction false} PowPositive(n: nat)
    ensures Pow128(n) >= 1
  {
    if n > 0 {
      PowPositive(n - 1);
    }
  }

  lemma {:induction false} EncodingReadsBack(u: nat, rest: seq<Byte>, i: nat)
    requires |Encoding(u)| + i <= 5
    ensures ReadGroups(Encoding(u) + rest, i) == Ok(Read(u, |Encoding(u)|))
  {
    if u >= 128 {
      EncodingReadsBack(u / 128, rest, i + 1);
      assert (Encoding(u) + rest)[1..] == Encoding(u / 128) + rest;
    }
  }

  /** Every 32-bit integer takes one to five bytes and reads back, whatever follows. */
  lemma VarIntRoundTrip(v: Int32, rest: seq<Byte>)
    ensures 1 <= |Encoding(ToUint32(v))| <= 5
    ensures Decoded(Encoding(ToUint32(v)) + rest) == Ok(Read(v, |Encoding(ToUint32(v))|))
  {
    Powers();
    EncodingIsShortest(ToUint32(v), 5);
    EncodingReadsBack(ToUint32(v), rest, 0);
  }

  /** What groups of seven bits stand for, the least significant first. */
  function SumOfGroups(s: seq<Byte>): nat {
    if s == [] then 0 else s[0] % 128 + 128 * SumOfGroups(s[1..])
  }

  /**
   The bytes themselves: their groups of seven bits make up the number, and the
   high bit of each tells whether another follows.
   */
  lemma {:induction false} EncodingHoldsTheGroups(u: nat)
    ensures SumOfGroups(Encoding(u)) == u
    ensures forall i :: 0 <= i < |Encoding(u)| ==> (Encoding(u)[i] >= 128 <==> i + 1 < |Encoding(u)|)
  {
    if u < 128 {
      assert [u][1..] == [];
    } else {
      EncodingHoldsTheGroups(u / 128);
      assert Encoding(u)[1..] == Encoding(u / 128);
    }
  }

  /** Whatever is read is what the groups stand for, up to the first byte without its high bit. */
  lemma {:induction false} ReadingSumsTheGroups(s: seq<Byte>, i: nat)
    requires ReadGroups(s, i).Ok?
    ensures var r := ReadGroups(s, i).value;
            && 1 <= r.used <= |s| && r.value == SumOfGroups(s[..r.used])
            && s[r.used - 1] < 128 && forall k :: 0 <= k < r.used - 1 ==> s[k] >= 128
    decreases |s|
  {
    var r := ReadGroups(s, i).value;
    if s[0] < 128 {
      assert s[..1][1..] == [];
    } else {
      ReadingSumsTheGroups(s[1..], i + 1);
      assert s[..r.used][1..] == s[1..][..r.used - 1];
      assert forall k :: 1 <= k < r.used ==> s[k] == s[1..][k - 1];
    }
  }

  /** Some numbers and their bytes; the last two have all 31 and all 32 bits set. */
  lemma WireExamples()
    ensures Encoding(ToUint32(1)) == [1] && Encoding(ToUint32(128)) == [0x80, 0x01]
    ensures Encoding(ToUint32(25_565)) == [0xdd, 0xc7, 0x01]
    ensures Encoding(ToUint32(2_147_483_647)) == [0xff, 0xff, 0xff, 0xff, 0x07]
    ensures Encoding(ToUint32(-1)) == [0xff, 0xff, 0xff, 0xff, 0x0f]
  {
  }

  /** Reading fails exactly if no byte among the first five has its high bit clear: too long, or not yet all there. */
  lemma {:induction false} ReadingFailsIff(s: seq<Byte>, i: nat)
    requires i <= 5
    ensures ReadGroups(s, i) == Err(TooLong) <==> |s| >= 5 - i && forall k :: 0 <= k < 5 - i ==> s[k] >= 128
    ensures ReadGroups(s, i) == Err(EndOfStream) <==> |s| < 5 - i && forall k :: 0 <= k < |s| ==> s[k] >= 128
    decreases |s|
  {
    if i < 5 && s != [] && s[0] >= 128 {
      ReadingFailsIff(s[1..], i + 1);
      assert forall k :: 1 <= k < |s| ==> s[k] == s[1..][k - 1];
    }
  }

  // --- decode, then encode ----------------------------------------------------------------

  lemma {:induction false} GroupsAreBounded(s: seq<Byte>, i: nat)
    requires ReadGroups(s, i).Ok?
    ensures var r := ReadGroups(s, i).value;
            1 <= r.used <= |s| && r.used + i <= 5 && r.value < Pow128(r.used) && s[r.used - 1] < 128
    decreases |s|
  {
    if s[0] >= 128 {
      GroupsAreBounded(s[1..], i + 1);
    } else {
      assert Pow128(1) == 128 * Pow128(0);
    }
  }

  /** No superfluous last group. */
  predicate Minimal(s: seq<Byte>, used: nat)
    requires 1 <= used <= |s|
  {
    used == 1 || s[used - 1] != 0
  }

  lemma {:induction false} MinimalReencodes(s: seq<Byte>, i: nat)
    requires ReadGroups(s, i).Ok? && 1 <= ReadGroups(s, i).value.used <= |s|
    ensures var r := ReadGroups(s, i).value;
            (s[..r.used] == Encoding(r.value) <==> Minimal(s, r.used))
            && (Minimal(s, r.used) && r.used > 1 ==> r.value >= 128)
    decreases |s|
  {
    if s[0] < 128 {
      assert s[..1] == [s[0]];
    } else {
      GroupsAreBounded(s[1..], i + 1);
      MinimalReencodes(s[1..], i + 1);
      var inner := ReadGroups(s[1..], i + 1).value;
      var r := ReadGroups(s, i).value;
      assert s[..r.used] == [s[0]] + s[1..][..inner.used];
      assert s[1..][inner.used - 1] == s[r.used - 1];
      assert r.value / 128 == inner.value && r.value % 128 == s[0] - 128;
      if r.value >= 128 {
        assert Encoding(r.value) == [s[0]] + Encoding(inner.value);
        assert Encoding(r.value)[1..] == Encoding(inner.value);
        assert s[..r.used][1..] == s[1..][..inner.used];
      } else {
        assert inner.value == 0 && Encoding(r.value)[0] == r.value;
      }
    }
  }

  lemma LowBitsBack(v: nat)
    ensures ToUint32(ToInt32(v % TWO32)) == v % TWO32 && (v < TWO32 ==> v % TWO32 == v)
  {
  }

  lemma FewBytesAccepted(s: seq<Byte>, v: nat, used: nat)
    requires ReadGroups(s, 0) == Ok(Read(v, used)) && used < 5
    ensures 1 <= used <= |s| && (s[..used] == Encoding(v % TWO32) <==> Minimal(s, used))
  {
    GroupsAreBounded(s, 0);
    MinimalReencodes(s, 0);
    FewGroupsFit(used, v);
    LowBitsBack(v);
  }

  lemma FiveBytesAccepted(s: seq<Byte>, v: nat)
    requires ReadGroups(s, 0) == Ok(Read(v, 5))
    ensures 5 <= |s| && (s[..5] == Encoding(v % TWO32) <==> Minimal(s, 5) && s[4] < 16)
  {
    GroupsAreBounded(s, 0);
    MinimalReencodes(s, 0);
    FifthByte(s);
    LowBitsBack(v);
    if s[4] >= 16 {
      CutBitsDoNotReencode(s, v);
    }
  }

  /**
   What the reader accepts is the writer's encoding of the value it returns
   exactly if there is no superfluous last group and, of a fifth byte, no bit
   beyond the 32nd is set.
   */
  lemma AcceptedIffShortest(s: seq<Byte>)
    requires Decoded(s).Ok?
    ensures var r := Decoded(s).value;
            && 1 <= r.used <= 5 && r.used <= |s|
            && (s[..r.used] == Encoding(ToUint32(r.value)) <==> Minimal(s, r.used) && (r.used == 5 ==> s[4] < 16))
  {
    GroupsAreBounded(s, 0);
    var r := ReadGroups(s, 0).value;
    LowBitsBack(r.value);
    if r.used < 5 {
      FewBytesAccepted(s, r.value, r.used);
    } else {
      FiveBytesAccepted(s, r.value);
    }
  }

  lemma FewGroupsFit(n: nat, v: nat)
    requires 1 <= n < 5 && v < Pow128(n)
    ensures v < TWO32
  {
    Powers();
  }

  lemma CutBitsDoNotReencode(s: seq<Byte>, v: nat)
    requires |s| >= 5 && ReadGroups(s, 0) == Ok(Read(v, 5)) && v >= TWO32
    ensures s[..5] != Encoding(v % TWO32)
  {
    Powers();
    EncodingIsShortest(v % TWO32, 5);
    EncodingReadsBack(v % TWO32, s[5..], 0);
    assert s == s[..5] + s[5..];
  }

  lemma FifthByte(s: seq<Byte>)
    requires ReadGroups(s, 0).Ok? && ReadGroups(s, 0).value.used == 5 && |s| >= 5
    ensures ReadGroups(s, 0).value.value < TWO32 <==> s[4] < 16
  {
    assert s[0..] == s;
    OneGroup(s, 0);
    OneGroup(s, 1);
    OneGroup(s, 2);
    OneGroup(s, 3);
    var v4, v3, v2, v1 := ReadGroups(s[4..], 4), ReadGroups(s[3..], 3), ReadGroups(s[2..], 2), ReadGroups(s[1..], 1);
    assert v4.value == Read(s[4], 1);
  }

  lemma OneGroup(s: seq<Byte>, i: nat)
    requires i < 4 && i < |s| && ReadGroups(s[i..], i).Ok? && ReadGroups(s[i..], i).value.used == 5 - i && |s| >= 5
    ensures s[i] >= 128 && ReadGroups(s[i + 1..], i + 1).Ok?
    ensures ReadGroups(s[i + 1..], i + 1).value.used == 4 - i
    ensures ReadGroups(s[i..], i).value.value == s[i] - 128 + 128 * ReadGroups(s[i + 1..], i + 1).value.value
  {
  }

  // --- frames --------------------------------------------------------------------------------

  /** writePacket converts the length to 32 bits. */
  function Frame(body: seq<Byte>): seq<Byte> {
    Encoding(|body| % TWO32) + body
  }

  /** The reader of a frame finds the length and the body exactly for bodies whose length is a 32-bit integer. */
  lemma FrameReadsBack(body: seq<Byte>, rest: seq<Byte>)
    ensures var r := Decoded(Frame(body) + rest);
            && r.Ok? && 1 <= r.value.used <= 5
            && (r.value.value == |body| <==> |body| < TWO31)
            && (Frame(body) + rest)[r.value.used..] == body + rest
  {
    var u := |body| % TWO32;
    VarIntRoundTrip(ToInt32(u), body + rest);
    assert Frame(body) + rest == Encoding(u) + (body + rest);
  }
}
