/** The primitive byte codec underneath every record: Java's integer casts,
    little-endian reads (`LittleEndianInput`, `RecordInputStream`) and writes
    (`LittleEndianOutput`, `LittleEndianByteArrayOutputStream`).

    A read works on the unread remainder of a buffer and returns the value
    with the new remainder, or the fault the Java reader throws when too few
    bytes are left. */
module LittleEndian {
  import opened Wrappers

  newtype byte = x: int | 0 <= x < 0x100

  /** The exceptions the modelled Java code can raise. */
  datatype Fault =
    | TruncatedInput      // a read past the end of the record or stream
    | IndexOutOfBounds    // System.arraycopy or an array index out of range
    | NegativeArraySize   // `new byte[n]` with n < 0
    | NullReference       // a method called on, or bytes copied from, null
    | UnknownAlgorithm    // an enum lookup by ecma id that finds no constant

  const BYTE_RANGE: int := 0x100
  const SHORT_RANGE: int := 0x1_0000
  const INT_RANGE: int := 0x1_0000_0000

  /** Java `byte`, `short`, `int`, and an unsigned 16-bit value. */
  predicate IsSByte(v: int) { -0x80 <= v < 0x80 }
  predicate IsShort(v: int) { -0x8000 <= v < 0x8000 }
  predicate IsUShort(v: int) { 0 <= v < 0x1_0000 }
  predicate IsInt(v: int) { -0x8000_0000 <= v < 0x8000_0000 }

  /** Java's `(byte) v`: keep the low 8 bits, read them as two's complement. */
  function ToSByte(v: int): (r: int)
    ensures IsSByte(r) && (v - r) % BYTE_RANGE == 0
    ensures IsSByte(v) ==> r == v
  {
    var u := v % BYTE_RANGE;
    if u < 0x80 then u else u - BYTE_RANGE
  }

  /** Java's `(short) v`. */
  function ToShort(v: int): (r: int)
    ensures IsShort(r) && (v - r) % SHORT_RANGE == 0
    ensures IsShort(v) ==> r == v
  {
    var u := v % SHORT_RANGE;
    if u < 0x8000 then u else u - SHORT_RANGE
  }

  /** Java's `(int) v` and the wrap-around of `int` arithmetic. */
  function ToInt(v: int): (r: int)
    ensures IsInt(r) && (v - r) % INT_RANGE == 0
    ensures IsInt(v) ==> r == v
  {
    var u := v % INT_RANGE;
    if u < 0x8000_0000 then u else u - INT_RANGE
  }

  // ---------------------------------------------------------------- writing

  /** `writeByte(v)`: the low 8 bits of v. */
  function ByteOf(v: int): (b: byte)
    ensures b as int == v % BYTE_RANGE
  {
    (v % BYTE_RANGE) as byte
  }

  /** `writeShort(v)`: the low 16 bits of v, least significant byte first. */
  function ShortBytes(v: int): (r: seq<byte>)
    ensures |r| == 2
    ensures r[0] as int + 0x100 * r[1] as int == v % SHORT_RANGE
  {
    [ByteOf(v), ByteOf(v / 0x100)]
  }

  /** `writeInt(v)`: the low 32 bits of v, least significant byte first. */
  function IntBytes(v: int): (r: seq<byte>)
    ensures |r| == 4
    ensures r[0] as int + 0x100 * r[1] as int + 0x1_0000 * r[2] as int
            + 0x100_0000 * r[3] as int == v % INT_RANGE
  {
    IntBytesValue(v);
    [ByteOf(v), ByteOf(v / 0x100), ByteOf(v / 0x1_0000), ByteOf(v / 0x100_0000)]
  }

  /** The four bytes of `writeInt` put together again give the low 32 bits. */
  lemma IntBytesValue(v: int)
    ensures v % 0x100 + 0x100 * ((v / 0x100) % 0x100) + 0x1_0000 * ((v / 0x1_0000) % 0x100)
            + 0x100_0000 * ((v / 0x100_0000) % 0x100) == v % INT_RANGE
  {
    var q1, r0 := v / 0x100, v % 0x100;
    var q2, r1 := q1 / 0x100, q1 % 0x100;
    var q3, r2 := q2 / 0x100, q2 % 0x100;
    var q4, r3 := q3 / 0x100, q3 % 0x100;
    assert v == 0x100_0000_00 * q4 + 0x100_0000 * r3 + 0x1_0000 * r2 + 0x100 * r1 + r0;
    assert v / 0x1_0000 == q2;
    assert v / 0x100_0000 == q3;
    assert v % INT_RANGE == 0x100_0000 * r3 + 0x1_0000 * r2 + 0x100 * r1 + r0;
  }

  /** A run of n zero bytes (a fresh Java `byte[n]`). */
  function Zeros(n: nat): (r: seq<byte>)
    ensures |r| == n && forall k :: 0 <= k < n ==> r[k] == 0
  {
    seq(n, _ => 0)
  }

  // ---------------------------------------------------------------- reading

  /** `readUByte()`. */
  function TakeUByte(s: seq<byte>): (r: Result<(int, seq<byte>), Fault>)
    ensures r.Success? <==> |s| >= 1
    ensures r.Success? ==> r.value.1 == s[1..]
  {
    if |s| < 1 then Failure(TruncatedInput) else Success((s[0] as int, s[1..]))
  }

  /** `readByte()`: one byte, sign-extended. */
  function TakeSByte(s: seq<byte>): (r: Result<(int, seq<byte>), Fault>)
    ensures r.Success? <==> |s| >= 1
    ensures r.Success? ==> IsSByte(r.value.0) && r.value.1 == s[1..]
  {
    if |s| < 1 then Failure(TruncatedInput) else Success((ToSByte(s[0] as int), s[1..]))
  }

  /** `readUShort()`. */
  function TakeUShort(s: seq<byte>): (r: Result<(int, seq<byte>), Fault>)
    ensures r.Success? <==> |s| >= 2
    ensures r.Success? ==> IsUShort(r.value.0) && r.value.1 == s[2..]
  {
    if |s| < 2 then Failure(TruncatedInput)
    else Success((s[0] as int + 0x100 * s[1] as int, s[2..]))
  }

  /** `readShort()`: two bytes, sign-extended to an `int`. */
  function TakeShort(s: seq<byte>): (r: Result<(int, seq<byte>), Fault>)
    ensures r.Success? <==> |s| >= 2
    ensures r.Success? ==> IsShort(r.value.0) && r.value.1 == s[2..]
  {
    if |s| < 2 then Failure(TruncatedInput)
    else Success((ToShort(s[0] as int + 0x100 * s[1] as int), s[2..]))
  }

  /** `readInt()`. */
  function TakeInt(s: seq<byte>): (r: Result<(int, seq<byte>), Fault>)
    ensures r.Success? <==> |s| >= 4
    ensures r.Success? ==> IsInt(r.value.0) && r.value.1 == s[4..]
  {
    if |s| < 4 then Failure(TruncatedInput)
    else Success((ToInt(s[0] as int + 0x100 * s[1] as int + 0x1_0000 * s[2] as int
                        + 0x100_0000 * s[3] as int), s[4..]))
  }

  /** `readFully(new byte[n])`: exactly n bytes. */
  function TakeBytes(s: seq<byte>, n: int): (r: Result<(seq<byte>, seq<byte>), Fault>)
    ensures r.Success? <==> 0 <= n <= |s|
    ensures r.Success? ==> |r.value.0| == n && r.value.0 + r.value.1 == s
  {
    if n < 0 then Failure(NegativeArraySize)
    else if n > |s| then Failure(TruncatedInput)
    else Success((s[..n], s[n..]))
  }

  // ------------------------------------------------- reading what was written

  lemma {:induction false} TakeSByteOfWritten(v: int, rest: seq<byte>)
    requires IsSByte(v)
    ensures TakeSByte([ByteOf(v)] + rest) == Success((v, rest))
  {
    assert ([ByteOf(v)] + rest)[1..] == rest;
  }

  lemma {:induction false} TakeUShortOfWritten(v: int, rest: seq<byte>)
    ensures TakeUShort(ShortBytes(v) + rest) == Success((v % SHORT_RANGE, rest))
  {
    var s := ShortBytes(v) + rest;
    assert s[0] == ShortBytes(v)[0] && s[1] == ShortBytes(v)[1];
    assert s[2..] == rest;
  }

  lemma {:induction false} TakeShortOfWritten(v: int, rest: seq<byte>)
    requires IsShort(v)
    ensures TakeShort(ShortBytes(v) + rest) == Success((v, rest))
  {
    var s := ShortBytes(v) + rest;
    assert s[0] == ShortBytes(v)[0] && s[1] == ShortBytes(v)[1];
    assert s[2..] == rest;
    ToShortOfLowBits(v);
  }

  /** Reading back the low 16 bits of a `short` as a `short` gives it back. */
  lemma ToShortOfLowBits(v: int)
    requires IsShort(v)
    ensures ToShort(v % SHORT_RANGE) == v
  {
    if v >= 0 {
      assert v % SHORT_RANGE == v;
    } else {
      assert v % SHORT_RANGE == v + SHORT_RANGE;
    }
  }

  lemma {:induction false} TakeIntOfWritten(v: int, rest: seq<byte>)
    requires IsInt(v)
    ensures TakeInt(IntBytes(v) + rest) == Success((v, rest))
  {
    var s := IntBytes(v) + rest;
    var u := s[0] as int + 0x100 * s[1] as int + 0x1_0000 * s[2] as int + 0x100_0000 * s[3] as int;
    assert u == v % INT_RANGE by {
      assert s[..4] == IntBytes(v);
    }
    assert s[4..] == rest;
    ToIntOfLowBits(v);
  }

  /** Reading back the low 32 bits of an `int` as an `int` gives it back. */
  lemma ToIntOfLowBits(v: int)
    requires IsInt(v)
    ensures ToInt(v % INT_RANGE) == v
  {
    if v >= 0 {
      assert v % INT_RANGE == v;
    } else {
      assert v % INT_RANGE == v + INT_RANGE;
    }
  }

  lemma {:induction false} TakeBytesOfWritten(b: seq<byte>, rest: seq<byte>)
    ensures TakeBytes(b + rest, |b|) == Success((b, rest))
  {
    assert (b + rest)[..|b|] == b;
    assert (b + rest)[|b|..] == rest;
  }

  // ------------------------------------------------------- the mutable ends

  /** A `RecordInputStream` / `LittleEndianInput` over one record's payload:
      the buffer and the position of the next unread byte. */
  class ByteCursor {
    const data: seq<byte>
    var pos: nat

    ghost predicate Valid()
      reads this
    {
      pos <= |data|
    }

    /** The bytes not read yet. */
    function Rest(): seq<byte>
      reads this
      requires Valid()
    {
      data[pos..]
    }

    /** `remaining()`. */
    function Remaining(): (n: nat)
      reads this
      requires Valid()
      ensures n == |Rest()|
    {
      |data| - pos
    }

    constructor (data: seq<byte>)
      ensures Valid() && this.data == data && pos == 0
    {
      this.data := data;
      pos := 0;
    }

    method ReadUByte() returns (r: Result<int, Fault>)
      requires Valid()
      modifies this
      ensures Valid()
      ensures match TakeUByte(old(Rest()))
              case Success(p) => r == Success(p.0) && Rest() == p.1
              case Failure(e) => r == Failure(e)
    {
      if pos + 1 > |data| {
        return Failure(TruncatedInput);
      }
      r := Success(data[pos] as int);
      pos := pos + 1;
    }

    method ReadSByte() returns (r: Result<int, Fault>)
      requires Valid()
      modifies this
      ensures Valid()
      ensures match TakeSByte(old(Rest()))
              case Success(p) => r == Success(p.0) && Rest() == p.1
              case Failure(e) => r == Failure(e)
    {
      if pos + 1 > |data| {
        return Failure(TruncatedInput);
      }
      r := Success(ToSByte(data[pos] as int));
      pos := pos + 1;
    }

    method ReadUShort() returns (r: Result<int, Fault>)
      requires Valid()
      modifies this
      ensures Valid()
      ensures match TakeUShort(old(Rest()))
              case Success(p) => r == Success(p.0) && Rest() == p.1
              case Failure(e) => r == Failure(e)
    {
      if pos + 2 > |data| {
        return Failure(TruncatedInput);
      }
      r := Success(data[pos] as int + 0x100 * data[pos + 1] as int);
      pos := pos + 2;
    }

    method ReadShort() returns (r: Result<int, Fault>)
      requires Valid()
      modifies this
      ensures Valid()
      ensures match TakeShort(old(Rest()))
              case Success(p) => r == Success(p.0) && Rest() == p.1
              case Failure(e) => r == Failure(e)
    {
      if pos + 2 > |data| {
        return Failure(TruncatedInput);
      }
      r := Success(ToShort(data[pos] as int + 0x100 * data[pos + 1] as int));
      pos := pos + 2;
    }

    method ReadInt() returns (r: Result<int, Fault>)
      requires Valid()
      modifies this
      ensures Valid()
      ensures match TakeInt(old(Rest()))
              case Success(p) => r == Success(p.0) && Rest() == p.1
              case Failure(e) => r == Failure(e)
    {
      if pos + 4 > |data| {
        return Failure(TruncatedInput);
      }
      r := Success(ToInt(data[pos] as int + 0x100 * data[pos + 1] as int
                         + 0x1_0000 * data[pos + 2] as int + 0x100_0000 * data[pos + 3] as int));
      pos := pos + 4;
    }

    /** Peek at the next `int` without consuming it (`mark`, `readInt`, `reset`). */
    method PeekInt() returns (r: Result<int, Fault>)
      requires Valid()
      ensures match TakeInt(Rest())
              case Success(p) => r == Success(p.0)
              case Failure(e) => r == Failure(e)
    {
      if pos + 4 > |data| {
        return Failure(TruncatedInput);
      }
      r := Success(ToInt(data[pos] as int + 0x100 * data[pos + 1] as int
                         + 0x1_0000 * data[pos + 2] as int + 0x100_0000 * data[pos + 3] as int));
    }

    /** `readFully(new byte[n])`. */
    method ReadBytes(n: int) returns (r: Result<seq<byte>, Fault>)
      requires Valid()
      modifies this
      ensures Valid()
      ensures match TakeBytes(old(Rest()), n)
              case Success(p) => r == Success(p.0) && Rest() == p.1
              case Failure(e) => r == Failure(e)
    {
      if n < 0 {
        return Failure(NegativeArraySize);
      }
      if pos + n > |data| {
        return Failure(TruncatedInput);
      }
      assert data[pos..][..n] == data[pos..pos + n] && data[pos..][n..] == data[pos + n..];
      r := Success(data[pos..pos + n]);
      pos := pos + n;
    }

    /** `readRemainder()`: everything left. */
    method ReadRemainder() returns (r: seq<byte>)
      requires Valid()
      modifies this
      ensures Valid()
      ensures r == old(Rest()) && Rest() == []
    {
      r := data[pos..];
      pos := |data|;
    }
  }

  /** A `LittleEndianOutput` growing a byte buffer. */
  class ByteSink {
    var written: seq<byte>

    constructor ()
      ensures written == []
    {
      written := [];
    }

    method WriteByte(v: int)
      modifies this
      ensures written == old(written) + [ByteOf(v)]
    {
      written := written + [ByteOf(v)];
    }

    method WriteShort(v: int)
      modifies this
      ensures written == old(written) + ShortBytes(v)
    {
      written := written + ShortBytes(v);
    }

    method WriteInt(v: int)
      modifies this
      ensures written == old(written) + IntBytes(v)
    {
      written := written + IntBytes(v);
    }

    method Write(b: seq<byte>)
      modifies this
      ensures written == old(written) + b
    {
      written := written + b;
    }

    /** `createDelayedOutput(4)`: reserve an `int` slot to be filled in later;
        returns where the slot starts. */
    method CreateDelayedInt() returns (at: nat)
      modifies this
      ensures at == |old(written)| && written == old(written) + Zeros(4)
    {
      at := |written|;
      written := written + Zeros(4);
    }

    /** Write an `int` into a slot reserved earlier. */
    method PatchInt(at: nat, v: int)
      requires at + 4 <= |written|
      modifies this
      ensures written == old(written)[..at] + IntBytes(v) + old(written)[at + 4..]
    {
      written := written[..at] + IntBytes(v) + written[at + 4..];
    }
  }
}
