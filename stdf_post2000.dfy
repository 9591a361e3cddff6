/** The post-2000 part of a Word style definition (StdfPost2000): a 16-bit
    flags word, a 32-bit revision-save id (rsid) and a second 16-bit flags
    word, eight bytes little-endian. Equality is field equality; the hash
    mixes the fields with Java `int` arithmetic. */
module StdfPost2000 {
  import opened Wrappers
  import opened LittleEndian

  /** The three fields; `info1` and `info3` are Java `short`s, `rsid` an
      `int`. */
  datatype Stdf = Stdf(info1: int, rsid: int, info3: int)

  predicate WellTyped(s: Stdf) {
    IsShort(s.info1) && IsInt(s.rsid) && IsShort(s.info3)
  }

  /** A Java object reference as `equals` sees it: its identity and, for a
      style of this class, its fields. */
  datatype JavaObject =
    | StdfObject(id: int, fields: Stdf)
    | OtherObject(id: int)

  /** `equals(obj)` called on the style `self` whose identity is `selfId`. */
  function Equals(selfId: int, self: Stdf, obj: Option<JavaObject>): (r: bool)
    ensures obj.Some? && obj.value.id == selfId ==> r
    ensures obj.None? ==> !r
    ensures obj.Some? && obj.value.OtherObject? && obj.value.id != selfId ==> !r
    ensures obj.Some? && obj.value.StdfObject? ==>
              (r <==> obj.value.id == selfId || obj.value.fields == self)
  {
    if obj.Some? && obj.value.id == selfId then true
    else if obj.None? then false
    else if obj.value.OtherObject? then false
    else
      var other := obj.value.fields;
      if self.info1 != other.info1 then false
      else if self.rsid != other.rsid then false
      else self.info3 == other.info3
  }

  /** `equals` is reflexive and symmetric between styles. */
  lemma EqualsIsSymmetric(aId: int, a: Stdf, bId: int, b: Stdf)
    ensures Equals(aId, a, Some(StdfObject(aId, a)))
    ensures Equals(aId, a, Some(StdfObject(bId, b))) == Equals(bId, b, Some(StdfObject(aId, a)))
  {
  }

  /** Java `int` multiply-add, wrapping to 32 bits. */
  function MulAdd(result: int, x: int): (r: int)
    ensures IsInt(r) && (r - (31 * result + x)) % INT_RANGE == 0
  {
    ToInt(31 * result + x)
  }

  /** The rsid term as written, `(int) (rsid ^ (rsid >>> 32))`. `rsid` is
      an `int`, and Java takes an `int` shift distance modulo 32, so the
      shift is by 0 and the term is `rsid ^ rsid`. */
  function RsidTermAsWritten(rsid: int): (r: int)
  {
    var b := (rsid % INT_RANGE) as bv32;
    var shifted := b >> (32 % 32);
    ToInt((b ^ shifted) as int)
  }

  lemma RsidTermIsZero(rsid: int)
    ensures RsidTermAsWritten(rsid) == 0
  {
    var b := (rsid % INT_RANGE) as bv32;
    assert b ^ (b >> 0) == 0;
  }

  /** `hashCode` as written. */
  function HashCodeAsWritten(s: Stdf): (r: int)
    ensures IsInt(r)
  {
    MulAdd(MulAdd(MulAdd(1, s.info1), RsidTermAsWritten(s.rsid)), s.info3)
  }

  /** The hash as written ignores the rsid: styles differing only there
      hash alike. */
  lemma HashCodeAsWrittenIgnoresRsid(s: Stdf, rsid: int)
    ensures HashCodeAsWritten(s.(rsid := rsid)) == HashCodeAsWritten(s)
  {
    RsidTermIsZero(rsid);
    RsidTermIsZero(s.rsid);
  }

  /** The hash with the rsid mixed in as the `int` it is. */
  function HashCode(s: Stdf): (r: int)
    ensures IsInt(r)
  {
    MulAdd(MulAdd(MulAdd(1, s.info1), s.rsid), s.info3)
  }

  /** Either hash keeps the `equals`/`hashCode` contract: equal styles hash
      alike. */
  lemma EqualStylesHashAlike(aId: int, a: Stdf, bId: int, b: Stdf)
    requires aId != bId && Equals(aId, a, Some(StdfObject(bId, b)))
    ensures HashCode(a) == HashCode(b) && HashCodeAsWritten(a) == HashCodeAsWritten(b)
  {
  }

  /** Two congruences subtract to a congruence. */
  lemma CongruentDifference(a: int, b: int, c: int, d: int)
    requires (a - b) % INT_RANGE == 0 && (c - d) % INT_RANGE == 0
    ensures ((a - c) - (b - d)) % INT_RANGE == 0
  {
    var p := (a - b) / INT_RANGE;
    var q := (c - d) / INT_RANGE;
    assert (a - c) - (b - d) == INT_RANGE * (p - q);
  }

  /** The mixed-in hash tells neighbouring rsids apart. */
  lemma HashCodeSeesRsid(s: Stdf)
    ensures HashCode(s.(rsid := s.rsid + 1)) != HashCode(s)
  {
    var h := MulAdd(1, s.info1);
    var x := MulAdd(h, s.rsid);
    var y := MulAdd(h, s.rsid + 1);
    CongruentDifference(y, 31 * h + s.rsid + 1, x, 31 * h + s.rsid);
    var hx := MulAdd(x, s.info3);
    var hy := MulAdd(y, s.info3);
    CongruentDifference(hy, 31 * y + s.info3, hx, 31 * x + s.info3);
    var k := (y - x - 1) / INT_RANGE;
    assert y - x == 1 + INT_RANGE * k;
    assert 31 * y + s.info3 - (31 * x + s.info3) == 31 + INT_RANGE * (31 * k);
    var m := (hy - hx - 31 * (y - x)) / INT_RANGE;
    assert hy - hx == 31 + INT_RANGE * (31 * k + m);
  }

  /** `getSize()`: the fixed structure size. */
  const SIZE: int := 8

  /** `serialize()`: the fields little-endian into a fresh array of
      `getSize()` bytes. */
  function Serialize(s: Stdf): (r: seq<byte>)
    ensures |r| == SIZE
  {
    ShortBytes(s.info1) + IntBytes(s.rsid) + ShortBytes(s.info3)
  }

  /** Reading the fields back, as the `(byte[], offset)` constructor does. */
  function Parse(data: seq<byte>): (r: Result<Stdf, Fault>)
    ensures r.Success? <==> |data| >= SIZE
  {
    var i1 :- TakeShort(data);
    var rs :- TakeInt(i1.1);
    var i3 :- TakeShort(rs.1);
    Success(Stdf(i1.0, rs.0, i3.0))
  }

  /** Serialising and reading back gives the same style. */
  lemma ParseSerialize(s: Stdf)
    requires WellTyped(s)
    ensures Parse(Serialize(s)) == Success(s)
  {
    var b := Serialize(s);
    assert b == ShortBytes(s.info1) + (IntBytes(s.rsid) + (ShortBytes(s.info3) + []));
    TakeShortOfWritten(s.info1, IntBytes(s.rsid) + (ShortBytes(s.info3) + []));
    TakeIntOfWritten(s.rsid, ShortBytes(s.info3) + []);
    TakeShortOfWritten(s.info3, []);
  }
}
