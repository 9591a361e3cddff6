/** An Escher colour property: a property number and a packed 32-bit colour
    value, red in bits 0-7, green in bits 8-15 and blue in bits 16-23. The
    channel getters return Java `byte`s, so a channel of 128 or more comes
    back negative. */
module EscherRgbProperty {
  import opened LittleEndian

  datatype RgbProperty = RgbProperty(propertyNumber: int, propertyValue: int)

  /** `(v >> shift) & 0xFF` for a Java `int` v, with `unit` = 2^shift: an
      arithmetic shift is a division rounding down, which is what Dafny's
      `/` does for a positive divisor. */
  function Channel(v: int, unit: int): (r: int)
    requires unit > 0
    ensures 0 <= r < BYTE_RANGE
  {
    (v / unit) % BYTE_RANGE
  }

  const RED_UNIT: int := 1
  const GREEN_UNIT: int := 0x100
  const BLUE_UNIT: int := 0x1_0000

  /** `getRgbColor`. */
  function GetRgbColor(p: RgbProperty): int {
    p.propertyValue
  }

  /** `getRed`: bits 0-7, as a signed byte. */
  function GetRed(p: RgbProperty): (r: int)
    ensures IsSByte(r) && (r - Channel(p.propertyValue, RED_UNIT)) % BYTE_RANGE == 0
  {
    ToSByte(Channel(p.propertyValue, RED_UNIT))
  }

  /** `getGreen`: bits 8-15, as a signed byte. */
  function GetGreen(p: RgbProperty): (r: int)
    ensures IsSByte(r) && (r - Channel(p.propertyValue, GREEN_UNIT)) % BYTE_RANGE == 0
  {
    ToSByte(Channel(p.propertyValue, GREEN_UNIT))
  }

  /** `getBlue`: bits 16-23, as a signed byte. */
  function GetBlue(p: RgbProperty): (r: int)
    ensures IsSByte(r) && (r - Channel(p.propertyValue, BLUE_UNIT)) % BYTE_RANGE == 0
  {
    ToSByte(Channel(p.propertyValue, BLUE_UNIT))
  }

  /** A channel read back as unsigned (`b & 0xFF`). */
  function Unsigned(b: int): (r: int)
    ensures 0 <= r < BYTE_RANGE
  {
    b % BYTE_RANGE
  }

  /** The unsigned channels put back together are the colour's low 24
      bits: bits 24-31 never reach a channel. */
  lemma ChannelsRecombine(p: RgbProperty)
    ensures Unsigned(GetRed(p)) + 0x100 * Unsigned(GetGreen(p)) + 0x1_0000 * Unsigned(GetBlue(p))
            == GetRgbColor(p) % 0x100_0000
  {
    var v := p.propertyValue;
    UnsignedOfChannel(Channel(v, RED_UNIT));
    UnsignedOfChannel(Channel(v, GREEN_UNIT));
    UnsignedOfChannel(Channel(v, BLUE_UNIT));
    LowBytes(v);
  }

  /** A channel read as a signed byte and back as unsigned is itself. */
  lemma UnsignedOfChannel(c: int)
    requires 0 <= c < BYTE_RANGE
    ensures Unsigned(ToSByte(c)) == c
  {
    if c >= 0x80 {
      assert ToSByte(c) == c - BYTE_RANGE;
    }
  }

  /** The low 24 bits of v are its three low bytes. */
  lemma LowBytes(v: int)
    ensures Channel(v, RED_UNIT) + 0x100 * Channel(v, GREEN_UNIT) + 0x1_0000 * Channel(v, BLUE_UNIT)
            == v % 0x100_0000
  {
    var q1, r0 := v / 0x100, v % 0x100;
    var q2, r1 := q1 / 0x100, q1 % 0x100;
    var q3, r2 := q2 / 0x100, q2 % 0x100;
    assert v == 0x100_0000 * q3 + 0x1_0000 * r2 + 0x100 * r1 + r0;
    assert v / 0x1_0000 == q2;
    assert v % 0x100_0000 == 0x1_0000 * r2 + 0x100 * r1 + r0;
  }

  /** Changing bits 24-31 of the colour changes no channel. */
  lemma HighByteIgnored(p: RgbProperty, k: int)
    ensures GetRed(p.(propertyValue := p.propertyValue + k * 0x100_0000)) == GetRed(p)
    ensures GetGreen(p.(propertyValue := p.propertyValue + k * 0x100_0000)) == GetGreen(p)
    ensures GetBlue(p.(propertyValue := p.propertyValue + k * 0x100_0000)) == GetBlue(p)
  {
    RedIgnoresHighByte(p.propertyValue, k);
    GreenIgnoresHighByte(p.propertyValue, k);
    BlueIgnoresHighByte(p.propertyValue, k);
  }

  lemma RedIgnoresHighByte(v: int, k: int)
    ensures Channel(v + k * 0x100_0000, RED_UNIT) == Channel(v, RED_UNIT)
  {
    assert v + k * 0x100_0000 == v + (k * 0x1_0000) * 0x100;
  }

  lemma GreenIgnoresHighByte(v: int, k: int)
    ensures Channel(v + k * 0x100_0000, GREEN_UNIT) == Channel(v, GREEN_UNIT)
  {
    var w := v + k * 0x100_0000;
    assert w == (v / 0x100 + k * 0x1_0000) * 0x100 + v % 0x100;
    assert w / 0x100 == v / 0x100 + k * 0x1_0000;
    assert v / 0x100 + k * 0x1_0000 == v / 0x100 + (k * 0x100) * 0x100;
  }

  lemma BlueIgnoresHighByte(v: int, k: int)
    ensures Channel(v + k * 0x100_0000, BLUE_UNIT) == Channel(v, BLUE_UNIT)
  {
    var w := v + k * 0x100_0000;
    assert w == (v / 0x1_0000 + k * 0x100) * 0x1_0000 + v % 0x1_0000;
    assert w / 0x1_0000 == v / 0x1_0000 + k * 0x100;
  }

  /** A channel is negative exactly when its top bit is set. */
  lemma ChannelSign(p: RgbProperty)
    ensures GetRed(p) < 0 <==> Channel(p.propertyValue, RED_UNIT) >= 0x80
    ensures GetGreen(p) < 0 <==> Channel(p.propertyValue, GREEN_UNIT) >= 0x80
    ensures GetBlue(p) < 0 <==> Channel(p.propertyValue, BLUE_UNIT) >= 0x80
  {
  }

  /** Pure red, 0x0000FF, has red -1, not 255. */
  lemma PureRedIsNegative()
    ensures GetRed(RgbProperty(0x181, 0xFF)) == -1
    ensures GetGreen(RgbProperty(0x181, 0xFF)) == 0 && GetBlue(RgbProperty(0x181, 0xFF)) == 0
  {
  }
}
