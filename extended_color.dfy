/** An XSSF-style colour in an HSSF file (conditional formatting, sheet
    extensions): a type, a palette index, a theme index and an RGBA byte
    quadruple. The user-model wrapper trims or reorders the stored RGBA.

    Java bytes are kept as ints. */
module ExtendedColor {
  import opened Wrappers
  import opened LittleEndian

  const TYPE_AUTO: int := 0
  const TYPE_INDEXED: int := 1
  const TYPE_RGB: int := 2
  const TYPE_THEMED: int := 3

  /** The alpha byte of an opaque colour, `(byte) 0xFF`. */
  const OPAQUE: int := -1

  /** The colour record: what the wrapper reads and sets. `setRGBA` keeps
      the bytes it is given; null is None. */
  class ColorRecord {
    var typ: int
    var colorIndex: int
    var themeIndex: int
    var rgba: Option<seq<int>>

    constructor (typ: int, colorIndex: int, themeIndex: int, rgba: Option<seq<int>>)
      ensures this.typ == typ && this.colorIndex == colorIndex
      ensures this.themeIndex == themeIndex && this.rgba == rgba
    {
      this.typ := typ;
      this.colorIndex := colorIndex;
      this.themeIndex := themeIndex;
      this.rgba := rgba;
    }
  }

  /** RGB from stored RGBA: the first three bytes, or null when nothing is
      stored; copying three bytes out of a shorter array throws. */
  function RgbOf(rgba: Option<seq<int>>): (r: Result<Option<seq<int>>, Fault>)
    ensures rgba.None? ==> r == Success(None)
    ensures rgba.Some? ==> (r.Success? <==> |rgba.value| >= 3)
    ensures r.Success? && r.value.Some? ==> |r.value.value| == 3 && r.value.value == rgba.value[..3]
  {
    if rgba.None? then Success(None)
    else if |rgba.value| < 3 then Failure(IndexOutOfBounds)
    else Success(Some(rgba.value[..3]))
  }

  /** ARGB from stored RGBA: alpha first, then red, green and blue. */
  function ArgbOf(rgba: Option<seq<int>>): (r: Result<Option<seq<int>>, Fault>)
    ensures rgba.None? ==> r == Success(None)
    ensures rgba.Some? ==> (r.Success? <==> |rgba.value| >= 4)
    ensures r.Success? && r.value.Some? ==>
              |r.value.value| == 4 && r.value.value[0] == rgba.value[3] && r.value.value[1..] == rgba.value[..3]
  {
    if rgba.None? then Success(None)
    else if |rgba.value| < 4 then Failure(IndexOutOfBounds)
    else Success(Some([rgba.value[3]] + rgba.value[..3]))
  }

  /** The in-place shuffle from ARGB to RGBA of an array of 4 or more
      bytes: the first four rotate left by one, the rest stay. */
  function ArgbToRgba(argb: seq<int>): (r: seq<int>)
    requires |argb| >= 4
    ensures |r| == |argb| && r[3] == argb[0] && r[..3] == argb[1..4] && r[4..] == argb[4..]
  {
    argb[1..4] + [argb[0]] + argb[4..]
  }

  /** Storing a 4-byte ARGB colour and reading it back as ARGB gives the
      same four bytes. */
  lemma ArgbRoundTrip(argb: seq<int>)
    requires |argb| == 4
    ensures ArgbOf(Some(ArgbToRgba(argb))) == Success(Some(argb))
    ensures RgbOf(Some(ArgbToRgba(argb))) == Success(Some(argb[1..]))
  {
    var rgba := ArgbToRgba(argb);
    assert [rgba[3]] + rgba[..3] == argb;
  }

  /** The user-model wrapper around a colour record. */
  class HSSFExtendedColor {
    const color: ColorRecord

    constructor (color: ColorRecord)
      ensures this.color == color
    {
      this.color := color;
    }

    /** The four type tests. */
    predicate IsAuto()
      reads this, color
    {
      color.typ == TYPE_AUTO
    }

    predicate IsIndexed()
      reads this, color
    {
      color.typ == TYPE_INDEXED
    }

    predicate IsRGB()
      reads this, color
    {
      color.typ == TYPE_RGB
    }

    predicate IsThemed()
      reads this, color
    {
      color.typ == TYPE_THEMED
    }

    /** `getIndex`: the palette index cast to `short`. */
    function GetIndex(): (r: int)
      reads this, color
      ensures IsShort(r) && (r - color.colorIndex) % SHORT_RANGE == 0
      ensures IsShort(color.colorIndex) ==> r == color.colorIndex
    {
      ToShort(color.colorIndex)
    }

    /** `getRGB`: a fresh array holding the stored red, green and blue. */
    function GetRGB(): (r: Result<Option<seq<int>>, Fault>)
      reads this, color
    {
      RgbOf(color.rgba)
    }

    /** `getARGB`: a fresh array holding alpha, red, green and blue. */
    function GetARGB(): (r: Result<Option<seq<int>>, Fault>)
      reads this, color
    {
      ArgbOf(color.rgba)
    }

    /** `setRGB` as written. A 3-byte array is copied into a new RGBA array
        that is then dropped: nothing is stored. Any other array is shuffled
        from ARGB to RGBA in place, so the caller's array changes, and
        stored; an array of fewer than 4 bytes throws part way through the
        shuffle. */
    method SetRGB(rgb: array<int>) returns (fault: Option<Fault>)
      modifies rgb, color
      ensures rgb.Length == 3 ==> fault.None? && rgb[..] == old(rgb[..]) && color.rgba == old(color.rgba)
      ensures rgb.Length >= 4 ==> fault.None? && rgb[..] == ArgbToRgba(old(rgb[..])) && color.rgba == Some(rgb[..])
      ensures rgb.Length < 3 ==> fault == Some(IndexOutOfBounds) && color.rgba == old(color.rgba)
      ensures rgb.Length == 2 ==> rgb[..] == [old(rgb[1]), old(rgb[1])]
      ensures rgb.Length < 2 ==> rgb[..] == old(rgb[..])
      ensures color.typ == old(color.typ) && color.colorIndex == old(color.colorIndex)
      ensures color.themeIndex == old(color.themeIndex)
    {
      if rgb.Length == 3 {
        var rgba := new int[4];
        rgba[0], rgba[1], rgba[2] := rgb[0], rgb[1], rgb[2];
        rgba[3] := OPAQUE;
        return None;
      }
      if rgb.Length < 1 {
        return Some(IndexOutOfBounds);
      }
      var a := rgb[0];
      if rgb.Length < 2 {
        return Some(IndexOutOfBounds);
      }
      rgb[0] := rgb[1];
      if rgb.Length < 3 {
        return Some(IndexOutOfBounds);
      }
      rgb[1] := rgb[2];
      rgb[2] := rgb[3];
      rgb[3] := a;
      color.rgba := Some(rgb[..]);
      fault := None;
    }

    /** `setRGB` with the 3-byte branch storing the opaque colour it
        builds. */
    method SetRGBStoring(rgb: array<int>) returns (fault: Option<Fault>)
      modifies rgb, color
      ensures rgb.Length == 3 ==> fault.None? && rgb[..] == old(rgb[..]) && color.rgba == Some(old(rgb[..]) + [OPAQUE])
      ensures rgb.Length >= 4 ==> fault.None? && rgb[..] == ArgbToRgba(old(rgb[..])) && color.rgba == Some(rgb[..])
      ensures rgb.Length < 3 ==> fault == Some(IndexOutOfBounds) && color.rgba == old(color.rgba)
      ensures rgb.Length == 2 ==> rgb[..] == [old(rgb[1]), old(rgb[1])]
      ensures rgb.Length < 2 ==> rgb[..] == old(rgb[..])
      ensures color.typ == old(color.typ) && color.colorIndex == old(color.colorIndex)
      ensures color.themeIndex == old(color.themeIndex)
    {
      if rgb.Length == 3 {
        var rgba := new int[4];
        rgba[0], rgba[1], rgba[2] := rgb[0], rgb[1], rgb[2];
        rgba[3] := OPAQUE;
        assert rgb[..] == [rgb[0], rgb[1], rgb[2]];
        assert rgba[..] == [rgb[0], rgb[1], rgb[2], OPAQUE];
        assert rgb[..] == old(rgb[..]);
        assert rgba[..] == old(rgb[..]) + [OPAQUE];
        color.rgba := Some(rgba[..]);
        return None;
      }
      fault := SetRGB(rgb);
    }
  }

  /** At most one of the type tests holds, and for the four known types
      exactly one does. */
  lemma TypeTestsExclusive(c: HSSFExtendedColor)
    ensures (if c.IsAuto() then 1 else 0) + (if c.IsIndexed() then 1 else 0)
            + (if c.IsRGB() then 1 else 0) + (if c.IsThemed() then 1 else 0)
            == (if 0 <= c.color.typ <= 3 then 1 else 0)
  {
  }

  /** Setting a 3-byte colour as written leaves the stored colour, and so
      what `getRGB` and `getARGB` return, unchanged. */
  method SetRGB3AsWrittenIsLost(c: HSSFExtendedColor, r: int, g: int, b: int)
    modifies c.color
    ensures c.color.rgba == old(c.color.rgba)
    ensures c.GetRGB() == old(c.GetRGB()) && c.GetARGB() == old(c.GetARGB())
  {
    var rgb := new int[3];
    rgb[0], rgb[1], rgb[2] := r, g, b;
    var fault := c.SetRGB(rgb);
  }

  /** With the 3-byte branch storing its colour, `getRGB` returns the three
      bytes set and `getARGB` puts the opaque alpha in front of them. */
  method SetRGB3StoringIsKept(c: HSSFExtendedColor, r: int, g: int, b: int)
    modifies c.color
    ensures c.GetRGB() == Success(Some([r, g, b]))
    ensures c.GetARGB() == Success(Some([OPAQUE, r, g, b]))
  {
    var rgb := new int[3];
    rgb[0], rgb[1], rgb[2] := r, g, b;
    assert rgb[..] == [r, g, b];
    var fault := c.SetRGBStoring(rgb);
    assert [r, g, b] + [OPAQUE] == [r, g, b, OPAQUE];
    assert [r, g, b, OPAQUE][..3] == [r, g, b];
    assert [OPAQUE] + [r, g, b] == [OPAQUE, r, g, b];
  }

  /** After `setRGB` with a 4-byte ARGB array, `getARGB` returns the same
      four bytes, while the caller's array now holds RGBA. */
  method SetThenGetArgb(c: HSSFExtendedColor, argb: seq<int>) returns (got: Result<Option<seq<int>>, Fault>)
    requires |argb| == 4
    modifies c.color
    ensures got == Success(Some(argb))
  {
    var arr := new int[4];
    arr[0], arr[1], arr[2], arr[3] := argb[0], argb[1], argb[2], argb[3];
    assert arr[..] == argb;
    var fault := c.SetRGB(arr);
    ArgbRoundTrip(argb);
    got := c.GetARGB();
  }
}
