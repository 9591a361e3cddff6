/** The BIFF8 beginning-of-file record ([MS-XLS] section 2.4.21, record type
    0x0809): version, substream type, build, build year, file history flags
    and the lowest version able to read the file. */
module BofRecord {
  import opened Wrappers
  import opened LittleEndian

  const SID: int := 0x809
  const VERSION: int := 0x0600
  const BUILD: int := 0x10d3
  const BUILD_YEAR: int := 0x07CC
  const HISTORY_MASK: int := 0x41

  const TYPE_WORKBOOK: int := 0x05
  const TYPE_VB_MODULE: int := 0x06
  const TYPE_WORKSHEET: int := 0x10
  const TYPE_CHART: int := 0x20
  const TYPE_EXCEL_4_MACRO: int := 0x40
  const TYPE_WORKSPACE_FILE: int := 0x100

  /** The six fields of the record, each a Java `int`. */
  datatype BofFields = BofFields(version: int, typ: int, build: int, year: int, history: int, rversion: int)

  /** The fields as the record's Java fields can hold them after a read: the
      first four were read as signed shorts, the last two as ints. */
  predicate InRange(f: BofFields) {
    IsShort(f.version) && IsShort(f.typ) && IsShort(f.build) && IsShort(f.year)
    && IsInt(f.history) && IsInt(f.rversion)
  }

  /** `serialize`: four shorts, then two ints, little-endian. */
  function SerializeBof(f: BofFields): (r: seq<byte>)
    ensures |r| == 16
  {
    ShortBytes(f.version) + (ShortBytes(f.typ) + (ShortBytes(f.build) + (ShortBytes(f.year)
      + (IntBytes(f.history) + IntBytes(f.rversion)))))
  }

  /** Reads a short when at least two bytes remain; otherwise the field keeps
      Java's default of 0 and nothing is consumed. */
  function OptionalShort(s: seq<byte>): (r: (int, seq<byte>))
    ensures |s| < 2 ==> r == (0, s)
  {
    if |s| >= 2 then TakeShort(s).value else (0, s)
  }

  /** Reads an int when at least four bytes remain, as `OptionalShort`. */
  function OptionalInt(s: seq<byte>): (r: (int, seq<byte>))
    ensures |s| < 4 ==> r == (0, s)
  {
    if |s| >= 4 then TakeInt(s).value else (0, s)
  }

  /** The `BOFRecord(RecordInputStream)` constructor on the record's
      remaining bytes: version and type must be present; each later field
      is read only when enough bytes remain, so files written by tools that
      omit them still load. Returns the fields and the unread bytes. */
  function ParseBof(p: seq<byte>): (r: Result<(BofFields, seq<byte>), Fault>)
    ensures r.Success? <==> |p| >= 4
    ensures r.Success? ==> InRange(r.value.0)
    ensures r.Success? && |p| < 6 ==> r.value.0.build == 0
    ensures r.Success? && |p| < 8 ==> r.value.0.year == 0
    ensures r.Success? && |p| < 12 ==> r.value.0.history == 0
    ensures r.Success? && |p| < 16 ==> r.value.0.rversion == 0
    ensures r.Success? ==> r.value.1 == p[Consumed(|p|)..]
  {
    var version :- TakeShort(p);
    var typ :- TakeShort(version.1);
    var build := OptionalShort(typ.1);
    var year := OptionalShort(build.1);
    var history := OptionalInt(year.1);
    var rversion := OptionalInt(history.1);
    Success((BofFields(version.0, typ.0, build.0, year.0, history.0, rversion.0), rversion.1))
  }

  /** How many of n remaining bytes the reader consumes: 4, then each optional
      field that still fits. Bytes that do not make a whole field stay unread. */
  function Consumed(n: nat): (c: nat)
    requires n >= 4
    ensures c <= n && (n >= 16 <==> c == 16)
  {
    if n >= 16 then 16 else if n >= 12 then 12 else if n >= 8 then 8 else if n >= 6 then 6 else 4
  }

  /** Reading back what `serialize` wrote gives the same fields, and leaves
      whatever followed the record untouched. */
  lemma {:induction false} ParseSerializeBof(f: BofFields, extra: seq<byte>)
    requires InRange(f)
    ensures ParseBof(SerializeBof(f) + extra) == Success((f, extra))
  {
    var i2 := IntBytes(f.history) + IntBytes(f.rversion) + extra;
    var s4 := ShortBytes(f.year) + i2;
    var s3 := ShortBytes(f.build) + s4;
    var s2 := ShortBytes(f.typ) + s3;
    assert SerializeBof(f) + extra == ShortBytes(f.version) + s2;
    TakeShortOfWritten(f.version, s2);
    TakeShortOfWritten(f.typ, s3);
    TakeShortOfWritten(f.build, s4);
    TakeShortOfWritten(f.year, i2);
    TakeIntOfWritten(f.history, IntBytes(f.rversion) + extra);
    TakeIntOfWritten(f.rversion, extra);
  }

  /** The fields a reader recovers from the first n bytes of a serialized
      record: those lying wholly within the n bytes, the rest 0. */
  function Truncated(f: BofFields, n: nat): (r: BofFields)
    ensures n >= 16 ==> r == f
  {
    BofFields(f.version, f.typ,
      if n >= 6 then f.build else 0,
      if n >= 8 then f.year else 0,
      if n >= 12 then f.history else 0,
      if n >= 16 then f.rversion else 0)
  }

  /** A record cut short after its type is still read: every field that was
      fully written is recovered and the missing ones are 0. */
  lemma {:induction false} ParseTruncatedBof(f: BofFields, n: nat)
    requires InRange(f) && 4 <= n <= 16
    ensures ParseBof(SerializeBof(f)[..n]).Success?
    ensures ParseBof(SerializeBof(f)[..n]).value.0 == Truncated(f, n)
  {
    var s := SerializeBof(f);
    ParseSerializeBof(f, []);
    assert s + [] == s;
    var p := s[..n];
    assert p[..4] == s[..4];
    assert TakeShort(p).value.0 == f.version && TakeShort(p).value.1 == s[2..n];
    assert TakeShort(s[2..n]).value.0 == f.typ;
    var t := s[4..n];
    assert TakeShort(p).value.1[2..] == t;
    if n >= 6 {
      assert OptionalShort(t) == (f.build, s[6..n]);
    }
    if n >= 8 {
      assert OptionalShort(s[6..n]) == (f.year, s[8..n]);
    }
    if n >= 12 {
      assert OptionalInt(s[8..n]) == (f.history, s[12..n]);
    }
    if n == 16 {
      assert OptionalInt(s[12..n]) == (f.rversion, s[16..n]);
    }
  }

  /** `getTypeName`. */
  function TypeName(typ: int): (r: string)
    ensures r == "#error unknown type#" <==>
            typ !in {TYPE_CHART, TYPE_EXCEL_4_MACRO, TYPE_VB_MODULE, TYPE_WORKBOOK, TYPE_WORKSHEET, TYPE_WORKSPACE_FILE}
  {
    if typ == TYPE_CHART then "chart"
    else if typ == TYPE_EXCEL_4_MACRO then "excel 4 macro"
    else if typ == TYPE_VB_MODULE then "vb module"
    else if typ == TYPE_WORKBOOK then "workbook"
    else if typ == TYPE_WORKSHEET then "worksheet"
    else if typ == TYPE_WORKSPACE_FILE then "workspace file"
    else "#error unknown type#"
  }

  /** `if (in.remaining() >= 2) field = in.readShort();` with the field's
      default 0 otherwise. */
  method ReadOptionalShort(input: ByteCursor) returns (v: int)
    requires input.Valid()
    modifies input
    ensures input.Valid()
    ensures (v, input.Rest()) == OptionalShort(old(input.Rest()))
  {
    v := 0;
    if input.Remaining() >= 2 {
      var r := input.ReadShort();
      v := r.value;
    }
  }

  /** `if (in.remaining() >= 4) field = in.readInt();`, as above. */
  method ReadOptionalInt(input: ByteCursor) returns (v: int)
    requires input.Valid()
    modifies input
    ensures input.Valid()
    ensures (v, input.Rest()) == OptionalInt(old(input.Rest()))
  {
    v := 0;
    if input.Remaining() >= 4 {
      var r := input.ReadInt();
      v := r.value;
    }
  }

  /** The record object; every field is updated in place by its setter. */
  class BOFRecord {
    var version: int
    var typ: int
    var build: int
    var year: int
    var history: int
    var rversion: int

    function Fields(): BofFields
      reads this
    {
      BofFields(version, typ, build, year, history, rversion)
    }

    /** `BOFRecord()`: no field set, so all are Java's default 0. */
    constructor ()
      ensures Fields() == BofFields(0, 0, 0, 0, 0, 0)
    {
      version, typ, build, year, history, rversion := 0, 0, 0, 0, 0, 0;
    }

    /** The private `BOFRecord(int type)`: the suggested BIFF8 defaults. */
    constructor OfType(typ: int)
      ensures Fields() == BofFields(VERSION, typ, BUILD, BUILD_YEAR, 0x01, VERSION)
    {
      version := VERSION;
      this.typ := typ;
      build := BUILD;
      year := BUILD_YEAR;
      history := 0x01;
      rversion := VERSION;
    }

    /** `BOFRecord(RecordInputStream)`, as a factory since the read can fail. */
    static method Read(input: ByteCursor) returns (r: Result<BOFRecord, Fault>)
      requires input.Valid()
      modifies input
      ensures input.Valid()
      ensures match ParseBof(old(input.Rest()))
              case Success(p) => r.Success? && fresh(r.value) && r.value.Fields() == p.0 && input.Rest() == p.1
              case Failure(e) => r == Failure(e)
    {
      ghost var p := input.Rest();
      var version := input.ReadShort();
      if version.Failure? {
        return Failure(version.error);
      }
      var typ := input.ReadShort();
      if typ.Failure? {
        return Failure(typ.error);
      }
      var build := ReadOptionalShort(input);
      var year := ReadOptionalShort(input);
      var history := ReadOptionalInt(input);
      var rversion := ReadOptionalInt(input);
      var rec := new BOFRecord();
      rec.version, rec.typ, rec.build, rec.year, rec.history, rec.rversion :=
        version.value, typ.value, build, year, history, rversion;
      r := Success(rec);
    }

    /** `createSheetBOF`: a worksheet BOF with the suggested defaults. */
    static method CreateSheetBOF() returns (r: BOFRecord)
      ensures fresh(r)
      ensures r.Fields() == BofFields(VERSION, TYPE_WORKSHEET, BUILD, BUILD_YEAR, 0x01, VERSION)
    {
      r := new BOFRecord.OfType(TYPE_WORKSHEET);
    }

    method SetVersion(v: int)
      modifies this
      ensures Fields() == old(Fields()).(version := v)
    {
      version := v;
    }

    method SetType(v: int)
      modifies this
      ensures Fields() == old(Fields()).(typ := v)
    {
      typ := v;
    }

    method SetBuild(v: int)
      modifies this
      ensures Fields() == old(Fields()).(build := v)
    {
      build := v;
    }

    method SetBuildYear(v: int)
      modifies this
      ensures Fields() == old(Fields()).(year := v)
    {
      year := v;
    }

    method SetHistoryBitMask(v: int)
      modifies this
      ensures Fields() == old(Fields()).(history := v)
    {
      history := v;
    }

    method SetRequiredVersion(v: int)
      modifies this
      ensures Fields() == old(Fields()).(rversion := v)
    {
      rversion := v;
    }

    /** `serialize` appends exactly `SerializeBof` of the fields. */
    method Serialize(out: ByteSink)
      modifies out
      ensures out.written == old(out.written) + SerializeBof(Fields())
    {
      out.WriteShort(version);
      out.WriteShort(typ);
      out.WriteShort(build);
      out.WriteShort(year);
      out.WriteInt(history);
      out.WriteInt(rversion);
    }

    /** `getDataSize`: the number of bytes `serialize` writes. */
    function DataSize(): (n: nat)
      reads this
      ensures n == |SerializeBof(Fields())|
    {
      16
    }

    /** `clone`: a new record with the same six fields. */
    method Clone() returns (r: BOFRecord)
      ensures fresh(r) && r.Fields() == Fields()
    {
      r := new BOFRecord();
      r.version, r.typ, r.build, r.year, r.history, r.rversion := version, typ, build, year, history, rversion;
    }
  }
}
