/** The CFRULE12 record ([MS-XLS] section 2.4.43, record type 0x087A): a
    conditional-formatting rule of the 2007 kind (colour scale, data bar,
    filter, icon set), with a future-record header, an optional extended
    formatting block, three length-prefixed formulas, template parameters
    and a trailing block chosen by the condition type.

    Formula tokens and the formatting / colour-gradient / data-bar / icon-set
    blocks are opaque byte blobs. How many bytes the reader of a blob whose
    length is not written in front of it consumes is a `Sizer`. */
module CfRule12 {
  import opened Wrappers
  import opened LittleEndian

  const SID: int := 0x087A
  const FTR_HEADER_SIZE: int := 12

  const CONDITION_TYPE_CELL_VALUE_IS: int := 1
  const CONDITION_TYPE_FORMULA: int := 2
  const CONDITION_TYPE_COLOR_SCALE: int := 3
  const CONDITION_TYPE_DATA_BAR: int := 4
  const CONDITION_TYPE_FILTER: int := 5
  const CONDITION_TYPE_ICON_SET: int := 6
  const NO_COMPARISON: int := 0

  /** How many bytes a sub-block reader consumes from the bytes in front of it. */
  type Sizer = seq<byte> -> nat

  /** The readers of the four self-delimiting sub-blocks. */
  datatype Sizers = Sizers(formatting: Sizer, gradient: Sizer, dataBar: Sizer, multistate: Sizer)

  /** A block's reader consumes exactly the block, whatever follows it. */
  ghost predicate Delimits(size: Sizer, block: seq<byte>) {
    forall rest: seq<byte> :: size(block + rest) == |block|
  }

  /** The four nullable trailing blocks. */
  datatype Blocks = Blocks(gradient: Option<seq<byte>>, dataBar: Option<seq<byte>>,
                           filter: Option<seq<byte>>, multistate: Option<seq<byte>>)

  const NO_BLOCKS: Blocks := Blocks(None, None, None, None)

  /** The fields of the record. `formatting` is what the formatting block
      serializes to; it is only read and written when `efl`
      (ext_formatting_length) is not 0. `tplParams` is None when the stored
      template parameter length was neither 0 nor 16. */
  datatype CfFields = CfFields(
    header: seq<byte>, condType: int, compOp: int,
    efl: int, formatting: seq<byte>, extData: seq<byte>,
    formula1: seq<byte>, formula2: seq<byte>, formulaScale: seq<byte>,
    extOpts: int, priority: int, templateType: int,
    tplLen: int, tplParams: Option<seq<byte>>,
    blocks: Blocks)

  // ------------------------------------------------------------- reading

  /** A sub-block read by its own reader. */
  function TakeBlock(size: Sizer, s: seq<byte>): (r: Result<(seq<byte>, seq<byte>), Fault>)
    ensures r.Success? <==> size(s) <= |s|
    ensures r.Success? ==> |r.value.0| == size(s) && r.value.0 + r.value.1 == s
  {
    TakeBytes(s, size(s))
  }

  lemma {:induction false} TakeBlockOfWritten(size: Sizer, block: seq<byte>, rest: seq<byte>)
    requires Delimits(size, block)
    ensures TakeBlock(size, block + rest) == Success((block, rest))
  {
    assert size(block + rest) == |block|;
    TakeBytesOfWritten(block, rest);
  }

  /** The fixed part: future header, condition type, comparison operator,
      the two formula lengths and ext_formatting_length. */
  datatype Head = Head(header: seq<byte>, condType: int, compOp: int, len1: int, len2: int, efl: int)

  function TakeHead(p: seq<byte>): (r: Result<(Head, seq<byte>), Fault>)
    ensures r.Success? <==> |p| >= FTR_HEADER_SIZE + 10
    ensures r.Success? ==> |r.value.0.header| == FTR_HEADER_SIZE && r.value.1 == p[FTR_HEADER_SIZE + 10..]
  {
    var h :- TakeBytes(p, FTR_HEADER_SIZE);
    var ops :- TakeOperands(h.1);
    var efl :- TakeInt(ops.1);
    Success((Head(h.0, ops.0.0, ops.0.1, ops.0.2, ops.0.3, efl.0), efl.1))
  }

  /** Condition type, comparison operator and the two formula lengths. */
  function TakeOperands(s: seq<byte>): (r: Result<((int, int, int, int), seq<byte>), Fault>)
    ensures r.Success? <==> |s| >= 6
    ensures r.Success? ==> r.value.1 == s[6..]
  {
    var ct :- TakeSByte(s);
    var co :- TakeSByte(ct.1);
    var l1 :- TakeUShort(co.1);
    var l2 :- TakeUShort(l1.1);
    Success(((ct.0, co.0, l1.0, l2.0), l2.1))
  }

  /** The extended formatting part: with a length of 0, two reserved bytes;
      otherwise the formatting block, followed by `efl - len` bytes of
      extension data only when the block was shorter than `efl`. Returns the
      block, the extension data and the bytes after them. */
  function TakeExtFormatting(size: Sizer, efl: int, s: seq<byte>)
    : (r: Result<(seq<byte>, seq<byte>, seq<byte>), Fault>)
    ensures efl == 0 ==> (r.Success? <==> |s| >= 2)
    ensures efl == 0 && r.Success? ==> r.value == ([], [], s[2..])
    ensures efl != 0 && r.Success? ==>
              |r.value.1| == (if |r.value.0| < efl then efl - |r.value.0| else 0)
              && r.value.0 + r.value.1 + r.value.2 == s
  {
    if efl == 0 then
      var reserved :- TakeUShort(s);
      Success(([], [], reserved.1))
    else
      var block :- TakeBlock(size, s);
      var len := |block.0|;
      if len < efl then
        var ext :- TakeBytes(block.1, efl - len);
        Success((block.0, ext.0, ext.1))
      else
        Success((block.0, [], block.1))
  }

  /** Formula 1 and 2 (lengths from the head), then the length-prefixed
      scale formula. */
  function TakeFormulas(len1: int, len2: int, s: seq<byte>)
    : (r: Result<(seq<byte>, seq<byte>, seq<byte>, seq<byte>), Fault>)
    ensures r.Success? ==> |r.value.0| == len1 && |r.value.1| == len2 && |r.value.2| < 0x1_0000
  {
    var f1 :- TakeBytes(s, len1);
    var f2 :- TakeBytes(f1.1, len2);
    var ls :- TakeUShort(f2.1);
    var fs :- TakeBytes(ls.1, ls.0);
    Success((f1.0, f2.0, fs.0, fs.1))
  }

  /** Template parameters: read only when their length is 0 or 16; any
      other length (logged as a warning) makes the reader skip the rest of
      the record and leaves the parameters null. */
  function TakeTemplateParams(tplLen: int, s: seq<byte>): (r: Result<(Option<seq<byte>>, seq<byte>), Fault>)
    ensures tplLen != 0 && tplLen != 16 ==> r == Success((None, []))
    ensures (tplLen == 0 || tplLen == 16) ==>
              (r.Success? <==> tplLen <= |s|)
              && (r.Success? ==> r.value.0.Some? && |r.value.0.value| == tplLen
                                 && r.value.0.value + r.value.1 == s)
  {
    if tplLen == 0 || tplLen == 16 then
      var p :- TakeBytes(s, tplLen);
      Success((Some(p.0), p.1))
    else
      Success((None, []))
  }

  /** ext_opts, priority, template type, template parameter length and the
      template parameters. */
  datatype Tail = Tail(extOpts: int, priority: int, templateType: int, tplLen: int, tplParams: Option<seq<byte>>)

  function TakeTail(s: seq<byte>): (r: Result<(Tail, seq<byte>), Fault>)
    ensures r.Success? ==> (r.value.0.tplParams.Some? <==> r.value.0.tplLen == 0 || r.value.0.tplLen == 16)
  {
    var opts :- TakeSByte(s);
    var prio :- TakeUShort(opts.1);
    var tt :- TakeUShort(prio.1);
    var tl :- TakeSByte(tt.1);
    var tp :- TakeTemplateParams(tl.0, tl.1);
    Success((Tail(opts.0, prio.0, tt.0, tl.0, tp.0), tp.1))
  }

  /** The trailing block, chosen by the condition type: a colour gradient, a
      data bar, the raw remainder for a filter, an icon set, or nothing. */
  function TakeTrailer(sz: Sizers, condType: int, s: seq<byte>): (r: Result<(Blocks, seq<byte>), Fault>)
    ensures r.Success? && condType == CONDITION_TYPE_FILTER ==> r.value == (NO_BLOCKS.(filter := Some(s)), [])
    ensures condType !in {CONDITION_TYPE_COLOR_SCALE, CONDITION_TYPE_DATA_BAR, CONDITION_TYPE_FILTER, CONDITION_TYPE_ICON_SET}
            ==> r == Success((NO_BLOCKS, s))
  {
    if condType == CONDITION_TYPE_COLOR_SCALE then
      var b :- TakeBlock(sz.gradient, s);
      Success((NO_BLOCKS.(gradient := Some(b.0)), b.1))
    else if condType == CONDITION_TYPE_DATA_BAR then
      var b :- TakeBlock(sz.dataBar, s);
      Success((NO_BLOCKS.(dataBar := Some(b.0)), b.1))
    else if condType == CONDITION_TYPE_FILTER then
      Success((NO_BLOCKS.(filter := Some(s)), []))
    else if condType == CONDITION_TYPE_ICON_SET then
      var b :- TakeBlock(sz.multistate, s);
      Success((NO_BLOCKS.(multistate := Some(b.0)), b.1))
    else
      Success((NO_BLOCKS, s))
  }

  /** The `CFRule12Record(RecordInputStream)` constructor on the record's
      remaining bytes. Returns the fields and the bytes left unread. */
  function ParseCf12(sz: Sizers, p: seq<byte>): (r: Result<(CfFields, seq<byte>), Fault>)
    ensures r.Success? ==> |r.value.0.header| == FTR_HEADER_SIZE
    ensures r.Success? ==> (r.value.0.tplParams.Some? <==> r.value.0.tplLen == 0 || r.value.0.tplLen == 16)
  {
    var h :- TakeHead(p);
    var ext :- TakeExtFormatting(sz.formatting, h.0.efl, h.1);
    var fm :- TakeFormulas(h.0.len1, h.0.len2, ext.2);
    var t :- TakeTail(fm.3);
    var tr :- TakeTrailer(sz, h.0.condType, t.1);
    Success((CfFields(h.0.header, h.0.condType, h.0.compOp, h.0.efl, ext.0, ext.1, fm.0, fm.1, fm.2,
                      t.0.extOpts, t.0.priority, t.0.templateType, t.0.tplLen, t.0.tplParams, tr.0), tr.1))
  }

  // ------------------------------------------------------------- writing

  /** Header, condition type, operator, formula lengths and the extended
      formatting length (written as 0 when it is 0, otherwise as itself). */
  function HeadBytes(f: CfFields): seq<byte> {
    f.header + ([ByteOf(f.condType)] + ([ByteOf(f.compOp)]
      + (ShortBytes(|f.formula1|) + (ShortBytes(|f.formula2|) + IntBytes(f.efl)))))
  }

  /** With a length of 0, `writeInt(0)` has already written the length and
      two reserved zero bytes follow; otherwise the formatting block and the
      extension data. */
  function ExtFormattingBytes(f: CfFields): seq<byte> {
    if f.efl == 0 then ShortBytes(0) else f.formatting + f.extData
  }

  function FormulaBytes(f: CfFields): seq<byte> {
    f.formula1 + (f.formula2 + (ShortBytes(|f.formulaScale|) + f.formulaScale))
  }

  /** Writing the template parameters fails on a null array. */
  function TailBytes(f: CfFields): (r: Result<seq<byte>, Fault>)
    ensures r.Success? <==> f.tplParams.Some?
  {
    if f.tplParams.None? then Failure(NullReference)
    else Success([ByteOf(f.extOpts)] + (ShortBytes(f.priority) + (ShortBytes(f.templateType)
           + ([ByteOf(f.tplLen)] + f.tplParams.value))))
  }

  /** The trailing block that the condition type selects; null if absent. */
  function SelectedBlock(condType: int, b: Blocks): (r: Result<seq<byte>, Fault>)
  {
    if condType == CONDITION_TYPE_COLOR_SCALE then (if b.gradient.Some? then Success(b.gradient.value) else Failure(NullReference))
    else if condType == CONDITION_TYPE_DATA_BAR then (if b.dataBar.Some? then Success(b.dataBar.value) else Failure(NullReference))
    else if condType == CONDITION_TYPE_FILTER then (if b.filter.Some? then Success(b.filter.value) else Failure(NullReference))
    else if condType == CONDITION_TYPE_ICON_SET then (if b.multistate.Some? then Success(b.multistate.value) else Failure(NullReference))
    else Success([])
  }

  /** `serialize`: fails (a NullPointerException) when the template
      parameters or the block the condition type selects are null. */
  function SerializeCf12(f: CfFields): (r: Result<seq<byte>, Fault>)
    ensures r.Success? <==> f.tplParams.Some? && SelectedBlock(f.condType, f.blocks).Success?
  {
    var tail :- TailBytes(f);
    var trailer :- SelectedBlock(f.condType, f.blocks);
    Success(HeadBytes(f) + (ExtFormattingBytes(f) + (FormulaBytes(f) + (tail + trailer))))
  }

  /** `getDataSize`: the sum of the sizes of the parts `serialize` writes.
      It fails on the same null fields, and otherwise equals the length of
      what `serialize` writes. */
  function DataSize(f: CfFields): (r: Result<nat, Fault>)
    ensures r.Success? <==> SerializeCf12(f).Success?
    ensures r.Success? && |f.header| == FTR_HEADER_SIZE ==> r.value == |SerializeCf12(f).value|
  {
    if f.tplParams.None? then Failure(NullReference)
    else
      var block :- SelectedBlock(f.condType, f.blocks);
      var len := FTR_HEADER_SIZE + 6
        + (if f.efl == 0 then 6 else 4 + |f.formatting| + |f.extData|)
        + |f.formula1| + |f.formula2|
        + 2 + |f.formulaScale|
        + 6 + |f.tplParams.value|
        + |block|;
      Success(len)
  }

  // --------------------------------------------------------- round trip

  /** The trailing blocks as a read leaves them: only the block that the
      condition type selects is present, and it is self-delimiting. */
  ghost predicate BlocksMatch(sz: Sizers, condType: int, b: Blocks) {
    if condType == CONDITION_TYPE_COLOR_SCALE then
      b.gradient.Some? && Delimits(sz.gradient, b.gradient.value) && b == NO_BLOCKS.(gradient := b.gradient)
    else if condType == CONDITION_TYPE_DATA_BAR then
      b.dataBar.Some? && Delimits(sz.dataBar, b.dataBar.value) && b == NO_BLOCKS.(dataBar := b.dataBar)
    else if condType == CONDITION_TYPE_FILTER then
      b.filter.Some? && b == NO_BLOCKS.(filter := b.filter)
    else if condType == CONDITION_TYPE_ICON_SET then
      b.multistate.Some? && Delimits(sz.multistate, b.multistate.value) && b == NO_BLOCKS.(multistate := b.multistate)
    else
      b == NO_BLOCKS
  }

  /** The canonical records: every field fits the width it is read with,
      the extension data is as long as the reader makes it, the sub-blocks
      are self-delimiting, and the template parameters are present and 0 or
      16 bytes long. A read also produces records with another template
      length; those have null parameters (see `OddTemplateLengthIsStuck`). */
  ghost predicate Canonical(sz: Sizers, f: CfFields) {
    && |f.header| == FTR_HEADER_SIZE
    && IsSByte(f.condType) && IsSByte(f.compOp)
    && |f.formula1| < 0x1_0000 && |f.formula2| < 0x1_0000 && |f.formulaScale| < 0x1_0000
    && IsInt(f.efl)
    && (f.efl == 0 ==> f.formatting == [] && f.extData == [])
    && (f.efl != 0 ==> Delimits(sz.formatting, f.formatting)
                       && |f.extData| == (if |f.formatting| < f.efl then f.efl - |f.formatting| else 0))
    && IsSByte(f.extOpts) && IsUShort(f.priority) && IsUShort(f.templateType)
    && (f.tplLen == 0 || f.tplLen == 16)
    && f.tplParams.Some? && |f.tplParams.value| == f.tplLen
    && BlocksMatch(sz, f.condType, f.blocks)
  }

  lemma {:induction false} TakeHeadOfWritten(f: CfFields, rest: seq<byte>)
    requires |f.header| == FTR_HEADER_SIZE && IsSByte(f.condType) && IsSByte(f.compOp)
    requires |f.formula1| < 0x1_0000 && |f.formula2| < 0x1_0000 && IsInt(f.efl)
    ensures TakeHead(HeadBytes(f) + rest)
         == Success((Head(f.header, f.condType, f.compOp, |f.formula1|, |f.formula2|, f.efl), rest))
  {
    HeadBytesThen(f, rest);
    TakeHeadOfParts(f.header, f.condType, f.compOp, |f.formula1|, |f.formula2|, f.efl, rest);
  }

  lemma HeadBytesThen(f: CfFields, rest: seq<byte>)
    ensures HeadBytes(f) + rest
         == f.header + ([ByteOf(f.condType)] + ([ByteOf(f.compOp)] + (ShortBytes(|f.formula1|)
              + (ShortBytes(|f.formula2|) + (IntBytes(f.efl) + rest)))))
  {
  }

  lemma {:induction false} TakeHeadOfParts(h: seq<byte>, ct: int, co: int, l1: int, l2: int, efl: int, rest: seq<byte>)
    requires |h| == FTR_HEADER_SIZE && IsSByte(ct) && IsSByte(co) && IsUShort(l1) && IsUShort(l2) && IsInt(efl)
    ensures TakeHead(h + ([ByteOf(ct)] + ([ByteOf(co)] + (ShortBytes(l1) + (ShortBytes(l2) + (IntBytes(efl) + rest))))))
         == Success((Head(h, ct, co, l1, l2, efl), rest))
  {
    var s5 := IntBytes(efl) + rest;
    var s1 := [ByteOf(ct)] + ([ByteOf(co)] + (ShortBytes(l1) + (ShortBytes(l2) + s5)));
    TakeBytesOfWritten(h, s1);
    TakeOperandsOfWritten(ct, co, l1, l2, s5);
    TakeIntOfWritten(efl, rest);
  }

  lemma {:induction false} TakeOperandsOfWritten(ct: int, co: int, l1: int, l2: int, rest: seq<byte>)
    requires IsSByte(ct) && IsSByte(co) && IsUShort(l1) && IsUShort(l2)
    ensures TakeOperands([ByteOf(ct)] + ([ByteOf(co)] + (ShortBytes(l1) + (ShortBytes(l2) + rest))))
         == Success(((ct, co, l1, l2), rest))
  {
    var s4 := ShortBytes(l2) + rest;
    var s3 := ShortBytes(l1) + s4;
    var s2 := [ByteOf(co)] + s3;
    TakeSByteOfWritten(ct, s2);
    TakeSByteOfWritten(co, s3);
    TakeUShortOfWritten(l1, s4);
    TakeUShortOfWritten(l2, rest);
  }

  lemma {:induction false} TakeExtFormattingOfWritten(sz: Sizers, f: CfFields, rest: seq<byte>)
    requires Canonical(sz, f)
    ensures TakeExtFormatting(sz.formatting, f.efl, ExtFormattingBytes(f) + rest)
         == Success((f.formatting, f.extData, rest))
  {
    if f.efl == 0 {
      TakeUShortOfWritten(0, rest);
    } else {
      assert ExtFormattingBytes(f) + rest == f.formatting + (f.extData + rest);
      TakeBlockOfWritten(sz.formatting, f.formatting, f.extData + rest);
      if |f.formatting| < f.efl {
        TakeBytesOfWritten(f.extData, rest);
      } else {
        assert f.extData + rest == rest;
      }
    }
  }

  lemma {:induction false} TakeFormulasOfWritten(f: CfFields, rest: seq<byte>)
    requires |f.formulaScale| < 0x1_0000
    ensures TakeFormulas(|f.formula1|, |f.formula2|, FormulaBytes(f) + rest)
         == Success((f.formula1, f.formula2, f.formulaScale, rest))
  {
    FormulaBytesThen(f, rest);
    TakeFormulasOfParts(f.formula1, f.formula2, f.formulaScale, rest);
  }

  lemma FormulaBytesThen(f: CfFields, rest: seq<byte>)
    ensures FormulaBytes(f) + rest
         == f.formula1 + (f.formula2 + (ShortBytes(|f.formulaScale|) + (f.formulaScale + rest)))
  {
  }

  lemma {:induction false} TakeFormulasOfParts(f1: seq<byte>, f2: seq<byte>, fs: seq<byte>, rest: seq<byte>)
    requires |fs| < 0x1_0000
    ensures TakeFormulas(|f1|, |f2|, f1 + (f2 + (ShortBytes(|fs|) + (fs + rest)))) == Success((f1, f2, fs, rest))
  {
    var s3 := fs + rest;
    var s2 := ShortBytes(|fs|) + s3;
    var s1 := f2 + s2;
    TakeBytesOfWritten(f1, s1);
    TakeBytesOfWritten(f2, s2);
    TakeUShortOfWritten(|fs|, s3);
    TakeBytesOfWritten(fs, rest);
  }

  lemma {:induction false} TakeTailOfWritten(f: CfFields, rest: seq<byte>)
    requires IsSByte(f.extOpts) && IsUShort(f.priority) && IsUShort(f.templateType)
    requires (f.tplLen == 0 || f.tplLen == 16) && f.tplParams.Some? && |f.tplParams.value| == f.tplLen
    ensures TakeTail(TailBytes(f).value + rest)
         == Success((Tail(f.extOpts, f.priority, f.templateType, f.tplLen, f.tplParams), rest))
  {
    var s4 := f.tplParams.value + rest;
    var s3 := [ByteOf(f.tplLen)] + s4;
    var s2 := ShortBytes(f.templateType) + s3;
    var s1 := ShortBytes(f.priority) + s2;
    assert TailBytes(f).value + rest == [ByteOf(f.extOpts)] + s1;
    TakeSByteOfWritten(f.extOpts, s1);
    TakeUShortOfWritten(f.priority, s2);
    TakeUShortOfWritten(f.templateType, s3);
    TakeSByteOfWritten(f.tplLen, s4);
    TakeBytesOfWritten(f.tplParams.value, rest);
  }

  lemma {:induction false} TakeTrailerOfWritten(sz: Sizers, f: CfFields, rest: seq<byte>)
    requires BlocksMatch(sz, f.condType, f.blocks)
    requires f.condType == CONDITION_TYPE_FILTER ==> rest == []
    ensures SelectedBlock(f.condType, f.blocks).Success?
    ensures TakeTrailer(sz, f.condType, SelectedBlock(f.condType, f.blocks).value + rest) == Success((f.blocks, rest))
  {
    var b := f.blocks;
    if f.condType == CONDITION_TYPE_COLOR_SCALE {
      TakeBlockOfWritten(sz.gradient, b.gradient.value, rest);
    } else if f.condType == CONDITION_TYPE_DATA_BAR {
      TakeBlockOfWritten(sz.dataBar, b.dataBar.value, rest);
    } else if f.condType == CONDITION_TYPE_FILTER {
      assert b.filter.value + rest == b.filter.value;
    } else if f.condType == CONDITION_TYPE_ICON_SET {
      TakeBlockOfWritten(sz.multistate, b.multistate.value, rest);
    } else {
      assert [] + rest == rest;
    }
  }

  /** Reading back what `serialize` wrote restores every field, and leaves
      what followed untouched (a filter's data runs to the end of the record,
      so nothing may follow it). */
  lemma {:induction false} ParseSerializeCf12(sz: Sizers, f: CfFields, rest: seq<byte>)
    requires Canonical(sz, f)
    requires f.condType == CONDITION_TYPE_FILTER ==> rest == []
    ensures SerializeCf12(f).Success?
    ensures ParseCf12(sz, SerializeCf12(f).value + rest) == Success((f, rest))
  {
    TakeTrailerOfWritten(sz, f, rest);
    var trailer := SelectedBlock(f.condType, f.blocks).value;
    var tail := TailBytes(f).value;
    var s4 := trailer + rest;
    var s3 := tail + s4;
    var s2 := FormulaBytes(f) + s3;
    var s1 := ExtFormattingBytes(f) + s2;
    SerializedThen(f, rest);
    TakeHeadOfWritten(f, s1);
    TakeExtFormattingOfWritten(sz, f, s2);
    TakeFormulasOfWritten(f, s3);
    TakeTailOfWritten(f, s4);
  }

  // ------------------------------------------------- defaults and blocks

  /** The FtrHeader of a new record: record type 0x087A, no flags, and the
      range A1 (8 zero bytes). */
  const DEFAULT_HEADER: seq<byte> := ShortBytes(SID) + Zeros(2) + Zeros(8)

  /** The private constructor with `setDefaults`: no extended formatting
      (but a 4-byte zero extension array), empty formulas, priority and
      options 0, the template type set to the condition type, and 16 zero
      bytes of template parameters. */
  function Defaults(condType: int, compOp: int): (f: CfFields)
    ensures f.efl == 0 && f.priority == 0 && f.extOpts == 0
    ensures f.tplLen == 16 && f.tplParams == Some(Zeros(16))
  {
    CfFields(DEFAULT_HEADER, condType, compOp, 0, [], Zeros(4), [], [], [],
             0, 0, condType, 16, Some(Zeros(16)), NO_BLOCKS)
  }

  /** A new rule without a trailing block is 48 bytes long, and reads back
      unchanged except that the unwritten 4-byte extension array comes back
      empty. */
  lemma DefaultsRoundTrip(sz: Sizers, condType: int, compOp: int)
    requires IsSByte(condType) && IsSByte(compOp) && IsUShort(condType)
    requires condType !in {CONDITION_TYPE_COLOR_SCALE, CONDITION_TYPE_DATA_BAR, CONDITION_TYPE_FILTER, CONDITION_TYPE_ICON_SET}
    ensures DataSize(Defaults(condType, compOp)) == Success(48)
    ensures ParseCf12(sz, SerializeCf12(Defaults(condType, compOp)).value)
         == Success((Defaults(condType, compOp).(extData := []), []))
  {
    var f := Defaults(condType, compOp).(extData := []);
    DefaultsCanonical(sz, condType, compOp);
    assert SerializeCf12(f) == SerializeCf12(Defaults(condType, compOp));
    ParseSerializeCf12(sz, f, []);
    assert SerializeCf12(f).value + [] == SerializeCf12(f).value;
  }

  lemma DefaultsCanonical(sz: Sizers, condType: int, compOp: int)
    requires IsSByte(condType) && IsSByte(compOp) && IsUShort(condType)
    requires condType !in {CONDITION_TYPE_COLOR_SCALE, CONDITION_TYPE_DATA_BAR, CONDITION_TYPE_FILTER, CONDITION_TYPE_ICON_SET}
    ensures Canonical(sz, Defaults(condType, compOp).(extData := []))
  {
  }

  /** `createDataBarFormatting`: keeps an existing data bar; otherwise
      switches the rule to DATA_BAR with a new block. `empty` is what a new
      block serializes to. */
  function WithDataBar(f: CfFields, empty: seq<byte>): (r: CfFields)
    ensures r.blocks.dataBar.Some?
    ensures f.blocks.dataBar.Some? ==> r == f
    ensures f.blocks.dataBar.None? ==> r.condType == CONDITION_TYPE_DATA_BAR
  {
    if f.blocks.dataBar.Some? then f
    else f.(condType := CONDITION_TYPE_DATA_BAR, blocks := f.blocks.(dataBar := Some(empty)))
  }

  /** `createMultiStateFormatting`, as `WithDataBar` for ICON_SET. */
  function WithMultiState(f: CfFields, empty: seq<byte>): (r: CfFields)
    ensures r.blocks.multistate.Some?
    ensures f.blocks.multistate.Some? ==> r == f
    ensures f.blocks.multistate.None? ==> r.condType == CONDITION_TYPE_ICON_SET
  {
    if f.blocks.multistate.Some? then f
    else f.(condType := CONDITION_TYPE_ICON_SET, blocks := f.blocks.(multistate := Some(empty)))
  }

  /** `createColorGradientFormatting`, as `WithDataBar` for COLOR_SCALE. */
  function WithColorGradient(f: CfFields, empty: seq<byte>): (r: CfFields)
    ensures r.blocks.gradient.Some?
    ensures f.blocks.gradient.Some? ==> r == f
    ensures f.blocks.gradient.None? ==> r.condType == CONDITION_TYPE_COLOR_SCALE
  {
    if f.blocks.gradient.Some? then f
    else f.(condType := CONDITION_TYPE_COLOR_SCALE, blocks := f.blocks.(gradient := Some(empty)))
  }

  /** Creating a block twice is creating it once, and the created block is
      the one `serialize` then writes. */
  lemma CreateBlockIdempotent(f: CfFields, e1: seq<byte>, e2: seq<byte>)
    ensures WithDataBar(WithDataBar(f, e1), e2) == WithDataBar(f, e1)
    ensures WithMultiState(WithMultiState(f, e1), e2) == WithMultiState(f, e1)
    ensures WithColorGradient(WithColorGradient(f, e1), e2) == WithColorGradient(f, e1)
    ensures f.blocks.dataBar.None? ==>
              SelectedBlock(WithDataBar(f, e1).condType, WithDataBar(f, e1).blocks) == Success(e1)
  {
  }

  // --------------------------------------------------------------- clone

  /** The header of a clone: a new FtrHeader (record type 0x087A, no flags)
      given a copy of the original's associated range. */
  function CloneHeader(h: seq<byte>): (r: seq<byte>)
    requires |h| == FTR_HEADER_SIZE
    ensures |r| == FTR_HEADER_SIZE && r[4..] == h[4..]
  {
    DEFAULT_HEADER[..4] + h[4..]
  }

  /** The template part of `clone`: a new array of `template_param_length`
      bytes filled from the old array. */
  function CloneTemplate(f: CfFields): (r: Result<seq<byte>, Fault>)
    ensures r.Success? <==> 0 <= f.tplLen && f.tplParams.Some? && f.tplLen <= |f.tplParams.value|
  {
    if f.tplLen < 0 then Failure(NegativeArraySize)
    else if f.tplParams.None? then Failure(NullReference)
    else if f.tplLen > |f.tplParams.value| then Failure(IndexOutOfBounds)
    else Success(f.tplParams.value[..f.tplLen])
  }

  /** `clone` as written: the extension data is copied with
      `ext_formatting_length` as its length, although a read leaves it only
      `efl - len` bytes long (or empty). */
  function CloneFieldsAsWritten(f: CfFields): (r: Result<CfFields, Fault>)
    requires |f.header| == FTR_HEADER_SIZE
    ensures r.Success? ==> |r.value.extData| == f.efl
  {
    if f.efl < 0 then Failure(NegativeArraySize)
    else if f.efl > |f.extData| then Failure(IndexOutOfBounds)
    else
      var tpl :- CloneTemplate(f);
      Success(f.(header := CloneHeader(f.header), extData := f.extData[..f.efl], tplParams := Some(tpl)))
  }

  /** Every rule read with a non-zero ext_formatting_length and a non-empty
      formatting block cannot be cloned as written. */
  lemma ParsedRuleCloneFails(sz: Sizers, f: CfFields)
    requires Canonical(sz, f) && f.efl != 0 && f.formatting != []
    ensures CloneFieldsAsWritten(f).Failure?
  {
  }

  /** The smallest such rule: a 6-byte formatting block declared as 10 bytes
      long leaves 4 bytes of extension data, and the clone copies 10. */
  lemma CloneAsWrittenCounterexample(f: CfFields)
    requires |f.header| == FTR_HEADER_SIZE && f.efl == 10 && |f.formatting| == 6 && |f.extData| == 4
    ensures CloneFieldsAsWritten(f) == Failure(IndexOutOfBounds)
  {
  }

  /** `clone` with the extension data copied at its own length. */
  function CloneFields(f: CfFields): (r: Result<CfFields, Fault>)
    requires |f.header| == FTR_HEADER_SIZE
  {
    var tpl :- CloneTemplate(f);
    Success(f.(header := CloneHeader(f.header), tplParams := Some(tpl)))
  }

  /** A clone of a canonical rule succeeds and keeps every field but the
      first four header bytes, so it serializes to the same bytes from byte
      4 on. */
  lemma CloneKeepsRule(sz: Sizers, f: CfFields)
    requires Canonical(sz, f)
    ensures CloneFields(f).Success?
    ensures CloneFields(f).value == f.(header := CloneHeader(f.header))
    ensures SerializeCf12(CloneFields(f).value).value[4..] == SerializeCf12(f).value[4..]
  {
    assert f.tplParams.value[..f.tplLen] == f.tplParams.value;
    SerializeAfterHeader(f, CloneHeader(f.header));
  }

  /** A read whose template parameter length is neither 0 nor 16 succeeds,
      but leaves the parameters null, so the rule it yields can be neither
      serialized nor cloned. */
  lemma OddTemplateLengthIsStuck(sz: Sizers, p: seq<byte>)
    requires ParseCf12(sz, p).Success?
    requires ParseCf12(sz, p).value.0.tplLen != 0 && ParseCf12(sz, p).value.0.tplLen != 16
    ensures ParseCf12(sz, p).value.0.tplParams.None?
    ensures SerializeCf12(ParseCf12(sz, p).value.0) == Failure(NullReference)
    ensures CloneFields(ParseCf12(sz, p).value.0).Failure?
  {
  }

  /** Only the first bytes of the serialized record depend on the header. */
  lemma SerializeAfterHeader(f: CfFields, h: seq<byte>)
    requires SerializeCf12(f).Success? && |f.header| == |h| == FTR_HEADER_SIZE && h[4..] == f.header[4..]
    ensures SerializeCf12(f.(header := h)).Success?
    ensures SerializeCf12(f.(header := h)).value[4..] == SerializeCf12(f).value[4..]
  {
    var c := f.(header := h);
    var x := [ByteOf(f.condType)] + ([ByteOf(f.compOp)]
      + (ShortBytes(|f.formula1|) + (ShortBytes(|f.formula2|) + IntBytes(f.efl))));
    var y := ExtFormattingBytes(f) + (FormulaBytes(f) + (TailBytes(f).value + SelectedBlock(f.condType, f.blocks).value));
    assert SerializeCf12(f).value == f.header + x + y;
    assert SerializeCf12(c).value == h + x + y;
    assert (h + x + y)[4..] == h[4..] + x + y;
    assert (f.header + x + y)[4..] == f.header[4..] + x + y;
  }

  // --------------------------------------------------------- the record

  /** The serialized record as the concatenation of its parts. */
  lemma SerializedParts(f: CfFields)
    requires SerializeCf12(f).Success?
    ensures SerializeCf12(f).value
         == HeadBytes(f) + ExtFormattingBytes(f) + FormulaBytes(f)
            + (TailBytes(f).value + SelectedBlock(f.condType, f.blocks).value)
  {
    var a, b, c := HeadBytes(f), ExtFormattingBytes(f), FormulaBytes(f);
    var d := TailBytes(f).value + SelectedBlock(f.condType, f.blocks).value;
    assert a + b + c + d == a + (b + (c + d));
  }

  /** What `serialize` wrote, followed by more bytes, as the nested
      concatenation the readers take apart. */
  lemma SerializedThen(f: CfFields, rest: seq<byte>)
    requires SerializeCf12(f).Success?
    ensures SerializeCf12(f).value + rest
         == HeadBytes(f) + (ExtFormattingBytes(f) + (FormulaBytes(f)
            + (TailBytes(f).value + (SelectedBlock(f.condType, f.blocks).value + rest))))
  {
    var a, b, c := HeadBytes(f), ExtFormattingBytes(f), FormulaBytes(f);
    var d, e := TailBytes(f).value, SelectedBlock(f.condType, f.blocks).value;
    assert (a + (b + (c + (d + e)))) + rest == a + (b + (c + (d + (e + rest))));
  }

  /** The record object, its fields updated in place. */
  class CFRule12Record {
    var header: seq<byte>
    var condType: int
    var compOp: int
    var efl: int
    var formatting: seq<byte>
    var extData: seq<byte>
    var formula1: seq<byte>
    var formula2: seq<byte>
    var formulaScale: seq<byte>
    var extOpts: int
    var priority: int
    var templateType: int
    var tplLen: int
    var tplParams: Option<seq<byte>>
    var blocks: Blocks

    function Fields(): CfFields
      reads this
    {
      CfFields(header, condType, compOp, efl, formatting, extData, formula1, formula2, formulaScale,
               extOpts, priority, templateType, tplLen, tplParams, blocks)
    }

    ghost predicate Valid()
      reads this
    {
      |header| == FTR_HEADER_SIZE
    }

    /** A record holding the given fields. */
    constructor FromFields(f: CfFields)
      ensures Fields() == f
    {
      header := f.header;
      condType := f.condType;
      compOp := f.compOp;
      efl := f.efl;
      formatting := f.formatting;
      extData := f.extData;
      formula1 := f.formula1;
      formula2 := f.formula2;
      formulaScale := f.formulaScale;
      extOpts := f.extOpts;
      priority := f.priority;
      templateType := f.templateType;
      tplLen := f.tplLen;
      tplParams := f.tplParams;
      blocks := f.blocks;
    }

    /** `CFRule12Record(conditionType, comparisonOperation)` with
        `setDefaults`. */
    constructor (condType: int, compOp: int)
      ensures Valid() && Fields() == Defaults(condType, compOp)
    {
      header := DEFAULT_HEADER;
      this.condType, this.compOp := condType, compOp;
      formula1, formula2 := [], [];
      formatting := [];
      efl := 0;
      extData := Zeros(4);
      formulaScale := [];
      extOpts := 0;
      priority := 0;
      templateType := condType;
      tplLen := 16;
      tplParams := Some(Zeros(16));
      blocks := NO_BLOCKS;
    }

    /** The constructor that also sets the three formulas (a null scale
        formula is empty). */
    constructor WithFormulas(condType: int, compOp: int, f1: seq<byte>, f2: seq<byte>, fs: Option<seq<byte>>)
      ensures Valid()
      ensures Fields() == Defaults(condType, compOp).(formula1 := f1, formula2 := f2, formulaScale := fs.GetOr([]))
    {
      header := DEFAULT_HEADER;
      this.condType, this.compOp := condType, compOp;
      formula1, formula2 := f1, f2;
      formatting := [];
      efl := 0;
      extData := Zeros(4);
      extOpts := 0;
      priority := 0;
      templateType := condType;
      tplLen := 16;
      tplParams := Some(Zeros(16));
      blocks := NO_BLOCKS;
      formulaScale := fs.GetOr([]);
    }

    /** `create(sheet, formulaText)`: a FORMULA rule; `f1` is the parsed
        formula's token bytes. */
    static method CreateFormulaRule(f1: seq<byte>) returns (r: CFRule12Record)
      ensures fresh(r) && r.Valid()
      ensures r.Fields() == Defaults(CONDITION_TYPE_FORMULA, NO_COMPARISON).(formula1 := f1)
    {
      r := new CFRule12Record.WithFormulas(CONDITION_TYPE_FORMULA, NO_COMPARISON, f1, [], None);
    }

    /** `create(sheet, op, formulaText1, formulaText2[, formulaTextScale])`:
        a CELL_VALUE_IS rule. */
    static method CreateCellValueRule(compOp: int, f1: seq<byte>, f2: seq<byte>, fs: Option<seq<byte>>)
      returns (r: CFRule12Record)
      ensures fresh(r) && r.Valid()
      ensures r.Fields() == Defaults(CONDITION_TYPE_CELL_VALUE_IS, compOp)
                              .(formula1 := f1, formula2 := f2, formulaScale := fs.GetOr([]))
    {
      r := new CFRule12Record.WithFormulas(CONDITION_TYPE_CELL_VALUE_IS, compOp, f1, f2, fs);
    }

    /** `CFRule12Record(RecordInputStream)`, as a factory since the read can
        fail. */
    static method Read(input: ByteCursor, sz: Sizers) returns (r: Result<CFRule12Record, Fault>)
      requires input.Valid()
      modifies input
      ensures input.Valid()
      ensures match ParseCf12(sz, old(input.Rest()))
              case Success(p) => r.Success? && fresh(r.value) && r.value.Valid()
                                 && r.value.Fields() == p.0 && input.Rest() == p.1
              case Failure(e) => r == Failure(e)
    {
      var h := ReadHead(input);
      if h.Failure? {
        return Failure(h.error);
      }
      var ext := ReadExtFormatting(input, sz.formatting, h.value.efl);
      if ext.Failure? {
        return Failure(ext.error);
      }
      var fm := ReadFormulas(input, h.value.len1, h.value.len2);
      if fm.Failure? {
        return Failure(fm.error);
      }
      var t := ReadTail(input);
      if t.Failure? {
        return Failure(t.error);
      }
      var tr := ReadTrailer(input, sz, h.value.condType);
      if tr.Failure? {
        return Failure(tr.error);
      }
      var rec := new CFRule12Record.FromFields(CfFields(h.value.header, h.value.condType, h.value.compOp, h.value.efl,
                             ext.value.0, ext.value.1, fm.value.0, fm.value.1, fm.value.2,
                             t.value.extOpts, t.value.priority, t.value.templateType, t.value.tplLen,
                             t.value.tplParams, tr.value));
      r := Success(rec);
    }

    /** `serialize`: appends what `SerializeCf12` gives; on a null field it
        reports the fault (the bytes written before it are not specified). */
    method Serialize(out: ByteSink) returns (fault: Option<Fault>)
      modifies out
      ensures fault.None? <==> SerializeCf12(Fields()).Success?
      ensures fault.Some? ==> SerializeCf12(Fields()) == Failure(fault.value)
      ensures fault.None? ==> out.written == old(out.written) + SerializeCf12(Fields()).value
    {
      var f := Fields();
      WriteHead(out, f);
      WriteExtFormatting(out, f);
      WriteFormulas(out, f);
      fault := WriteTrailer(out, f);
      if fault.None? {
        SerializedParts(f);
      }
    }

    /** `createDataBarFormatting`; returns the (new or existing) block. */
    method CreateDataBarFormatting(empty: seq<byte>) returns (block: seq<byte>)
      modifies this
      ensures Fields() == WithDataBar(old(Fields()), empty)
      ensures Some(block) == blocks.dataBar
    {
      if blocks.dataBar.Some? {
        return blocks.dataBar.value;
      }
      condType := CONDITION_TYPE_DATA_BAR;
      blocks := blocks.(dataBar := Some(empty));
      block := empty;
    }

    /** `createMultiStateFormatting`. */
    method CreateMultiStateFormatting(empty: seq<byte>) returns (block: seq<byte>)
      modifies this
      ensures Fields() == WithMultiState(old(Fields()), empty)
      ensures Some(block) == blocks.multistate
    {
      if blocks.multistate.Some? {
        return blocks.multistate.value;
      }
      condType := CONDITION_TYPE_ICON_SET;
      blocks := blocks.(multistate := Some(empty));
      block := empty;
    }

    /** `createColorGradientFormatting`. */
    method CreateColorGradientFormatting(empty: seq<byte>) returns (block: seq<byte>)
      modifies this
      ensures Fields() == WithColorGradient(old(Fields()), empty)
      ensures Some(block) == blocks.gradient
    {
      if blocks.gradient.Some? {
        return blocks.gradient.value;
      }
      condType := CONDITION_TYPE_COLOR_SCALE;
      blocks := blocks.(gradient := Some(empty));
      block := empty;
    }

    /** `setParsedExpressionScale`. */
    method SetParsedExpressionScale(tokens: seq<byte>)
      modifies this
      ensures Fields() == old(Fields()).(formulaScale := tokens)
    {
      formulaScale := tokens;
    }

    /** `clone`, with the extension data copied at its own length. */
    method Clone() returns (r: Result<CFRule12Record, Fault>)
      requires Valid()
      ensures match CloneFields(Fields())
              case Success(c) => r.Success? && fresh(r.value) && r.value.Valid() && r.value.Fields() == c
              case Failure(e) => r == Failure(e)
    {
      var tpl := CloneTemplate(Fields());
      if tpl.Failure? {
        return Failure(tpl.error);
      }
      var rec := new CFRule12Record.FromFields(Fields().(header := CloneHeader(header), tplParams := Some(tpl.value)));
      r := Success(rec);
    }
  }

  // ------------------------------------------------ the writing steps

  method WriteHead(out: ByteSink, f: CfFields)
    modifies out
    ensures out.written == old(out.written) + HeadBytes(f)
  {
    out.Write(f.header);
    out.WriteByte(f.condType);
    out.WriteByte(f.compOp);
    out.WriteShort(|f.formula1|);
    out.WriteShort(|f.formula2|);
    // both branches of the source start with writeInt(efl), 0 being written as 0
    out.WriteInt(f.efl);
  }

  method WriteExtFormatting(out: ByteSink, f: CfFields)
    modifies out
    ensures out.written == old(out.written) + ExtFormattingBytes(f)
  {
    if f.efl == 0 {
      out.WriteShort(0);
    } else {
      out.Write(f.formatting);
      out.Write(f.extData);
    }
  }

  method WriteFormulas(out: ByteSink, f: CfFields)
    modifies out
    ensures out.written == old(out.written) + FormulaBytes(f)
  {
    out.Write(f.formula1);
    out.Write(f.formula2);
    out.WriteShort(|f.formulaScale|);
    out.Write(f.formulaScale);
  }

  /** The template part and the block the condition type selects. */
  method WriteTrailer(out: ByteSink, f: CfFields) returns (fault: Option<Fault>)
    modifies out
    ensures fault.None? <==> SerializeCf12(f).Success?
    ensures fault.Some? ==> SerializeCf12(f) == Failure(fault.value)
    ensures fault.None? ==> out.written == old(out.written) + (TailBytes(f).value
                                            + SelectedBlock(f.condType, f.blocks).value)
  {
    out.WriteByte(f.extOpts);
    out.WriteShort(f.priority);
    out.WriteShort(f.templateType);
    out.WriteByte(f.tplLen);
    if f.tplParams.None? {
      return Some(NullReference);
    }
    out.Write(f.tplParams.value);
    var block := SelectedBlock(f.condType, f.blocks);
    if block.Failure? {
      return Some(block.error);
    }
    out.Write(block.value);
    fault := None;
  }

  // ------------------------------------------------ the reading steps

  method ReadHead(input: ByteCursor) returns (r: Result<Head, Fault>)
    requires input.Valid()
    modifies input
    ensures input.Valid()
    ensures match TakeHead(old(input.Rest()))
            case Success(p) => r == Success(p.0) && input.Rest() == p.1
            case Failure(e) => r == Failure(e)
  {
    var h := input.ReadBytes(FTR_HEADER_SIZE);
    if h.Failure? {
      return Failure(h.error);
    }
    var ct := input.ReadSByte();
    if ct.Failure? {
      return Failure(ct.error);
    }
    var co := input.ReadSByte();
    if co.Failure? {
      return Failure(co.error);
    }
    var l1 := input.ReadUShort();
    if l1.Failure? {
      return Failure(l1.error);
    }
    var l2 := input.ReadUShort();
    if l2.Failure? {
      return Failure(l2.error);
    }
    var e := input.ReadInt();
    if e.Failure? {
      return Failure(e.error);
    }
    r := Success(Head(h.value, ct.value, co.value, l1.value, l2.value, e.value));
  }

  method ReadExtFormatting(input: ByteCursor, size: Sizer, efl: int)
    returns (r: Result<(seq<byte>, seq<byte>), Fault>)
    requires input.Valid()
    modifies input
    ensures input.Valid()
    ensures match TakeExtFormatting(size, efl, old(input.Rest()))
            case Success(p) => r == Success((p.0, p.1)) && input.Rest() == p.2
            case Failure(e) => r == Failure(e)
  {
    if efl == 0 {
      var reserved := input.ReadUShort();
      if reserved.Failure? {
        return Failure(reserved.error);
      }
      return Success(([], []));
    }
    var block := input.ReadBytes(size(input.Rest()));
    if block.Failure? {
      return Failure(block.error);
    }
    var len := |block.value|;
    if len < efl {
      var ext := input.ReadBytes(efl - len);
      if ext.Failure? {
        return Failure(ext.error);
      }
      return Success((block.value, ext.value));
    }
    r := Success((block.value, []));
  }

  method ReadFormulas(input: ByteCursor, len1: int, len2: int)
    returns (r: Result<(seq<byte>, seq<byte>, seq<byte>), Fault>)
    requires input.Valid()
    modifies input
    ensures input.Valid()
    ensures match TakeFormulas(len1, len2, old(input.Rest()))
            case Success(p) => r == Success((p.0, p.1, p.2)) && input.Rest() == p.3
            case Failure(e) => r == Failure(e)
  {
    var f1 := input.ReadBytes(len1);
    if f1.Failure? {
      return Failure(f1.error);
    }
    var f2 := input.ReadBytes(len2);
    if f2.Failure? {
      return Failure(f2.error);
    }
    var ls := input.ReadUShort();
    if ls.Failure? {
      return Failure(ls.error);
    }
    var fs := input.ReadBytes(ls.value);
    if fs.Failure? {
      return Failure(fs.error);
    }
    r := Success((f1.value, f2.value, fs.value));
  }

  method ReadTail(input: ByteCursor) returns (r: Result<Tail, Fault>)
    requires input.Valid()
    modifies input
    ensures input.Valid()
    ensures match TakeTail(old(input.Rest()))
            case Success(p) => r == Success(p.0) && input.Rest() == p.1
            case Failure(e) => r == Failure(e)
  {
    var opts := input.ReadSByte();
    if opts.Failure? {
      return Failure(opts.error);
    }
    var prio := input.ReadUShort();
    if prio.Failure? {
      return Failure(prio.error);
    }
    var tt := input.ReadUShort();
    if tt.Failure? {
      return Failure(tt.error);
    }
    var tl := input.ReadSByte();
    if tl.Failure? {
      return Failure(tl.error);
    }
    var tp: Option<seq<byte>> := None;
    if tl.value == 0 || tl.value == 16 {
      var p := input.ReadBytes(tl.value);
      if p.Failure? {
        return Failure(p.error);
      }
      tp := Some(p.value);
    } else {
      var skipped := input.ReadRemainder();
    }
    r := Success(Tail(opts.value, prio.value, tt.value, tl.value, tp));
  }

  method ReadTrailer(input: ByteCursor, sz: Sizers, condType: int) returns (r: Result<Blocks, Fault>)
    requires input.Valid()
    modifies input
    ensures input.Valid()
    ensures match TakeTrailer(sz, condType, old(input.Rest()))
            case Success(p) => r == Success(p.0) && input.Rest() == p.1
            case Failure(e) => r == Failure(e)
  {
    if condType == CONDITION_TYPE_COLOR_SCALE {
      var b := input.ReadBytes(sz.gradient(input.Rest()));
      if b.Failure? {
        return Failure(b.error);
      }
      r := Success(NO_BLOCKS.(gradient := Some(b.value)));
    } else if condType == CONDITION_TYPE_DATA_BAR {
      var b := input.ReadBytes(sz.dataBar(input.Rest()));
      if b.Failure? {
        return Failure(b.error);
      }
      r := Success(NO_BLOCKS.(dataBar := Some(b.value)));
    } else if condType == CONDITION_TYPE_FILTER {
      var d := input.ReadRemainder();
      r := Success(NO_BLOCKS.(filter := Some(d)));
    } else if condType == CONDITION_TYPE_ICON_SET {
      var b := input.ReadBytes(sz.multistate(input.Rest()));
      if b.Failure? {
        return Failure(b.error);
      }
      r := Success(NO_BLOCKS.(multistate := Some(b.value)));
    } else {
      r := Success(NO_BLOCKS);
    }
  }
}
