# POIAndroid core in Dafny

A model of a selection of POIAndroid, a mobile port of Apache POI (the Java
library for Microsoft Office file formats), with proofs about the model.
The selection covers:

- the cell-range algebra of conditional formatting: intersection, containment,
  enclosing range, pairwise merge, and the fixed-point list merge;
- three BIFF/Office record codecs: the BIFF8 BOF record, the CFRULE12
  conditional-formatting rule, and the Standard Encryption header of
  [MS-OFFCRYPTO] section 2.3.2;
- the DV/DVAL record aggregate (`DataValidityTable`);
- the Escher property-name table and the packed RGB property;
- four small user-model classes:
  - `HSSFExtendedColor` (RGBA/ARGB shuffles);
  - `HSSFBorderFormatting` (border setters and their "modified" flags);
  - `HSSFEvaluationWorkbook` (scoped name lookup and sheet references);
  - `StdfPost2000` (equals, hashCode, serialize);
- the COLUMNS spreadsheet function.

One Dafny module per source class, plus two shared modules:

- `Wrappers` holds `Option` and `Result`.
- `LittleEndian` holds the Java number model and the byte streams:
  - a `byte` type;
  - Java `byte`/`short`/`int` casts, with sign extension and wrap-around written out;
  - functional little-endian readers (`TakeShort`, `TakeInt`, …) and writers (`ShortBytes`, `IntBytes`, …);
  - `ByteCursor`, the record input stream;
  - `ByteSink`, the little-endian output with a delayed, back-patched int.

These two modules are shared infrastructure: they stand for POI's `LittleEndianInput`, `LittleEndianOutput` and `RecordInputStream`, whose sources are not part of this model. Their members carry contracts, but the table below has rows only for members of the modelled classes.

Each record has three parts:

- a value datatype of its fields;
- pure `Parse…`/`Serialize…` functions on byte sequences, which carry the round-trip lemmas;
- a `class` whose mutable fields mirror the Java record. Its stream-reading
  factory and its `Serialize` method are proved against those functions.

Mutable Java objects are classes; pure computations are functions. Loops stay
loops:

- `mergeCellRanges` keeps its nested passes;
- `getName` keeps its scan;
- the CSP-name read keeps its `while (true)` loop;
- the DV read keeps its while loop.

Each of these is proved against a recursive specification function.

Collaborators whose source is not part of this model are parameters:

- how many bytes the formatting block, the data-bar, icon-set and
  colour-gradient blocks occupy: a "sizer" function per block;
- the internal workbook's index lookups: functions in `Workbook`;
- the cipher provider's default name: a function;
- which ecma ids the cipher, hash and provider enums know: `EcmaIds`;
- the palette conversion of a `Color`: an optional index.

Constants from classes outside the model are written out:

- the CFRuleBase condition types: CELL_VALUE_IS 1, FORMULA 2, COLOR_SCALE 3,
  DATA_BAR 4, FILTER 5, ICON_SET 6;
- the FtrHeader size: 12 bytes;
- the Escher metadata types 0..5;
- the ExtendedColor types 0..3.

## Model

All source paths are relative to the repository root.

Some members that model source code have no contract of their own, so they have no row. The rows named here state what they do:

- `CellRangeUtil.Lt`, `Le`, `Gt`, `Ge` (CellRangeUtil.java:235-258): `MinusOneIsTop` and `LtIsStrictTotalOrder`.
- `CellRangeUtil.Contains` (CellRangeUtil.java:177-184): `ContainsMeansCells`, `ContainsTransitive` and `Intersect`.
- `CellRangeUtil.HasExactSharedBorder` (CellRangeUtil.java:192-212): `SharedBorderUnionIsExact` and `MergeRanges`.
- `CfRule12.CloneFields`, the corrected `clone` (CFRule12Record.java:449-489): `CloneKeepsRule`, `OddTemplateLengthIsStuck` and `CFRule12Record.Clone`.
- `CfRule12.HeadBytes`, `ExtFormattingBytes`, `FormulaBytes`, `SelectedBlock` (CFRule12Record.java:329-371): `SerializedParts`, `SerializeCf12`, `HeadBytesThen`, `FormulaBytesThen`, `TakeHeadOfWritten`, `TakeExtFormattingOfWritten`, `TakeFormulasOfWritten` and `TakeTrailerOfWritten`.
- `EvaluationWorkbook.LookupName`, `EqualsIgnoreCase`, `Matches` (HSSFEvaluationWorkbook.java:97-105): `LookupNameFindsFirst`, `GlobalNameFoundFromAnySheet`, `FirstMatchFrom`, `EqualsIgnoreCaseSymmetric` and `GetName`.
- `BorderFormatting.HSSFBorderFormatting.IsBackwardDiagonalOn`, `IsForwardDiagonalOn` (HSSFBorderFormatting.java:254-267): `SetBackwardDiagonalOn` and `SetForwardDiagonalOn`.
- `EscherProperties.TableOf`, the map the registrations of EscherProperties.java:332-676 build: `TableOfDomain`, `TableOfLast` and `InitProps`.
- `EscherRgbProperty.GetRgbColor` (EscherRGBProperty.java:33-35): `GetRed`, `GetGreen`, `GetBlue` and `ChannelsRecombine`.
- `StandardEncryptionHeader.NameToWrite`, the stored name or the provider's (StandardEncryptionHeader.java:111-113): `AsRead` and `ParseWritten`.
- `StdfPost2000.RsidTermAsWritten` (StdfPost2000.java:56): `RsidTermIsZero`.
- `ExtendedColor.HSSFExtendedColor.IsAuto`, `IsIndexed`, `IsRGB`, `IsThemed` (HSSFExtendedColor.java:44-58): `TypeTestsExclusive`. Its `GetRGB` and `GetARGB` return `RgbOf` and `ArgbOf` of the stored colour.

| member | source | states |
|---|---|---|
| CellRangeUtil.MinusOneIsTop | poiandroid/src/main/java/com/shvet/poi/hssf/record/cf/CellRangeUtil.java:235-258 | -1 is never below any bound, every other bound is below -1, so -1 acts as +infinity |
| CellRangeUtil.LtIsStrictTotalOrder | poiandroid/src/main/java/com/shvet/poi/hssf/record/cf/CellRangeUtil.java:235-258 | `lt` is irreflexive, transitive, total and asymmetric; `ge` is `le` reversed and `gt` is not-`le` |
| CellRangeUtil.Intersect | poiandroid/src/main/java/com/shvet/poi/hssf/record/cf/CellRangeUtil.java:55-77 | INSIDE exactly when the ranges meet and A contains B; ENCLOSES exactly when they meet and B contains A but not the reverse (containment is tested first) |
| CellRangeUtil.ContainsMeansCells | poiandroid/src/main/java/com/shvet/poi/hssf/record/cf/CellRangeUtil.java:177-184 | `contains(A, B)` holds iff every cell of B is a cell of A |
| CellRangeUtil.NoIntersectionMeansDisjoint | poiandroid/src/main/java/com/shvet/poi/hssf/record/cf/CellRangeUtil.java:62-69 | NO_INTERSECTION is returned iff the two ranges share no cell |
| CellRangeUtil.IntersectSelfIsInside | poiandroid/src/main/java/com/shvet/poi/hssf/record/cf/CellRangeUtil.java:70-75 | identical ranges give INSIDE, never ENCLOSES |
| CellRangeUtil.IntersectSwapped | poiandroid/src/main/java/com/shvet/poi/hssf/record/cf/CellRangeUtil.java:55-77 | swapping the arguments keeps NO_INTERSECTION and OVERLAP and exchanges ENCLOSES and INSIDE |
| CellRangeUtil.CreateEnclosingCellRange | poiandroid/src/main/java/com/shvet/poi/hssf/record/cf/CellRangeUtil.java:219-230 | the result contains A and B; with B null it is a copy of A |
| CellRangeUtil.EnclosingIsLeast | poiandroid/src/main/java/com/shvet/poi/hssf/record/cf/CellRangeUtil.java:219-230 | every range containing A and B contains the enclosing range |
| CellRangeUtil.SharedBorderUnionIsExact | poiandroid/src/main/java/com/shvet/poi/hssf/record/cf/CellRangeUtil.java:192-212 | for ranges with an exact shared border, the enclosing range holds exactly the cells of the two |
| CellRangeUtil.EnclosingWellFormed | poiandroid/src/main/java/com/shvet/poi/hssf/record/cf/CellRangeUtil.java:219-230 | the enclosing range of two well-formed ranges is well formed |
| CellRangeUtil.MergeRanges | poiandroid/src/main/java/com/shvet/poi/hssf/record/cf/CellRangeUtil.java:140-163 | OVERLAP never merges; INSIDE keeps range1; ENCLOSES keeps range2; any merge contains both inputs |
| CellRangeUtil.MergeRangesCells | poiandroid/src/main/java/com/shvet/poi/hssf/record/cf/CellRangeUtil.java:140-163 | a merge of well-formed ranges is well formed and adds no cell that neither input had |
| CellRangeUtil.Splice | poiandroid/src/main/java/com/shvet/poi/hssf/record/cf/CellRangeUtil.java:119-121 | `set(i, merged)` then `remove(j)` shortens the list by one |
| CellRangeUtil.SpliceElements | poiandroid/src/main/java/com/shvet/poi/hssf/record/cf/CellRangeUtil.java:119-121 | after the splice, position i holds the merge, other elements before j are kept, and those after j shift down by one |
| CellRangeUtil.InnerPass | poiandroid/src/main/java/com/shvet/poi/hssf/record/cf/CellRangeUtil.java:107-127 | the inner `for j` loop reports a merge iff the list got shorter, and a pass without a merge leaves the list unchanged |
| CellRangeUtil.OuterPass | poiandroid/src/main/java/com/shvet/poi/hssf/record/cf/CellRangeUtil.java:102-132 | one outer pass never lengthens the list; it reports a merge iff the list got shorter |
| CellRangeUtil.MergeAll | poiandroid/src/main/java/com/shvet/poi/hssf/record/cf/CellRangeUtil.java:87-135 | the while loop ends at a list no longer than its input, which one further pass leaves unchanged; 0 or 1 ranges come back as they are |
| CellRangeUtil.MergeWithLater | poiandroid/src/main/java/com/shvet/poi/hssf/record/cf/CellRangeUtil.java:107-127 | the imperative inner loop computes `InnerPass` |
| CellRangeUtil.MergePass | poiandroid/src/main/java/com/shvet/poi/hssf/record/cf/CellRangeUtil.java:102-132 | the imperative outer loop computes `OuterPass` |
| CellRangeUtil.MergeCellRangesAsWritten | poiandroid/src/main/java/com/shvet/poi/hssf/record/cf/CellRangeUtil.java:87-135 | `mergeCellRanges` as written (range1 read once per i) computes `MergeAll` without refresh; it never returns more ranges and returns empty input unchanged |
| CellRangeUtil.MergeCellRanges | poiandroid/src/main/java/com/shvet/poi/hssf/record/cf/CellRangeUtil.java:87-135 | with range1 refreshed after a merge, the same loops compute `MergeAll`, never grow the list, and every input range lies inside some output range |
| CellRangeUtil.ContainsTransitive | poiandroid/src/main/java/com/shvet/poi/hssf/record/cf/CellRangeUtil.java:177-184 | containment is transitive |
| CellRangeUtil.CoversTransitive | poiandroid/src/main/java/com/shvet/poi/hssf/record/cf/CellRangeUtil.java:177-184 | "every range lies inside one of" is transitive between lists |
| CellRangeUtil.SpliceCovers | poiandroid/src/main/java/com/shvet/poi/hssf/record/cf/CellRangeUtil.java:119-121 | replacing two ranges by one containing both keeps every range covered |
| CellRangeUtil.CoversSelf | poiandroid/src/main/java/com/shvet/poi/hssf/record/cf/CellRangeUtil.java:177-184 | a list covers itself |
| CellRangeUtil.InnerPassCovers | poiandroid/src/main/java/com/shvet/poi/hssf/record/cf/CellRangeUtil.java:107-127 | with refresh, the inner loop's result covers its input |
| CellRangeUtil.OuterPassCovers | poiandroid/src/main/java/com/shvet/poi/hssf/record/cf/CellRangeUtil.java:102-132 | with refresh, an outer pass's result covers its input |
| CellRangeUtil.MergeAllCovers | poiandroid/src/main/java/com/shvet/poi/hssf/record/cf/CellRangeUtil.java:87-135 | with refresh, the merge loses no range: each input range lies inside an output range |
| CellRangeUtil.SpliceMembers | poiandroid/src/main/java/com/shvet/poi/hssf/record/cf/CellRangeUtil.java:119-121 | every range after a splice is the merge or came from the list |
| CellRangeUtil.CellsWithinTransitive | poiandroid/src/main/java/com/shvet/poi/hssf/record/cf/CellRangeUtil.java:140-163 | "holds no cell outside" is transitive between lists |
| CellRangeUtil.CellsWithinSelf | poiandroid/src/main/java/com/shvet/poi/hssf/record/cf/CellRangeUtil.java:140-163 | a list holds no cell outside itself |
| CellRangeUtil.InnerPassCellsWithin | poiandroid/src/main/java/com/shvet/poi/hssf/record/cf/CellRangeUtil.java:107-127 | the inner loop, as written or corrected, keeps ranges well formed and adds no cell |
| CellRangeUtil.OuterPassCellsWithin | poiandroid/src/main/java/com/shvet/poi/hssf/record/cf/CellRangeUtil.java:102-132 | an outer pass keeps ranges well formed and adds no cell |
| CellRangeUtil.MergeAllCellsWithin | poiandroid/src/main/java/com/shvet/poi/hssf/record/cf/CellRangeUtil.java:87-135 | merging, as written or corrected, never adds a cell |
| CellRangeUtil.MergeKeepsExactlyTheCells | poiandroid/src/main/java/com/shvet/poi/hssf/record/cf/CellRangeUtil.java:87-135 | the corrected merge covers exactly the cells of its input |
| CellRangeUtil.StaleRangeLosesCells | poiandroid/src/main/java/com/shvet/poi/hssf/record/cf/CellRangeUtil.java:107-127 | on [A, B, A], as written the cells of B are lost, while the corrected merge gives the union |
| BofRecord.SerializeBof | poiandroid/src/main/java/com/shvet/poi/hssf/record/BOFRecord.java:286-293 | serialization is 2+2+2+2+4+4 = 16 bytes |
| BofRecord.OptionalShort | poiandroid/src/main/java/com/shvet/poi/hssf/record/BOFRecord.java:101-106 | with fewer than 2 bytes left, nothing is read and the field stays 0 |
| BofRecord.OptionalInt | poiandroid/src/main/java/com/shvet/poi/hssf/record/BOFRecord.java:107-112 | with fewer than 4 bytes left, nothing is read and the field stays 0 |
| BofRecord.ParseBof | poiandroid/src/main/java/com/shvet/poi/hssf/record/BOFRecord.java:95-113 | the read fails iff fewer than 4 bytes; the fields are in range; fields beyond the bytes present stay 0; the rest of the input is what was not consumed |
| BofRecord.Consumed | poiandroid/src/main/java/com/shvet/poi/hssf/record/BOFRecord.java:95-113 | at most the available bytes are consumed, and 16 exactly when 16 are there |
| BofRecord.ParseSerializeBof | poiandroid/src/main/java/com/shvet/poi/hssf/record/BOFRecord.java:95-113 | reading the serialized record, followed by anything, restores all six fields when they fit their Java widths |
| BofRecord.Truncated | poiandroid/src/main/java/com/shvet/poi/hssf/record/BOFRecord.java:101-112 | the fields a short record yields; all of them at 16 bytes |
| BofRecord.ParseTruncatedBof | poiandroid/src/main/java/com/shvet/poi/hssf/record/BOFRecord.java:95-113 | a record cut after n ≥ 4 bytes reads back every field wholly present, the others 0 |
| BofRecord.TypeName | poiandroid/src/main/java/com/shvet/poi/hssf/record/BOFRecord.java:268-284 | the error text is returned iff the type is none of the six known types |
| BofRecord.ReadOptionalShort | poiandroid/src/main/java/com/shvet/poi/hssf/record/BOFRecord.java:101-106 | the cursor step computes `OptionalShort` on the remaining bytes |
| BofRecord.ReadOptionalInt | poiandroid/src/main/java/com/shvet/poi/hssf/record/BOFRecord.java:107-112 | the cursor step computes `OptionalInt` on the remaining bytes |
| BofRecord.BOFRecord.constructor | poiandroid/src/main/java/com/shvet/poi/hssf/record/BOFRecord.java:83-84 | a new record has every field 0 |
| BofRecord.BOFRecord.OfType | poiandroid/src/main/java/com/shvet/poi/hssf/record/BOFRecord.java:86-93 | version 0x0600, the given type, build 0x10d3, year 0x07CC, history 0x01, required version 0x0600 |
| BofRecord.BOFRecord.Read | poiandroid/src/main/java/com/shvet/poi/hssf/record/BOFRecord.java:95-113 | reading from the stream gives the fields of `ParseBof` and leaves the cursor after them, or fails as it does |
| BofRecord.BOFRecord.CreateSheetBOF | poiandroid/src/main/java/com/shvet/poi/hssf/record/BOFRecord.java:115-117 | a fresh worksheet BOF (type 0x10) with the default fields |
| BofRecord.BOFRecord.SetVersion | poiandroid/src/main/java/com/shvet/poi/hssf/record/BOFRecord.java:135-137 | only the version changes |
| BofRecord.BOFRecord.SetType | poiandroid/src/main/java/com/shvet/poi/hssf/record/BOFRecord.java:165-167 | only the type changes |
| BofRecord.BOFRecord.SetBuild | poiandroid/src/main/java/com/shvet/poi/hssf/record/BOFRecord.java:185-187 | only the build changes |
| BofRecord.BOFRecord.SetBuildYear | poiandroid/src/main/java/com/shvet/poi/hssf/record/BOFRecord.java:205-207 | only the year changes |
| BofRecord.BOFRecord.SetHistoryBitMask | poiandroid/src/main/java/com/shvet/poi/hssf/record/BOFRecord.java:225-227 | only the history mask changes |
| BofRecord.BOFRecord.SetRequiredVersion | poiandroid/src/main/java/com/shvet/poi/hssf/record/BOFRecord.java:245-247 | only the required version changes |
| BofRecord.BOFRecord.Serialize | poiandroid/src/main/java/com/shvet/poi/hssf/record/BOFRecord.java:286-293 | appends exactly `SerializeBof` of the fields to the output |
| BofRecord.BOFRecord.DataSize | poiandroid/src/main/java/com/shvet/poi/hssf/record/BOFRecord.java:295-297 | `getDataSize` equals the length `serialize` writes |
| BofRecord.BOFRecord.Clone | poiandroid/src/main/java/com/shvet/poi/hssf/record/BOFRecord.java:303-312 | a fresh record with all six fields equal |
| DataValidity.DvRun | poiandroid/src/main/java/com/shvet/poi/hssf/record/aggregates/DataValidityTable.java:45-47 | the greedy run: every record in it is a DV, and the record after it is not |
| DataValidity.ParseTable | poiandroid/src/main/java/com/shvet/poi/hssf/record/aggregates/DataValidityTable.java:42-49 | succeeds iff the stream starts with a DVAL; header, DV run and rest split the stream exactly, and the rest does not start with a DV |
| DataValidity.Emitted | poiandroid/src/main/java/com/shvet/poi/hssf/record/aggregates/DataValidityTable.java:56-64 | nothing for an empty list, not even the header; otherwise the header then every validation in order |
| DataValidity.DvRunOfDvs | poiandroid/src/main/java/com/shvet/poi/hssf/record/aggregates/DataValidityTable.java:45-47 | the run over DVs followed by a non-DV is exactly the DVs |
| DataValidity.ParseEmitted | poiandroid/src/main/java/com/shvet/poi/hssf/record/aggregates/DataValidityTable.java:42-64 | reading back what the table emits (header and a non-empty list) gives the same header and list |
| DataValidity.ParseTableOf | poiandroid/src/main/java/com/shvet/poi/hssf/record/aggregates/DataValidityTable.java:42-49 | any split into header, DVs and a rest not starting with a DV is the one the read finds |
| DataValidity.RecordStream.GetNext | poiandroid/src/main/java/com/shvet/poi/hssf/record/aggregates/DataValidityTable.java:43 | returns the next record and advances by one; fails at the end of the stream |
| DataValidity.RecordStream.PeekIsDv | poiandroid/src/main/java/com/shvet/poi/hssf/record/aggregates/DataValidityTable.java:45 | true iff a next record exists and is a DV |
| DataValidity.DataValidityTable.constructor | poiandroid/src/main/java/com/shvet/poi/hssf/record/aggregates/DataValidityTable.java:51-54 | a new table has a new header with count 0 and an empty list, and keeps the invariant |
| DataValidity.DataValidityTable.FromParts | poiandroid/src/main/java/com/shvet/poi/hssf/record/aggregates/DataValidityTable.java:42-49 | a table holding the given DVAL header and DV list, which keeps the table's invariant (the header is a DVAL, every list element a DV) |
| DataValidity.DataValidityTable.Read | poiandroid/src/main/java/com/shvet/poi/hssf/record/aggregates/DataValidityTable.java:42-49 | the while loop reads what `ParseTable` describes, leaves the stream at the first non-DV record, and yields a table keeping the invariant |
| DataValidity.DataValidityTable.VisitContainedRecords | poiandroid/src/main/java/com/shvet/poi/hssf/record/aggregates/DataValidityTable.java:56-64 | the records visited are exactly `Emitted`; for a non-empty table they read back, before any non-DV record, as the same header and list |
| DataValidity.DataValidityTable.AddDataValidation | poiandroid/src/main/java/com/shvet/poi/hssf/record/aggregates/DataValidityTable.java:66-69 | takes a DV record, appends it at the end, sets the header's count to the new list length, and keeps the invariant |
| CfRule12.TakeBlock | poiandroid/src/main/java/com/shvet/poi/hssf/record/CFRule12Record.java:101-137 | a sub-block read succeeds iff its reader's size is available, and splits the input at that size |
| CfRule12.TakeBlockOfWritten | poiandroid/src/main/java/com/shvet/poi/hssf/record/CFRule12Record.java:101-137 | a self-delimiting block reads back as itself, whatever follows |
| CfRule12.TakeHead | poiandroid/src/main/java/com/shvet/poi/hssf/record/CFRule12Record.java:89-95 | the fixed head needs header + 10 bytes and consumes exactly them |
| CfRule12.TakeOperands | poiandroid/src/main/java/com/shvet/poi/hssf/record/CFRule12Record.java:90-93 | condition type, operator and the two formula lengths take 6 bytes |
| CfRule12.TakeExtFormatting | poiandroid/src/main/java/com/shvet/poi/hssf/record/CFRule12Record.java:95-106 | with length 0 exactly 2 reserved bytes are consumed; otherwise extension data is read only when the block is shorter than declared |
| CfRule12.TakeFormulas | poiandroid/src/main/java/com/shvet/poi/hssf/record/CFRule12Record.java:108-112 | the two formulas have the lengths of the head, and the scale its 16-bit prefix |
| CfRule12.TakeTemplateParams | poiandroid/src/main/java/com/shvet/poi/hssf/record/CFRule12Record.java:117-126 | parameters are read only for lengths 0 and 16; any other length consumes the rest of the record |
| CfRule12.TakeTail | poiandroid/src/main/java/com/shvet/poi/hssf/record/CFRule12Record.java:114-126 | after the priority and template fields, the parameters are present exactly when the template length is 0 or 16 |
| CfRule12.TakeTrailer | poiandroid/src/main/java/com/shvet/poi/hssf/record/CFRule12Record.java:128-137 | FILTER takes the remainder; a type without a block reads nothing |
| CfRule12.ParseCf12 | poiandroid/src/main/java/com/shvet/poi/hssf/record/CFRule12Record.java:88-138 | a successful read has a full-size future header, and has template parameters exactly when their length is 0 or 16 |
| CfRule12.TailBytes | poiandroid/src/main/java/com/shvet/poi/hssf/record/CFRule12Record.java:355-359 | writing the tail fails iff the template array is null |
| CfRule12.SerializeCf12 | poiandroid/src/main/java/com/shvet/poi/hssf/record/CFRule12Record.java:329-371 | serialization succeeds iff the template array and the block the condition type selects are present |
| CfRule12.DataSize | poiandroid/src/main/java/com/shvet/poi/hssf/record/CFRule12Record.java:373-396 | `getDataSize` fails exactly when `serialize` does, and otherwise equals the serialized length |
| CfRule12.TakeHeadOfWritten | poiandroid/src/main/java/com/shvet/poi/hssf/record/CFRule12Record.java:89-95 | the written head reads back |
| CfRule12.HeadBytesThen | poiandroid/src/main/java/com/shvet/poi/hssf/record/CFRule12Record.java:330-338 | the head bytes in write order |
| CfRule12.TakeHeadOfParts | poiandroid/src/main/java/com/shvet/poi/hssf/record/CFRule12Record.java:89-95 | a head written field by field reads back field by field |
| CfRule12.TakeOperandsOfWritten | poiandroid/src/main/java/com/shvet/poi/hssf/record/CFRule12Record.java:90-93 | the written operands read back |
| CfRule12.TakeExtFormattingOfWritten | poiandroid/src/main/java/com/shvet/poi/hssf/record/CFRule12Record.java:95-106 | the written extended formatting reads back, for a canonical rule (template parameters of 0 or 16 bytes, self-delimiting blocks, extension data as long as a read makes it) |
| CfRule12.TakeFormulasOfWritten | poiandroid/src/main/java/com/shvet/poi/hssf/record/CFRule12Record.java:108-112 | the written formulas read back |
| CfRule12.FormulaBytesThen | poiandroid/src/main/java/com/shvet/poi/hssf/record/CFRule12Record.java:350-353 | the formula bytes in write order |
| CfRule12.TakeFormulasOfParts | poiandroid/src/main/java/com/shvet/poi/hssf/record/CFRule12Record.java:108-112 | formulas written part by part read back part by part |
| CfRule12.TakeTailOfWritten | poiandroid/src/main/java/com/shvet/poi/hssf/record/CFRule12Record.java:114-126 | the written tail reads back when the template length is 0 or 16 |
| CfRule12.TakeTrailerOfWritten | poiandroid/src/main/java/com/shvet/poi/hssf/record/CFRule12Record.java:128-137 | the block `serialize` writes for the condition type is the one read back |
| CfRule12.ParseSerializeCf12 | poiandroid/src/main/java/com/shvet/poi/hssf/record/CFRule12Record.java:88-138 | reading back what `serialize` wrote restores every field of a canonical rule (template parameters of 0 or 16 bytes, self-delimiting blocks), and leaves what follows |
| CfRule12.Defaults | poiandroid/src/main/java/com/shvet/poi/hssf/record/CFRule12Record.java:233-247 | no extended formatting, priority 0, ext_opts 0, 16 zero template parameters |
| CfRule12.DefaultsRoundTrip | poiandroid/src/main/java/com/shvet/poi/hssf/record/CFRule12Record.java:233-247 | a new rule without a trailing block is 48 bytes and reads back with 2 reserved bytes in place of the default extension data |
| CfRule12.DefaultsCanonical | poiandroid/src/main/java/com/shvet/poi/hssf/record/CFRule12Record.java:233-247 | a new rule, once its extension data is dropped, is canonical |
| CfRule12.WithDataBar | poiandroid/src/main/java/com/shvet/poi/hssf/record/CFRule12Record.java:257-265 | afterwards a data bar exists; an existing one is kept unchanged; otherwise the condition type becomes DATA_BAR |
| CfRule12.WithMultiState | poiandroid/src/main/java/com/shvet/poi/hssf/record/CFRule12Record.java:275-283 | the same for ICON_SET |
| CfRule12.WithColorGradient | poiandroid/src/main/java/com/shvet/poi/hssf/record/CFRule12Record.java:293-301 | the same for COLOR_SCALE |
| CfRule12.CreateBlockIdempotent | poiandroid/src/main/java/com/shvet/poi/hssf/record/CFRule12Record.java:257-301 | creating a block twice is creating it once |
| CfRule12.CloneHeader | poiandroid/src/main/java/com/shvet/poi/hssf/record/CFRule12Record.java:450-453 | the clone's header keeps the associated range |
| CfRule12.CloneTemplate | poiandroid/src/main/java/com/shvet/poi/hssf/record/CFRule12Record.java:467-470 | the template copy fails iff the length is negative, the array is null or shorter than the length |
| CfRule12.CloneFieldsAsWritten | poiandroid/src/main/java/com/shvet/poi/hssf/record/CFRule12Record.java:449-489 | a clone as written has extension data of the declared length |
| CfRule12.ParsedRuleCloneFails | poiandroid/src/main/java/com/shvet/poi/hssf/record/CFRule12Record.java:457-460 | as written, cloning any canonical rule with a non-zero extended length and a non-empty formatting block fails |
| CfRule12.CloneAsWrittenCounterexample | poiandroid/src/main/java/com/shvet/poi/hssf/record/CFRule12Record.java:457-460 | a 6-byte block declared as 10 bytes: the copy runs out of bounds |
| CfRule12.CloneKeepsRule | poiandroid/src/main/java/com/shvet/poi/hssf/record/CFRule12Record.java:449-489 | the corrected clone of any canonical rule succeeds, keeps every field (template parameters and filter data with equal contents), and serializes alike from byte 4 |
| CfRule12.OddTemplateLengthIsStuck | poiandroid/src/main/java/com/shvet/poi/hssf/record/CFRule12Record.java:117-124 | a read with a template parameter length other than 0 or 16 succeeds with null parameters, and the rule it yields fails both `serialize` (null reference) and `clone` |
| CfRule12.SerializeAfterHeader | poiandroid/src/main/java/com/shvet/poi/hssf/record/CFRule12Record.java:329-371 | only the first header bytes of the serialization depend on the header's first bytes |
| CfRule12.SerializedParts | poiandroid/src/main/java/com/shvet/poi/hssf/record/CFRule12Record.java:329-371 | the serialization is head, extended formatting, formulas, tail and selected block in write order |
| CfRule12.SerializedThen | poiandroid/src/main/java/com/shvet/poi/hssf/record/CFRule12Record.java:329-371 | the same, followed by further bytes, grouped as the reader consumes them |
| CfRule12.CFRule12Record.FromFields | poiandroid/src/main/java/com/shvet/poi/hssf/record/CFRule12Record.java:57-71 | a record object holding the given fields |
| CfRule12.CFRule12Record.constructor | poiandroid/src/main/java/com/shvet/poi/hssf/record/CFRule12Record.java:76-79 | the private constructor gives the `setDefaults` fields |
| CfRule12.CFRule12Record.WithFormulas | poiandroid/src/main/java/com/shvet/poi/hssf/record/CFRule12Record.java:81-86 | defaults with the three formulas set; a null scale is empty |
| CfRule12.CFRule12Record.CreateFormulaRule | poiandroid/src/main/java/com/shvet/poi/hssf/record/CFRule12Record.java:143-147 | a FORMULA rule with no comparison and only formula 1 |
| CfRule12.CFRule12Record.CreateCellValueRule | poiandroid/src/main/java/com/shvet/poi/hssf/record/CFRule12Record.java:152-171 | a CELL_VALUE_IS rule with the operator and the formulas |
| CfRule12.CFRule12Record.Read | poiandroid/src/main/java/com/shvet/poi/hssf/record/CFRule12Record.java:88-138 | the stream constructor reads what `ParseCf12` describes, or fails as it does |
| CfRule12.CFRule12Record.Serialize | poiandroid/src/main/java/com/shvet/poi/hssf/record/CFRule12Record.java:329-371 | appends `SerializeCf12` of the fields, or reports its fault |
| CfRule12.CFRule12Record.CreateDataBarFormatting | poiandroid/src/main/java/com/shvet/poi/hssf/record/CFRule12Record.java:257-265 | the fields become `WithDataBar`, and the returned block is the stored one |
| CfRule12.CFRule12Record.CreateMultiStateFormatting | poiandroid/src/main/java/com/shvet/poi/hssf/record/CFRule12Record.java:275-283 | the fields become `WithMultiState`, and the returned block is the stored one |
| CfRule12.CFRule12Record.CreateColorGradientFormatting | poiandroid/src/main/java/com/shvet/poi/hssf/record/CFRule12Record.java:293-301 | the fields become `WithColorGradient`, and the returned block is the stored one |
| CfRule12.CFRule12Record.SetParsedExpressionScale | poiandroid/src/main/java/com/shvet/poi/hssf/record/CFRule12Record.java:314-316 | only the scale formula changes |
| CfRule12.CFRule12Record.Clone | poiandroid/src/main/java/com/shvet/poi/hssf/record/CFRule12Record.java:449-489 | a fresh record with the fields of the corrected `CloneFields`, or its fault |
| CfRule12.WriteHead | poiandroid/src/main/java/com/shvet/poi/hssf/record/CFRule12Record.java:330-338 | appends the head bytes |
| CfRule12.WriteExtFormatting | poiandroid/src/main/java/com/shvet/poi/hssf/record/CFRule12Record.java:341-348 | appends int 0 and short 0 for length 0, else the length, block and extension data |
| CfRule12.WriteFormulas | poiandroid/src/main/java/com/shvet/poi/hssf/record/CFRule12Record.java:350-353 | appends the formulas and the prefixed scale |
| CfRule12.WriteTrailer | poiandroid/src/main/java/com/shvet/poi/hssf/record/CFRule12Record.java:355-370 | appends the tail and the selected block, or reports the fault `serialize` would raise |
| CfRule12.ReadHead | poiandroid/src/main/java/com/shvet/poi/hssf/record/CFRule12Record.java:89-95 | the cursor reads compute `TakeHead` |
| CfRule12.ReadExtFormatting | poiandroid/src/main/java/com/shvet/poi/hssf/record/CFRule12Record.java:95-106 | the cursor reads compute `TakeExtFormatting` |
| CfRule12.ReadFormulas | poiandroid/src/main/java/com/shvet/poi/hssf/record/CFRule12Record.java:108-112 | the cursor reads compute `TakeFormulas` |
| CfRule12.ReadTail | poiandroid/src/main/java/com/shvet/poi/hssf/record/CFRule12Record.java:114-126 | the cursor reads compute `TakeTail` |
| CfRule12.ReadTrailer | poiandroid/src/main/java/com/shvet/poi/hssf/record/CFRule12Record.java:128-137 | the cursor reads compute `TakeTrailer` |
| EscherProperties.TableOfDomain | poiandroid/src/main/java/com/shvet/poi/ddf/EscherProperties.java:667-676 | an id is in the table iff some registration has its short key |
| EscherProperties.TableOfLast | poiandroid/src/main/java/com/shvet/poi/ddf/EscherProperties.java:667-676 | the table holds the last registration for each key (later puts win) |
| EscherProperties.PropertyMap.constructor | poiandroid/src/main/java/com/shvet/poi/ddf/EscherProperties.java:333 | the map starts empty |
| EscherProperties.PropertyMap.AddProp | poiandroid/src/main/java/com/shvet/poi/ddf/EscherProperties.java:667-676 | a put under the id cast to short, replacing any earlier entry |
| EscherProperties.InitProps | poiandroid/src/main/java/com/shvet/poi/ddf/EscherProperties.java:332-665 | the run of puts builds exactly `TableOf` the registrations |
| EscherProperties.GetPropertyName | poiandroid/src/main/java/com/shvet/poi/ddf/EscherProperties.java:678-681 | "unknown" for an unregistered id, else the name of its last registration |
| EscherProperties.GetPropertyType | poiandroid/src/main/java/com/shvet/poi/ddf/EscherProperties.java:683-688 | 0 for an unregistered id, else the type of its last registration |
| EscherProperties.FillColorIsRgb | poiandroid/src/main/java/com/shvet/poi/ddf/EscherProperties.java:438-439 | fill colour (385) is "fill.fillcolor" of type RGB |
| EscherProperties.GroupShapeFlagsReplaced | poiandroid/src/main/java/com/shvet/poi/ddf/EscherProperties.java:321-328 | 0x03BF is both GROUPSHAPE__FLAGS and GROUPSHAPE__PRINT, and the later registration wins: "groupshape.print", boolean |
| EscherProperties.UnregisteredIdIsUnknown | poiandroid/src/main/java/com/shvet/poi/ddf/EscherProperties.java:678-688 | id 0 is "unknown" with type 0 |
| EscherRgbProperty.Channel | poiandroid/src/main/java/com/shvet/poi/ddf/EscherRGBProperty.java:37-47 | a shifted and masked channel is in 0..255 |
| EscherRgbProperty.GetRed | poiandroid/src/main/java/com/shvet/poi/ddf/EscherRGBProperty.java:37-39 | bits 0-7, as a signed byte |
| EscherRgbProperty.GetGreen | poiandroid/src/main/java/com/shvet/poi/ddf/EscherRGBProperty.java:41-43 | bits 8-15, as a signed byte |
| EscherRgbProperty.GetBlue | poiandroid/src/main/java/com/shvet/poi/ddf/EscherRGBProperty.java:45-47 | bits 16-23, as a signed byte |
| EscherRgbProperty.Unsigned | poiandroid/src/main/java/com/shvet/poi/ddf/EscherRGBProperty.java:37-47 | the unsigned value of a signed byte is in 0..255 |
| EscherRgbProperty.ChannelsRecombine | poiandroid/src/main/java/com/shvet/poi/ddf/EscherRGBProperty.java:37-47 | red + green·2^8 + blue·2^16, unsigned, is the value mod 2^24 |
| EscherRgbProperty.UnsignedOfChannel | poiandroid/src/main/java/com/shvet/poi/ddf/EscherRGBProperty.java:37-47 | casting a channel to a byte and back loses nothing |
| EscherRgbProperty.LowBytes | poiandroid/src/main/java/com/shvet/poi/ddf/EscherRGBProperty.java:37-47 | the three channels recombine to the low 24 bits |
| EscherRgbProperty.HighByteIgnored | poiandroid/src/main/java/com/shvet/poi/ddf/EscherRGBProperty.java:37-47 | bits 24-31 affect no channel |
| EscherRgbProperty.RedIgnoresHighByte | poiandroid/src/main/java/com/shvet/poi/ddf/EscherRGBProperty.java:37-39 | bits 24-31 do not affect red |
| EscherRgbProperty.GreenIgnoresHighByte | poiandroid/src/main/java/com/shvet/poi/ddf/EscherRGBProperty.java:41-43 | bits 24-31 do not affect green |
| EscherRgbProperty.BlueIgnoresHighByte | poiandroid/src/main/java/com/shvet/poi/ddf/EscherRGBProperty.java:45-47 | bits 24-31 do not affect blue |
| EscherRgbProperty.ChannelSign | poiandroid/src/main/java/com/shvet/poi/ddf/EscherRGBProperty.java:37-47 | a channel comes back negative iff it is 128 or more |
| EscherRgbProperty.PureRedIsNegative | poiandroid/src/main/java/com/shvet/poi/ddf/EscherRGBProperty.java:37-47 | 0xFF red reads as -1, with green and blue 0 |
| StandardEncryptionHeader.CharOf | poiandroid/src/main/java/com/shvet/poi/poifs/crypt/standard/StandardEncryptionHeader.java:67 | `(char) readShort()` is a 16-bit code unit |
| StandardEncryptionHeader.TakeCspName | poiandroid/src/main/java/com/shvet/poi/poifs/crypt/standard/StandardEncryptionHeader.java:65-72 | the name read holds no 0 unit and its terminator was consumed |
| StandardEncryptionHeader.TakeAlgorithms | poiandroid/src/main/java/com/shvet/poi/poifs/crypt/standard/StandardEncryptionHeader.java:38-41 | flags, sizeExtra, cipher and hash ids are four ints, 16 bytes; each id must be known to its enum, and an unknown cipher id fails before the hash id is read |
| StandardEncryptionHeader.TakeKey | poiandroid/src/main/java/com/shvet/poi/poifs/crypt/standard/StandardEncryptionHeader.java:42-51 | keySize and provider id are two ints, followed by 8 skipped reserved bytes; an unknown provider id fails before they are skipped |
| StandardEncryptionHeader.TakeCspNameField | poiandroid/src/main/java/com/shvet/poi/poifs/crypt/standard/StandardEncryptionHeader.java:58-73 | the peek needs 4 bytes |
| StandardEncryptionHeader.StoredKeySize | poiandroid/src/main/java/com/shvet/poi/poifs/crypt/standard/StandardEncryptionHeader.java:42-49 | a non-zero keySize is kept and 0 becomes 0x28 |
| StandardEncryptionHeader.ParseHeader | poiandroid/src/main/java/com/shvet/poi/poifs/crypt/standard/StandardEncryptionHeader.java:37-77 | blockSize equals keySize, which is never 0; chaining mode ECB, no key salt, a CSP name; at least 32 + 4 bytes read; every id known to its enum, and an unknown cipher id fails the read |
| StandardEncryptionHeader.UnicodeLE | poiandroid/src/main/java/com/shvet/poi/poifs/crypt/standard/StandardEncryptionHeader.java:114 | two bytes per code unit, and for a well-formed UTF-16 name exactly its own units |
| StandardEncryptionHeader.ReplaceUnpaired | poiandroid/src/main/java/com/shvet/poi/poifs/crypt/standard/StandardEncryptionHeader.java:114 | the units UTF-16LE encoding writes: same length, each unit kept or, if it is a surrogate, replaced by U+FFFD |
| StandardEncryptionHeader.ReplaceUnpairedWellFormed | poiandroid/src/main/java/com/shvet/poi/poifs/crypt/standard/StandardEncryptionHeader.java:114 | what is written is always well-formed UTF-16 |
| StandardEncryptionHeader.ReplaceUnpairedKeepsIffWellFormed | poiandroid/src/main/java/com/shvet/poi/poifs/crypt/standard/StandardEncryptionHeader.java:114 | a name is written unchanged exactly when it is well-formed UTF-16 |
| StandardEncryptionHeader.LoneSurrogateIsReplaced | poiandroid/src/main/java/com/shvet/poi/poifs/crypt/standard/StandardEncryptionHeader.java:114 | a lone high surrogate U+D800 is written as FD FF |
| StandardEncryptionHeader.Body | poiandroid/src/main/java/com/shvet/poi/poifs/crypt/standard/StandardEncryptionHeader.java:103-115 | eight ints, the UTF-16LE name and a 2-byte terminator |
| StandardEncryptionHeader.SizePrefix | poiandroid/src/main/java/com/shvet/poi/poifs/crypt/standard/StandardEncryptionHeader.java:99-119 | the 4-byte prefix holds the number of bytes after it |
| StandardEncryptionHeader.ZeroFieldsWritten | poiandroid/src/main/java/com/shvet/poi/poifs/crypt/standard/StandardEncryptionHeader.java:104-110 | sizeExtra and both reserved fields are always written as 0 |
| StandardEncryptionHeader.TakeCspNameOfWritten | poiandroid/src/main/java/com/shvet/poi/poifs/crypt/standard/StandardEncryptionHeader.java:65-72 | a written name reads back, up to its terminator, as the units the encoder wrote (unpaired surrogates replaced) |
| StandardEncryptionHeader.TakeShort16 | poiandroid/src/main/java/com/shvet/poi/poifs/crypt/standard/StandardEncryptionHeader.java:67 | `(char) readShort()` equals the unsigned 16-bit read |
| StandardEncryptionHeader.TakeAlgorithmsOfWritten | poiandroid/src/main/java/com/shvet/poi/poifs/crypt/standard/StandardEncryptionHeader.java:38-41 | the written algorithm ints read back, sizeExtra as 0, when both ids are known |
| StandardEncryptionHeader.TakeKeyOfWritten | poiandroid/src/main/java/com/shvet/poi/poifs/crypt/standard/StandardEncryptionHeader.java:42-53 | the written key size and provider read back, when the provider id is known |
| StandardEncryptionHeader.PeekIsSaltSize | poiandroid/src/main/java/com/shvet/poi/poifs/crypt/standard/StandardEncryptionHeader.java:58-62 | the peeked int is 16 iff the next bytes are 16, 0, 0, 0 |
| StandardEncryptionHeader.TakeCspNameFieldOfWritten | poiandroid/src/main/java/com/shvet/poi/poifs/crypt/standard/StandardEncryptionHeader.java:58-73 | a written name other than the single unit 16 reads back, with unpaired surrogates replaced |
| StandardEncryptionHeader.NameBytesStart | poiandroid/src/main/java/com/shvet/poi/poifs/crypt/standard/StandardEncryptionHeader.java:58-62 | such a name never looks like the salt size to the peek |
| StandardEncryptionHeader.AsRead | poiandroid/src/main/java/com/shvet/poi/poifs/crypt/standard/StandardEncryptionHeader.java:37-77 | the fields a read recovers: sizeExtra 0, blockSize = keySize, ECB, no salt, the name with unpaired surrogates replaced by U+FFFD |
| StandardEncryptionHeader.ParseWritten | poiandroid/src/main/java/com/shvet/poi/poifs/crypt/standard/StandardEncryptionHeader.java:37-119 | reading what `write` wrote after its prefix gives `AsRead` of the fields, for a header whose ids are known: a well-formed name comes back as is, and an unpaired surrogate comes back as U+FFFD |
| StandardEncryptionHeader.UnknownCipherIsRejected | poiandroid/src/main/java/com/shvet/poi/poifs/crypt/standard/StandardEncryptionHeader.java:40 | a written header whose cipher id is unknown fails the read with the lookup's error |
| StandardEncryptionHeader.SaltSizeNameIsLost | poiandroid/src/main/java/com/shvet/poi/poifs/crypt/standard/StandardEncryptionHeader.java:58-63 | a CSP name consisting of the single unit 16 reads back as the empty name |
| StandardEncryptionHeader.TakeCspNameFieldOfSaltName | poiandroid/src/main/java/com/shvet/poi/poifs/crypt/standard/StandardEncryptionHeader.java:58-63 | that name is taken for the verifier's salt size and not consumed |
| StandardEncryptionHeader.PatchedPrefix | poiandroid/src/main/java/com/shvet/poi/poifs/crypt/standard/StandardEncryptionHeader.java:100-118 | patching the delayed int gives the size-prefixed body |
| StandardEncryptionHeader.EncryptionHeader.FromFields | poiandroid/src/main/java/com/shvet/poi/poifs/crypt/standard/StandardEncryptionHeader.java:37-77 | a header object holding the given fields |
| StandardEncryptionHeader.EncryptionHeader.Read | poiandroid/src/main/java/com/shvet/poi/poifs/crypt/standard/StandardEncryptionHeader.java:37-77 | the parsing constructor reads what `ParseHeader` describes, or fails as it does, including on an unknown cipher, hash or provider id |
| StandardEncryptionHeader.EncryptionHeader.Write | poiandroid/src/main/java/com/shvet/poi/poifs/crypt/standard/StandardEncryptionHeader.java:99-119 | appends the size prefix and the body |
| StandardEncryptionHeader.WriteBody | poiandroid/src/main/java/com/shvet/poi/poifs/crypt/standard/StandardEncryptionHeader.java:103-115 | appends exactly `Body` |
| StandardEncryptionHeader.BodyConcat | poiandroid/src/main/java/com/shvet/poi/poifs/crypt/standard/StandardEncryptionHeader.java:103-115 | the body's parts in write order |
| StandardEncryptionHeader.WriteInts | poiandroid/src/main/java/com/shvet/poi/poifs/crypt/standard/StandardEncryptionHeader.java:103-110 | appends four little-endian ints |
| StandardEncryptionHeader.ReadAlgorithms | poiandroid/src/main/java/com/shvet/poi/poifs/crypt/standard/StandardEncryptionHeader.java:38-41 | the cursor reads and lookups compute `TakeAlgorithms` |
| StandardEncryptionHeader.ReadCspNameField | poiandroid/src/main/java/com/shvet/poi/poifs/crypt/standard/StandardEncryptionHeader.java:58-73 | the peek and the name loop compute `TakeCspNameField` |
| StandardEncryptionHeader.PrefixedNothing | poiandroid/src/main/java/com/shvet/poi/poifs/crypt/standard/StandardEncryptionHeader.java:65-72 | an empty builder prefix changes nothing |
| StandardEncryptionHeader.PrefixedTwice | poiandroid/src/main/java/com/shvet/poi/poifs/crypt/standard/StandardEncryptionHeader.java:65-72 | appending in two steps is appending once |
| StandardEncryptionHeader.ReadCspName | poiandroid/src/main/java/com/shvet/poi/poifs/crypt/standard/StandardEncryptionHeader.java:65-72 | the `while (true)` loop computes `TakeCspName` |
| StandardEncryptionHeader.WriteCspName | poiandroid/src/main/java/com/shvet/poi/poifs/crypt/standard/StandardEncryptionHeader.java:114-115 | appends the UTF-16LE encoding of the name (`UnicodeLE`) and its terminator |
| ExtendedColor.RgbOf | poiandroid/src/main/java/com/shvet/poi/hssf/usermodel/HSSFExtendedColor.java:68-76 | null without stored RGBA; the first three bytes; out of bounds for fewer than 3 |
| ExtendedColor.ArgbOf | poiandroid/src/main/java/com/shvet/poi/hssf/usermodel/HSSFExtendedColor.java:94-103 | null without stored RGBA; else [rgba[3], rgba[0], rgba[1], rgba[2]]; out of bounds for fewer than 4 |
| ExtendedColor.ArgbToRgba | poiandroid/src/main/java/com/shvet/poi/hssf/usermodel/HSSFExtendedColor.java:84-89 | the first four bytes rotate left by one, the rest stay |
| ExtendedColor.ArgbRoundTrip | poiandroid/src/main/java/com/shvet/poi/hssf/usermodel/HSSFExtendedColor.java:83-103 | a stored 4-byte ARGB reads back as the same ARGB, and as its last three bytes for RGB |
| ExtendedColor.HSSFExtendedColor.constructor | poiandroid/src/main/java/com/shvet/poi/hssf/usermodel/HSSFExtendedColor.java:35-38 | wraps the given record |
| ExtendedColor.HSSFExtendedColor.GetIndex | poiandroid/src/main/java/com/shvet/poi/hssf/usermodel/HSSFExtendedColor.java:60-62 | the palette index cast to short |
| ExtendedColor.HSSFExtendedColor.SetRGB | poiandroid/src/main/java/com/shvet/poi/hssf/usermodel/HSSFExtendedColor.java:78-92 | as written: 3 bytes store nothing; 4 or more rotate the caller's array in place and store it; fewer than 3 throw part way through, with the partial shuffle |
| ExtendedColor.HSSFExtendedColor.SetRGBStoring | poiandroid/src/main/java/com/shvet/poi/hssf/usermodel/HSSFExtendedColor.java:78-92 | corrected: 3 bytes store RGB with an opaque alpha; other lengths as written |
| ExtendedColor.TypeTestsExclusive | poiandroid/src/main/java/com/shvet/poi/hssf/usermodel/HSSFExtendedColor.java:44-58 | at most one type test holds, and exactly one for the four known types |
| ExtendedColor.SetRGB3AsWrittenIsLost | poiandroid/src/main/java/com/shvet/poi/hssf/usermodel/HSSFExtendedColor.java:79-82 | as written, setting a 3-byte colour on any colour leaves the stored RGBA, and what `getRGB` and `getARGB` return, unchanged |
| ExtendedColor.SetRGB3StoringIsKept | poiandroid/src/main/java/com/shvet/poi/hssf/usermodel/HSSFExtendedColor.java:68-103 | corrected, `getRGB` returns the three bytes set and `getARGB` puts the opaque alpha in front |
| ExtendedColor.SetThenGetArgb | poiandroid/src/main/java/com/shvet/poi/hssf/usermodel/HSSFExtendedColor.java:83-103 | after `setRGB` with 4 ARGB bytes, `getARGB` returns them |
| BorderFormatting.FlagsOf | poiandroid/src/main/java/com/shvet/poi/hssf/usermodel/HSSFBorderFormatting.java:49-71 | the diagonal owns two flags, every other side one |
| BorderFormatting.FlagsDisjoint | poiandroid/src/main/java/com/shvet/poi/hssf/usermodel/HSSFBorderFormatting.java:49-110 | distinct sides own disjoint flags |
| BorderFormatting.Mark | poiandroid/src/main/java/com/shvet/poi/hssf/usermodel/HSSFBorderFormatting.java:49-56 | the side's flags become `on`, every other flag is kept |
| BorderFormatting.Put | poiandroid/src/main/java/com/shvet/poi/hssf/usermodel/HSSFBorderFormatting.java:49-110 | only the side's stored value changes |
| BorderFormatting.HSSFBorderFormatting.GetBorder | poiandroid/src/main/java/com/shvet/poi/hssf/usermodel/HSSFBorderFormatting.java:45-110 | the stored style cast to short |
| BorderFormatting.HSSFBorderFormatting.GetBorderColor | poiandroid/src/main/java/com/shvet/poi/hssf/usermodel/HSSFBorderFormatting.java:112-246 | the stored colour index cast to short |
| BorderFormatting.HSSFBorderFormatting.SetBorder | poiandroid/src/main/java/com/shvet/poi/hssf/usermodel/HSSFBorderFormatting.java:49-110 | stores the style, marks the side's flags iff it is non-zero (both diagonal flags for the diagonal), changes nothing else, and the getter returns it |
| BorderFormatting.HSSFBorderFormatting.SetBorderColor | poiandroid/src/main/java/com/shvet/poi/hssf/usermodel/HSSFBorderFormatting.java:116-237 | the same for the colour index |
| BorderFormatting.HSSFBorderFormatting.SetBorderColorOf | poiandroid/src/main/java/com/shvet/poi/hssf/usermodel/HSSFBorderFormatting.java:125-246 | a colour that does not convert stores index 0 and unmarks the side |
| BorderFormatting.HSSFBorderFormatting.SetBackwardDiagonalOn | poiandroid/src/main/java/com/shvet/poi/hssf/usermodel/HSSFBorderFormatting.java:258-263 | on marks the top-left/bottom-right flag; off leaves the flags untouched |
| BorderFormatting.HSSFBorderFormatting.SetForwardDiagonalOn | poiandroid/src/main/java/com/shvet/poi/hssf/usermodel/HSSFBorderFormatting.java:269-274 | on marks the bottom-left/top-right flag; off leaves the flags untouched |
| BorderFormatting.MarkTouchesOnlyItsSide | poiandroid/src/main/java/com/shvet/poi/hssf/usermodel/HSSFBorderFormatting.java:49-123 | a setter leaves other sides' flags alone, and leaves its side marked iff the value is non-zero |
| BorderFormatting.LastSetterDecides | poiandroid/src/main/java/com/shvet/poi/hssf/usermodel/HSSFBorderFormatting.java:49-123 | after a style and a colour set on one side, the colour alone decides the flag |
| EvaluationWorkbook.Create | poiandroid/src/main/java/com/shvet/poi/hssf/usermodel/HSSFEvaluationWorkbook.java:59-64 | null iff the workbook is null |
| EvaluationWorkbook.ToUpper | poiandroid/src/main/java/com/shvet/poi/hssf/usermodel/HSSFEvaluationWorkbook.java:100 | upper-cases ASCII letters and keeps every other character |
| EvaluationWorkbook.EqualsIgnoreCaseSymmetric | poiandroid/src/main/java/com/shvet/poi/hssf/usermodel/HSSFEvaluationWorkbook.java:100 | the comparison is symmetric |
| EvaluationWorkbook.FirstMatchFrom | poiandroid/src/main/java/com/shvet/poi/hssf/usermodel/HSSFEvaluationWorkbook.java:98-103 | the lowest matching index, or none when no record matches |
| EvaluationWorkbook.IsRange | poiandroid/src/main/java/com/shvet/poi/hssf/usermodel/HSSFEvaluationWorkbook.java:268-270 | `isRange` equals `hasFormula` |
| EvaluationWorkbook.CreatePtg | poiandroid/src/main/java/com/shvet/poi/hssf/usermodel/HSSFEvaluationWorkbook.java:272-274 | the token carries the name's index |
| EvaluationWorkbook.GetName | poiandroid/src/main/java/com/shvet/poi/hssf/usermodel/HSSFEvaluationWorkbook.java:97-105 | the scan with early return and global fallback computes `LookupName` |
| EvaluationWorkbook.LookupNameFindsFirst | poiandroid/src/main/java/com/shvet/poi/hssf/usermodel/HSSFEvaluationWorkbook.java:97-105 | the lowest-index match in the sheet's scope, carrying that index; otherwise the global lookup for a sheet, or null when the scope was already global |
| EvaluationWorkbook.GlobalNameFoundFromAnySheet | poiandroid/src/main/java/com/shvet/poi/hssf/usermodel/HSSFEvaluationWorkbook.java:104 | a name only a global record has is found from any sheet, as that global record |
| EvaluationWorkbook.GetExternalSheet | poiandroid/src/main/java/com/shvet/poi/hssf/usermodel/HSSFEvaluationWorkbook.java:129-156 | the internal answer when there is one; otherwise null for -1 and -2, one sheet when last equals first, a range when not |
| EvaluationWorkbook.LastSheetName | poiandroid/src/main/java/com/shvet/poi/hssf/usermodel/HSSFEvaluationWorkbook.java:222-226 | without a range identifier the last sheet is the first |
| EvaluationWorkbook.GetSheetExtIx | poiandroid/src/main/java/com/shvet/poi/hssf/usermodel/HSSFEvaluationWorkbook.java:215-237 | -1 for null; a local sheet through `checkExternSheet` of the first and last indexes; an external one through the workbook's name |
| EvaluationWorkbook.SingleSheetIsOneSheetRange | poiandroid/src/main/java/com/shvet/poi/hssf/usermodel/HSSFEvaluationWorkbook.java:215-237 | a single-sheet identifier gives the same index as the range from the sheet to itself |
| StdfPost2000.Equals | poiandroid/src/main/java/com/shvet/poi/hwpf/model/StdfPost2000.java:36-49 | true for the same object; false for null and other classes; for two styles, true iff the three fields are equal |
| StdfPost2000.EqualsIsSymmetric | poiandroid/src/main/java/com/shvet/poi/hwpf/model/StdfPost2000.java:36-49 | `equals` is reflexive and symmetric |
| StdfPost2000.MulAdd | poiandroid/src/main/java/com/shvet/poi/hwpf/model/StdfPost2000.java:55-57 | `31 * result + x` in Java int: congruent mod 2^32 and in range |
| StdfPost2000.RsidTermIsZero | poiandroid/src/main/java/com/shvet/poi/hwpf/model/StdfPost2000.java:56 | `rsid ^ (rsid >>> 32)` on an int is 0 |
| StdfPost2000.HashCodeAsWritten | poiandroid/src/main/java/com/shvet/poi/hwpf/model/StdfPost2000.java:51-59 | the hash as written is a Java int |
| StdfPost2000.HashCodeAsWrittenIgnoresRsid | poiandroid/src/main/java/com/shvet/poi/hwpf/model/StdfPost2000.java:51-59 | the hash as written does not depend on rsid |
| StdfPost2000.HashCode | poiandroid/src/main/java/com/shvet/poi/hwpf/model/StdfPost2000.java:51-59 | the corrected hash is a Java int |
| StdfPost2000.EqualStylesHashAlike | poiandroid/src/main/java/com/shvet/poi/hwpf/model/StdfPost2000.java:36-59 | equal styles have equal hashes, for either hash |
| StdfPost2000.CongruentDifference | poiandroid/src/main/java/com/shvet/poi/hwpf/model/StdfPost2000.java:55-57 | differences of congruent values are congruent mod 2^32 |
| StdfPost2000.HashCodeSeesRsid | poiandroid/src/main/java/com/shvet/poi/hwpf/model/StdfPost2000.java:56 | the corrected hash differs for neighbouring rsids |
| StdfPost2000.Serialize | poiandroid/src/main/java/com/shvet/poi/hwpf/model/StdfPost2000.java:61-65 | the array has `getSize()` = 8 bytes |
| StdfPost2000.Parse | poiandroid/src/main/java/com/shvet/poi/hwpf/model/StdfPost2000.java:31-33 | reading the fields succeeds iff 8 bytes are there |
| StdfPost2000.ParseSerialize | poiandroid/src/main/java/com/shvet/poi/hwpf/model/StdfPost2000.java:31-65 | serializing and reading back gives the same style |
| Columns.Evaluate | poiandroid/src/main/java/com/shvet/poi/ss/formula/functions/Columns.java:33-44 | an area yields its width; a reference yields 1; anything else, and only that, yields #VALUE! |
| Columns.SourceCellIrrelevant | poiandroid/src/main/java/com/shvet/poi/ss/formula/functions/Columns.java:33-44 | the evaluating cell's row and column never affect the result |

## Left out

- Logging and text: `toString`, `toXml`, `HexDump` and the logger warning for odd template lengths. The read still consumes the remainder there.
- Formula token contents: formulas are byte blobs of a known length. `Formula.create`/`copy` copy them as they are.
- The DataBar, IconMultiState and ColorGradient internals: each is a byte blob with a size given by its reader.
  - The `create(sheet, ExtendedColor)`, `create(sheet, IconSet)` and `createColorScale` factories are not part of this model. They set fields inside those blocks.
  - `createDataBarFormatting` and its siblings take the new empty block as a parameter.
- The common-rule part that `CFRuleBase` reads and writes is not part of this model: the font, border and pattern blocks inside the formatting block, `getOptions` and `copyTo`. The formatting block is one blob.
- FtrHeader: modelled as 12 header bytes. Its record-type and flags words are reset on clone, and the associated range is kept.
- EvaluationWorkbook: `Name.getNameText` and `Name.hasFormula` (HSSFEvaluationWorkbook.java:256-262) are field reads, modelled as `GetNameText`/`HasFormula` without a contract of their own; `IsRange` states their relation.
- `getSid`, `getFutureRecordType`, `getFutureHeader`, `getAssociatedRange`: constants (`SID`) or plain field reads, with nothing to prove.
- Enum lookups (`CipherAlgorithm`/`HashAlgorithm`/`CipherProvider.fromEcmaId`): the enums are not part of this model. Which ids each enum knows is the `EcmaIds` parameter, and an unknown id fails the read with `UnknownAlgorithm` (Java throws `EncryptedDocumentException`). The model stores the id, not the enum constant.
- The provider's default name is the `providerName` parameter.
- StandardEncryptionHeader.UnicodeLE: `StringUtil` is not part of this model. `getToUnicodeLE` is taken to be `String.getBytes` in UTF-16LE, whose encoder writes U+FFFD for an unpaired surrogate (`ReplaceUnpaired`).
- The second StandardEncryptionHeader constructor (lines 79-94) is not modelled. It sets fields from enum values, and the flag bits it computes come from `EncryptionInfo`, which is not part of this model.
- StandardEncryptionHeader.EncryptionHeader.Read: `mark`/`reset` is modelled as a peek of the next 4 bytes without consuming them.
  - The peek fails, like `readInt`, when fewer than 4 bytes remain.
  - Java `char` is a 16-bit code unit held as an int. The read does no UTF-16 decoding.
- EvaluationWorkbook.ToUpper: `equalsIgnoreCase` folds ASCII letters only. Java also folds non-ASCII letters.
- EvaluationWorkbook: the internal and user-model workbook lookups are function fields of `Workbook`:
  - `getExternalSheet`;
  - the first and last sheet indexes;
  - `getSheetName`;
  - `getSheetIndex`;
  - `checkExternSheet`;
  - `getExternalSheetIndex`.
- EvaluationWorkbook: the other delegations of HSSFEvaluationWorkbook are not modelled. Each is a single call into an unseen class:
  - `getExternalSheetIndex`;
  - `get3DReferencePtg`;
  - `getNameXPtg`;
  - `getName(NamePtg)`;
  - `getSheet`;
  - `getFormulaTokens`;
  - `getUDFFinder`;
  - the external-workbook `getExternalSheet`/`getExternalName`;
  - `getNameDefinition`.
- EscherProperties.InitProps: a representative subset of the registrations is used: the first ones, geometry and fill around the RGB colours, and the group-shape ones from 0x039E on, including both registrations of 0x03BF. The other registrations are calls of the same two forms.
- `EscherRGBProperty.getRgbColor`: returns the stored value unchanged, and is modelled as the field itself.
- ExtendedColor: tint (`double`) and the theme getter.
  - `ColorRecord` stores the bytes it is given on `setRGBA`, as a value. The model does not capture that Java shares the array, so later writes to it would show.
- BorderFormatting: the palette getters (`get…BorderColorColor`) and the conversion of a `Color` to a palette index are left out. Only the conversion's result is modelled, as an optional index.
- BorderFormatting: the border block stores what it is given, because its setters are not part of this model (they may mask bits). A rule without a border block is not modelled.
- StdfPost2000: the field widths (16/32/16 bits) and `fillFields`/`serialize(byte[], int)` belong to `StdfPost2000AbstractType`, which is not part of this model. They follow the 8-byte structure size.
- StdfPost2000.Equals: a subclass's `getClass` is not modelled. Objects are either this class or other.
- DataValidity: DV and DVAL records are values. `setDVRecNo` is a field update on the header value, and record contents are opaque.
- DataValidity.DataValidityTable.Read: a stream that does not start with a DVAL is an error result. Java's cast would throw `ClassCastException`.
- The `RecordInputStream` continuation and record-length limits are left out: a record is the sequence of bytes left to read.

## Findings

| source | as written | input that shows it | evidently intended | confidence | as-written member | corrected member |
|---|---|---|---|---|---|---|
| poiandroid/src/main/java/com/shvet/poi/hssf/record/cf/CellRangeUtil.java:107-127 | `range1` is read once per `i` and not refreshed after a merge. A later INSIDE merge overwrites the grown `lst[i]` with the stale `range1`. | [A, B, A] with A = row 0 and B = row 1, both column 0. The result is [A], and B's cell is lost. | After a merge, `range1` becomes the merged range, so merging keeps exactly the input's cells. | not executed | CellRangeUtil.MergeCellRangesAsWritten, CellRangeUtil.StaleRangeLosesCells | CellRangeUtil.MergeCellRanges, CellRangeUtil.MergeKeepsExactlyTheCells |
| poiandroid/src/main/java/com/shvet/poi/hssf/record/CFRule12Record.java:457-460 | `clone` copies `ext_formatting_length` bytes of `ext_formatting_data`. After a read, that array holds only the bytes beyond the formatting block. | A read rule with a 6-byte formatting block declared as 10 bytes: 4 bytes of extension data, 10 copied, ArrayIndexOutOfBounds. | Copy the extension data at its own length. | not executed | CfRule12.CloneFieldsAsWritten, CfRule12.CloneAsWrittenCounterexample | CfRule12.CFRule12Record.Clone, CfRule12.CloneKeepsRule |
| poiandroid/src/main/java/com/shvet/poi/hssf/usermodel/HSSFExtendedColor.java:79-82 | With 3 bytes, the opaque RGBA array is built and then dropped. | `setRGB([r, g, b])` on any colour: `getRGB` still returns the old colour. | Store the built RGBA with `setRGBA`. | not executed | ExtendedColor.HSSFExtendedColor.SetRGB, ExtendedColor.SetRGB3AsWrittenIsLost | ExtendedColor.HSSFExtendedColor.SetRGBStoring, ExtendedColor.SetRGB3StoringIsKept |
| poiandroid/src/main/java/com/shvet/poi/hwpf/model/StdfPost2000.java:56 | `rsid` is an `int`, so `rsid >>> 32` shifts by 0 (Java masks int shift distances to 5 bits). The term is `rsid ^ rsid` = 0. | Two styles that differ only in rsid (0 and 1) hash alike. | Mix the int in directly, `prime * result + rsid`, so that rsid affects the hash. | not executed; rsid's width is declared in StdfPost2000AbstractType, which is not part of this model | StdfPost2000.HashCodeAsWritten, StdfPost2000.HashCodeAsWrittenIgnoresRsid | StdfPost2000.HashCode, StdfPost2000.HashCodeSeesRsid |
