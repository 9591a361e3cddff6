/** The formula evaluator's view of an HSSF workbook: name lookup with a
    fall-back from sheet scope to workbook scope, external sheet references
    and the sheet-reference index of a parsed sheet identifier.

    The workbook behind it is a list of name records plus the index
    lookups of the internal workbook, which are given as functions. */
module EvaluationWorkbook {
  import opened Wrappers

  /** A defined name: the 1-based sheet it is local to (0 for
      workbook-global names) and its text. */
  datatype NameRecord = NameRecord(sheetNumber: int, nameText: string, hasFormula: bool, isFunctionName: bool)

  /** A sheet reached from a formula: one sheet, or a range of sheets.
      `workbookName` is None for sheets of this workbook. */
  datatype ExternalSheet =
    | ExternalSheet(workbookName: Option<string>, sheetName: string)
    | ExternalSheetRange(workbookName: Option<string>, firstSheetName: string, lastSheetName: string)

  /** A parsed sheet reference `[book]First` or `[book]First:Last`; `last`
      is Some for a sheet range identifier. */
  datatype SheetIdentifier = SheetIdentifier(bookName: Option<string>, first: string, last: Option<string>)

  /** The workbook: its name records, and the lookups of the internal and
      user-model workbooks that this class calls through. */
  datatype Workbook = Workbook(
    names: seq<NameRecord>,
    externalSheet: int -> Option<ExternalSheet>,
    firstSheetIndexFromExternSheetIndex: int -> int,
    lastSheetIndexFromExternSheetIndex: int -> int,
    sheetName: int -> string,
    sheetIndex: string -> int,
    checkExternSheet: (int, int) -> int,
    externalSheetIndex: (string, string, string) -> int)

  /** The evaluation workbook over a user-model workbook. */
  datatype HSSFEvaluationWorkbook = HSSFEvaluationWorkbook(book: Workbook)

  /** `create`: no evaluation workbook without a workbook. */
  function Create(book: Option<Workbook>): (r: Option<HSSFEvaluationWorkbook>)
    ensures r.None? <==> book.None?
    ensures r.Some? ==> r.value.book == book.value
  {
    match book
    case None => None
    case Some(b) => Some(HSSFEvaluationWorkbook(b))
  }

  // ---------------------------------------------------------------------
  // Case-insensitive comparison

  /** Upper case of an ASCII letter; every other character is its own. */
  function ToUpper(c: char): (r: char)
    ensures 'a' <= c <= 'z' ==> r as int == c as int - 32
    ensures !('a' <= c <= 'z') ==> r == c
  {
    if 'a' <= c <= 'z' then (c as int - 32) as char else c
  }

  /** `String.equalsIgnoreCase`, with ASCII case folding. */
  predicate EqualsIgnoreCase(a: string, b: string) {
    |a| == |b| && forall i :: 0 <= i < |a| ==> ToUpper(a[i]) == ToUpper(b[i])
  }

  lemma EqualsIgnoreCaseSymmetric(a: string, b: string)
    ensures EqualsIgnoreCase(a, b) <==> EqualsIgnoreCase(b, a)
  {
  }

  // ---------------------------------------------------------------------
  // getName

  /** Name record `nr` is the name `name` in the scope of `sheetIndex`
      (0-based; -1 for workbook-global names). */
  predicate Matches(nr: NameRecord, name: string, sheetIndex: int) {
    nr.sheetNumber == sheetIndex + 1 && EqualsIgnoreCase(name, nr.nameText)
  }

  /** The lowest index at or after `from` whose record matches. */
  function FirstMatchFrom(names: seq<NameRecord>, name: string, sheetIndex: int, from: nat): (r: Option<nat>)
    requires from <= |names|
    ensures r.Some? ==> from <= r.value < |names| && Matches(names[r.value], name, sheetIndex)
    ensures r.Some? ==> forall j :: from <= j < r.value ==> !Matches(names[j], name, sheetIndex)
    ensures r.None? ==> forall j :: from <= j < |names| ==> !Matches(names[j], name, sheetIndex)
    decreases |names| - from
  {
    if from == |names| then None
    else if Matches(names[from], name, sheetIndex) then Some(from)
    else FirstMatchFrom(names, name, sheetIndex, from + 1)
  }

  /** What the evaluator gets for a name: the record and its index. */
  datatype Name = Name(record: NameRecord, index: int)

  /** A formula token referring to the name with the given index. */
  datatype NamePtg = NamePtg(index: int)

  /** `Name.isRange`: the name is taken to be a range exactly when it has a
      formula. */
  function IsRange(n: Name): (r: bool)
    ensures r == HasFormula(n)
  {
    n.record.hasFormula
  }

  function HasFormula(n: Name): bool {
    n.record.hasFormula
  }

  function GetNameText(n: Name): string {
    n.record.nameText
  }

  /** `Name.createPtg`: the token points back at the record's index. */
  function CreatePtg(n: Name): (r: NamePtg)
    ensures r.index == n.index
  {
    NamePtg(n.index)
  }

  /** The name a lookup finds: the first match in the sheet's scope, else
      the first match among the workbook-global names. */
  function LookupName(names: seq<NameRecord>, name: string, sheetIndex: int): Option<Name>
  {
    match FirstMatchFrom(names, name, sheetIndex, 0)
    case Some(i) => Some(Name(names[i], i))
    case None =>
      if sheetIndex == -1 then None
      else match FirstMatchFrom(names, name, -1, 0)
        case Some(i) => Some(Name(names[i], i))
        case None => None
  }

  /** `getName(name, sheetIndex)`: a scan of the name records in index
      order, returning the first match; with none, a second scan for a
      workbook-global name, unless that was already the scope. */
  method GetName(wb: HSSFEvaluationWorkbook, name: string, sheetIndex: int) returns (r: Option<Name>)
    ensures r == LookupName(wb.book.names, name, sheetIndex)
    decreases if sheetIndex == -1 then 0 else 1
  {
    var names := wb.book.names;
    for i := 0 to |names|
      invariant forall j :: 0 <= j < i ==> !Matches(names[j], name, sheetIndex)
    {
      var nr := names[i];
      if nr.sheetNumber == sheetIndex + 1 && EqualsIgnoreCase(name, nr.nameText) {
        return Some(Name(nr, i));
      }
    }
    if sheetIndex == -1 {
      return None;
    }
    r := GetName(wb, name, -1);
  }

  /** What a lookup returns: a record matching in the sheet's scope with
      no earlier one, or, when the sheet's scope has none, the same for the
      workbook-global scope; nothing only when neither scope has the name.
      The name's index is the record's position. */
  lemma {:induction false} LookupNameFindsFirst(names: seq<NameRecord>, name: string, sheetIndex: int)
    ensures var r := LookupName(names, name, sheetIndex);
      && (r.Some? ==> 0 <= r.value.index < |names| && r.value.record == names[r.value.index])
      && ((exists i :: 0 <= i < |names| && Matches(names[i], name, sheetIndex)) ==>
            r.Some? && Matches(r.value.record, name, sheetIndex)
            && forall j :: 0 <= j < r.value.index ==> !Matches(names[j], name, sheetIndex))
      && ((forall i :: 0 <= i < |names| ==> !Matches(names[i], name, sheetIndex)) && sheetIndex != -1 ==>
            r == LookupName(names, name, -1))
      && ((forall i :: 0 <= i < |names| ==> !Matches(names[i], name, sheetIndex)) && sheetIndex == -1 ==>
            r.None?)
  {
    var first := FirstMatchFrom(names, name, sheetIndex, 0);
    if first.None? && sheetIndex != -1 {
      var global := FirstMatchFrom(names, name, -1, 0);
    }
  }

  /** A name that only a workbook-global record has is found from any
      sheet. */
  lemma GlobalNameFoundFromAnySheet(names: seq<NameRecord>, name: string, sheetIndex: int, k: nat)
    requires k < |names| && Matches(names[k], name, -1)
    requires forall i :: 0 <= i < |names| ==> names[i].sheetNumber != sheetIndex + 1
    ensures LookupName(names, name, sheetIndex).Some?
    ensures LookupName(names, name, sheetIndex).value.record.sheetNumber == 0
  {
    LookupNameFindsFirst(names, name, -1);
  }

  // ---------------------------------------------------------------------
  // External sheets and sheet identifiers

  /** `getExternalSheet(externSheetIndex)`: the internal workbook's answer
      when it has one; otherwise the index is read as local sheets, which
      is nothing for -1 (not found) and -2 (workbook scope), one sheet when
      the first and last local sheets agree, and a sheet range when not. */
  function GetExternalSheet(wb: HSSFEvaluationWorkbook, externSheetIndex: int): (r: Option<ExternalSheet>)
    ensures wb.book.externalSheet(externSheetIndex).Some? ==> r == wb.book.externalSheet(externSheetIndex)
    ensures wb.book.externalSheet(externSheetIndex).None? ==>
              var local := wb.book.firstSheetIndexFromExternSheetIndex(externSheetIndex);
              var last := wb.book.lastSheetIndexFromExternSheetIndex(externSheetIndex);
              && (r.None? <==> local == -1 || local == -2)
              && (r.Some? ==> r.value.workbookName.None?)
              && (r.Some? ==> (r.value.ExternalSheet? <==> last == local))
              && (r.Some? && r.value.ExternalSheet? ==> r.value.sheetName == wb.book.sheetName(local))
              && (r.Some? && r.value.ExternalSheetRange? ==>
                    r.value.firstSheetName == wb.book.sheetName(local)
                    && r.value.lastSheetName == wb.book.sheetName(last))
  {
    var external := wb.book.externalSheet(externSheetIndex);
    if external.Some? then external
    else
      var localSheetIndex := wb.book.firstSheetIndexFromExternSheetIndex(externSheetIndex);
      if localSheetIndex == -1 then None
      else if localSheetIndex == -2 then None
      else
        var sheetName := wb.book.sheetName(localSheetIndex);
        var lastLocalSheetIndex := wb.book.lastSheetIndexFromExternSheetIndex(externSheetIndex);
        if lastLocalSheetIndex == localSheetIndex then Some(ExternalSheet(None, sheetName))
        else Some(ExternalSheetRange(None, sheetName, wb.book.sheetName(lastLocalSheetIndex)))
  }

  /** The last sheet an identifier names: its own for a range, else the
      first. */
  function LastSheetName(id: SheetIdentifier): (r: string)
    ensures id.last.None? ==> r == id.first
  {
    id.last.GetOr(id.first)
  }

  /** `getSheetExtIx`: -1 without an identifier; a sheet of this workbook
      goes through the extern-sheet table by its first and last sheet
      indexes, a sheet of another workbook through that workbook's name. */
  function GetSheetExtIx(wb: HSSFEvaluationWorkbook, sheet: Option<SheetIdentifier>): (r: int)
    ensures sheet.None? ==> r == -1
    ensures sheet.Some? && sheet.value.bookName.None? ==>
              r == wb.book.checkExternSheet(wb.book.sheetIndex(sheet.value.first),
                                            wb.book.sheetIndex(LastSheetName(sheet.value)))
    ensures sheet.Some? && sheet.value.bookName.Some? ==>
              r == wb.book.externalSheetIndex(sheet.value.bookName.value, sheet.value.first,
                                              LastSheetName(sheet.value))
  {
    if sheet.None? then -1
    else
      var id := sheet.value;
      var firstSheetName := id.first;
      var lastSheetName := if id.last.Some? then id.last.value else firstSheetName;
      if id.bookName.None? then
        wb.book.checkExternSheet(wb.book.sheetIndex(firstSheetName), wb.book.sheetIndex(lastSheetName))
      else
        wb.book.externalSheetIndex(id.bookName.value, firstSheetName, lastSheetName)
  }

  /** A single-sheet identifier is looked up as the range from that sheet
      to itself. */
  lemma SingleSheetIsOneSheetRange(wb: HSSFEvaluationWorkbook, book: Option<string>, sheetName: string)
    ensures GetSheetExtIx(wb, Some(SheetIdentifier(book, sheetName, None)))
         == GetSheetExtIx(wb, Some(SheetIdentifier(book, sheetName, Some(sheetName))))
  {
  }
}
