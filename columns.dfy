/** The spreadsheet function COLUMNS(reference): the number of columns an
    area reference spans. */
module Columns {

  /** The argument kinds the function tells apart: a two-dimensional area
      (with its width), a single-cell reference, and anything else. */
  datatype ValueEval =
    | TwoDEval(width: int)
    | RefEval
    | OtherEval

  /** The function's result: a number, or the #VALUE! error. */
  datatype Outcome = NumberEval(value: int) | ValueInvalid

  /** `evaluate(srcRowIndex, srcColumnIndex, arg0)`. */
  function Evaluate(srcRowIndex: int, srcColumnIndex: int, arg0: ValueEval): (r: Outcome)
    ensures arg0.TwoDEval? ==> r == NumberEval(arg0.width)
    ensures arg0.RefEval? ==> r == NumberEval(1)
    ensures r == ValueInvalid <==> arg0.OtherEval?
  {
    match arg0
    case TwoDEval(width) => NumberEval(width)
    case RefEval => NumberEval(1)
    case OtherEval => ValueInvalid
  }

  /** The cell being evaluated never affects the result. */
  lemma SourceCellIrrelevant(row1: int, col1: int, row2: int, col2: int, arg0: ValueEval)
    ensures Evaluate(row1, col1, arg0) == Evaluate(row2, col2, arg0)
  {
  }
}
