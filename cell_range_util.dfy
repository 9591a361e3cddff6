/** The cell-range algebra used by conditional formatting: how two rectangular
    ranges relate, whether they share an exact border, the range enclosing
    both, and the fixed-point merge of a list of ranges.

    A bound of -1 means "unbounded": the comparisons treat it as larger than
    every other value. */
module CellRangeUtil {
  import opened Wrappers

  /** A `CellRangeAddress`: first and last row, first and last column. */
  datatype CellRange = CellRange(firstRow: int, lastRow: int, firstCol: int, lastCol: int)

  /** The four results of `intersect`, with the source's numeric codes. */
  datatype Relation = NoIntersection | Overlap | Inside | Encloses {
    function Code(): int {
      match this
      case NoIntersection => 1
      case Overlap => 2
      case Inside => 3
      case Encloses => 4
    }
  }

  // ------------------------------------------------- -1-aware comparisons

  /** `lt(a, b)`: a < b, where -1 stands for +infinity. */
  predicate Lt(a: int, b: int) {
    if a == -1 then false else if b == -1 then true else a < b
  }

  predicate Le(a: int, b: int) { a == b || Lt(a, b) }

  predicate Gt(a: int, b: int) { Lt(b, a) }

  predicate Ge(a: int, b: int) { !Lt(a, b) }

  /** -1 is above every other bound. */
  lemma MinusOneIsTop(a: int)
    ensures !Lt(-1, a)
    ensures a != -1 ==> Lt(a, -1)
    ensures Le(a, -1)
  {
  }

  /** `lt` is a strict total order, so `le` is its reflexive closure and
      `gt`/`ge` are the converse relations. */
  lemma LtIsStrictTotalOrder(a: int, b: int, c: int)
    ensures !Lt(a, a)
    ensures Lt(a, b) && Lt(b, c) ==> Lt(a, c)
    ensures Lt(a, b) || a == b || Lt(b, a)
    ensures !(Lt(a, b) && Lt(b, a))
    ensures Ge(a, b) <==> Le(b, a)
    ensures Gt(a, b) <==> !Le(a, b)
  {
  }

  // ------------------------------------------------------ cells of a range

  /** The cell (row, col) lies in the range. */
  predicate InRange(cr: CellRange, row: int, col: int) {
    && 0 <= row && 0 <= col
    && Le(cr.firstRow, row) && Le(row, cr.lastRow)
    && Le(cr.firstCol, col) && Le(col, cr.lastCol)
  }

  /** A range as a spreadsheet produces it: real first row and column, and a
      last bound that is -1 or not before the first. */
  predicate WellFormed(cr: CellRange) {
    && 0 <= cr.firstRow && 0 <= cr.firstCol
    && Le(cr.firstRow, cr.lastRow) && Le(cr.firstCol, cr.lastCol)
  }

  // ------------------------------------------------------------- relations

  /** `contains(crA, crB)`. */
  predicate Contains(a: CellRange, b: CellRange) {
    && Le(a.firstRow, b.firstRow) && Ge(a.lastRow, b.lastRow)
    && Le(a.firstCol, b.firstCol) && Ge(a.lastCol, b.lastCol)
  }

  /** `intersect(crA, crB)`: disjointness is tested first, then `contains`
      in each direction. */
  function Intersect(a: CellRange, b: CellRange): (r: Relation)
    ensures r == Inside <==> r != NoIntersection && Contains(a, b)
    ensures r == Encloses <==> r != NoIntersection && Contains(b, a) && !Contains(a, b)
  {
    if Gt(a.firstRow, b.lastRow) || Lt(a.lastRow, b.firstRow)
       || Gt(a.firstCol, b.lastCol) || Lt(a.lastCol, b.firstCol)
    then NoIntersection
    else if Contains(a, b) then Inside
    else if Contains(b, a) then Encloses
    else Overlap
  }

  /** `contains` means "every cell of b is a cell of a" (for a well-formed b,
      in both directions). */
  lemma ContainsMeansCells(a: CellRange, b: CellRange)
    requires WellFormed(b)
    ensures Contains(a, b) <==> forall row, col :: InRange(b, row, col) ==> InRange(a, row, col)
  {
    if forall row, col :: InRange(b, row, col) ==> InRange(a, row, col) {
      assert InRange(b, b.firstRow, b.firstCol);
      if b.lastRow != -1 {
        assert InRange(b, b.lastRow, b.firstCol);
      } else if a.lastRow != -1 {
        var row := if a.lastRow >= b.firstRow then a.lastRow + 1 else b.firstRow;
        assert InRange(b, row, b.firstCol);
      }
      if b.lastCol != -1 {
        assert InRange(b, b.firstRow, b.lastCol);
      } else if a.lastCol != -1 {
        var col := if a.lastCol >= b.firstCol then a.lastCol + 1 else b.firstCol;
        assert InRange(b, b.firstRow, col);
      }
    }
  }

  /** NO_INTERSECTION is returned exactly when the two ranges share no cell. */
  lemma NoIntersectionMeansDisjoint(a: CellRange, b: CellRange)
    requires WellFormed(a) && WellFormed(b)
    ensures Intersect(a, b) == NoIntersection <==>
            !exists row, col :: InRange(a, row, col) && InRange(b, row, col)
  {
    if Intersect(a, b) != NoIntersection {
      var row := if a.firstRow < b.firstRow then b.firstRow else a.firstRow;
      var col := if a.firstCol < b.firstCol then b.firstCol else a.firstCol;
      assert InRange(a, row, col) && InRange(b, row, col);
    }
  }

  /** Identical well-formed ranges are INSIDE each other (containment is
      tested before enclosure), never ENCLOSES. */
  lemma IntersectSelfIsInside(a: CellRange)
    requires WellFormed(a)
    ensures Intersect(a, a) == Inside
  {
  }

  /** Swapping the arguments swaps INSIDE and ENCLOSES (unless both contain
      each other) and keeps the other two answers. */
  lemma IntersectSwapped(a: CellRange, b: CellRange)
    ensures Intersect(a, b) == NoIntersection <==> Intersect(b, a) == NoIntersection
    ensures Intersect(a, b) == Overlap <==> Intersect(b, a) == Overlap
    ensures Intersect(a, b) == Encloses ==> Intersect(b, a) == Inside
    ensures Intersect(a, b) == Inside && !Contains(b, a) ==> Intersect(b, a) == Encloses
  {
  }

  // ------------------------------------------------------ shared borders

  /** `hasExactSharedBorder(crA, crB)`: the ranges are vertically adjacent
      with identical columns, or horizontally adjacent with identical rows.
      Adjacency uses plain integer comparisons. */
  predicate HasExactSharedBorder(a: CellRange, b: CellRange) {
    if (a.firstRow > 0 && a.firstRow - 1 == b.lastRow) || (b.firstRow > 0 && b.firstRow - 1 == a.lastRow) then
      a.firstCol == b.firstCol && a.lastCol == b.lastCol
    else if (a.firstCol > 0 && a.firstCol - 1 == b.lastCol) || (b.firstCol > 0 && a.lastCol == b.firstCol - 1) then
      a.firstRow == b.firstRow && a.lastRow == b.lastRow
    else
      false
  }

  /** `createEnclosingCellRange(crA, crB)`; a null crB yields a copy of crA. */
  function CreateEnclosingCellRange(a: CellRange, b: Option<CellRange>): (r: CellRange)
    ensures Contains(r, a)
    ensures b.Some? ==> Contains(r, b.value)
    ensures b.None? ==> r == a
  {
    match b
    case None => a
    case Some(b) =>
      CellRange(
        if Lt(b.firstRow, a.firstRow) then b.firstRow else a.firstRow,
        if Gt(b.lastRow, a.lastRow) then b.lastRow else a.lastRow,
        if Lt(b.firstCol, a.firstCol) then b.firstCol else a.firstCol,
        if Gt(b.lastCol, a.lastCol) then b.lastCol else a.lastCol)
  }

  /** The enclosing range is the smallest range containing both. */
  lemma EnclosingIsLeast(a: CellRange, b: CellRange, c: CellRange)
    requires Contains(c, a) && Contains(c, b)
    ensures Contains(c, CreateEnclosingCellRange(a, Some(b)))
  {
  }

  /** Two well-formed ranges with an exact shared border together fill their
      enclosing range: no cell is gained by replacing them with it. */
  lemma SharedBorderUnionIsExact(a: CellRange, b: CellRange, row: int, col: int)
    requires WellFormed(a) && WellFormed(b) && HasExactSharedBorder(a, b)
    ensures InRange(CreateEnclosingCellRange(a, Some(b)), row, col) <==>
            InRange(a, row, col) || InRange(b, row, col)
  {
  }

  lemma EnclosingWellFormed(a: CellRange, b: CellRange)
    requires WellFormed(a) && WellFormed(b)
    ensures WellFormed(CreateEnclosingCellRange(a, Some(b)))
  {
  }

  // ------------------------------------------------------------ merging

  /** `mergeRanges(range1, range2)`: the range that replaces both, or None
      ("null") when they are not merged. The OVERLAP case is disabled in the
      source (it looped forever) and never merges; the source's array result
      never holds more than one range, so it is a single range here. */
  function MergeRanges(range1: CellRange, range2: CellRange): (r: Option<CellRange>)
    ensures Intersect(range1, range2) == Overlap ==> r.None?
    ensures Intersect(range1, range2) == Inside ==> r == Some(range1)
    ensures Intersect(range1, range2) == Encloses ==> r == Some(range2)
    ensures r.Some? ==> Contains(r.value, range1) && Contains(r.value, range2)
  {
    match Intersect(range1, range2)
    case NoIntersection =>
      if HasExactSharedBorder(range1, range2) then Some(CreateEnclosingCellRange(range1, Some(range2)))
      else None
    case Overlap => None
    case Inside => Some(range1)
    case Encloses => Some(range2)
  }

  /** A merge of well-formed ranges is well formed and holds no cell that
      neither of them held. */
  lemma MergeRangesCells(range1: CellRange, range2: CellRange, row: int, col: int)
    requires WellFormed(range1) && WellFormed(range2) && MergeRanges(range1, range2).Some?
    ensures WellFormed(MergeRanges(range1, range2).value)
    ensures InRange(MergeRanges(range1, range2).value, row, col) ==>
            InRange(range1, row, col) || InRange(range2, row, col)
  {
    if Intersect(range1, range2) == NoIntersection {
      EnclosingWellFormed(range1, range2);
      SharedBorderUnionIsExact(range1, range2, row, col);
    }
  }

  /** `set(i, merged)` followed by `remove(j)`. */
  function Splice(lst: seq<CellRange>, i: nat, j: nat, merged: CellRange): (r: seq<CellRange>)
    requires i < j < |lst|
    ensures |r| == |lst| - 1
  {
    lst[i := merged][..j] + lst[j + 1..]
  }

  lemma SpliceElements(lst: seq<CellRange>, i: nat, j: nat, merged: CellRange)
    requires i < j < |lst|
    ensures forall k :: 0 <= k < j && k != i ==> Splice(lst, i, j, merged)[k] == lst[k]
    ensures forall k :: j < k < |lst| ==> Splice(lst, i, j, merged)[k - 1] == lst[k]
    ensures Splice(lst, i, j, merged)[i] == merged
  {
  }

  /** The specification of the inner `for j` loop of `mergeCellRanges`:
      compare `range1` with every later range, from index j on.

      With `refresh` false this is the loop as written: `range1` is read once
      before the loop and never updated, although `lst[i]` is overwritten by
      each merge. With `refresh` true, `range1` follows `lst[i]`. */
  function InnerPass(refresh: bool, lst: seq<CellRange>, i: nat, range1: CellRange, j: nat, merged: bool)
    : (r: (seq<CellRange>, bool))
    requires i < j <= |lst|
    decreases |lst| - j
    ensures i < |r.0| <= |lst|
    ensures r.1 == (merged || |r.0| < |lst|)
    ensures |r.0| == |lst| ==> r.0 == lst
  {
    if j == |lst| then (lst, merged)
    else
      match MergeRanges(range1, lst[j])
      case None => InnerPass(refresh, lst, i, range1, j + 1, merged)
      case Some(m) => InnerPass(refresh, Splice(lst, i, j, m), i, if refresh then m else range1, j, true)
  }

  /** The specification of the outer `for i` loop: one full pass. */
  function OuterPass(refresh: bool, lst: seq<CellRange>, i: nat, merged: bool): (r: (seq<CellRange>, bool))
    decreases |lst| - i
    ensures |r.0| <= |lst|
    ensures r.1 == (merged || |r.0| < |lst|)
    ensures |r.0| == |lst| ==> r.0 == lst
  {
    if i >= |lst| then (lst, merged)
    else
      var p := InnerPass(refresh, lst, i, lst[i], i + 1, merged);
      OuterPass(refresh, p.0, i + 1, p.1)
  }

  /** The specification of the `while` loop: passes until one list element is
      left or a whole pass merged nothing. The result never has more ranges
      than the input, and is a fixed point: one more pass would merge nothing. */
  function MergeAll(refresh: bool, lst: seq<CellRange>): (r: seq<CellRange>)
    decreases |lst|
    ensures |r| <= |lst|
    ensures |lst| <= 1 ==> r == lst
    ensures |r| > 1 ==> OuterPass(refresh, r, 0, false) == (r, false)
  {
    if |lst| <= 1 then lst
    else
      var p := OuterPass(refresh, lst, 0, false);
      if !p.1 then p.0 else MergeAll(refresh, p.0)
  }

  /** The inner `for j` loop of `mergeCellRanges`: merge `range1` with each
      later range that it can absorb or that absorbs it. With `refresh` false
      (the source as written) `range1` keeps its value from before the loop. */
  method MergeWithLater(refresh: bool, lst0: seq<CellRange>, i: nat, merged0: bool)
    returns (lst: seq<CellRange>, somethingGotMerged: bool)
    requires i < |lst0|
    ensures (lst, somethingGotMerged) == InnerPass(refresh, lst0, i, lst0[i], i + 1, merged0)
  {
    lst, somethingGotMerged := lst0, merged0;
    var range1 := lst[i];
    var j := i + 1;
    while j < |lst|
      invariant i < j <= |lst|
      invariant InnerPass(refresh, lst, i, range1, j, somethingGotMerged)
             == InnerPass(refresh, lst0, i, lst0[i], i + 1, merged0)
      decreases |lst| - j
    {
      var range2 := lst[j];
      var mergeResult := MergeRanges(range1, range2);
      if mergeResult.None? {
        j := j + 1;
        continue;
      }
      somethingGotMerged := true;
      if refresh {
        range1 := mergeResult.value;
      }
      lst := lst[i := mergeResult.value];
      // remove(j--) and the loop's j++ leave j on the next unseen range
      lst := lst[..j] + lst[j + 1..];
    }
  }

  /** One pass of the outer `for i` loop over the whole list. */
  method MergePass(refresh: bool, lst0: seq<CellRange>) returns (lst: seq<CellRange>, somethingGotMerged: bool)
    ensures (lst, somethingGotMerged) == OuterPass(refresh, lst0, 0, false)
  {
    lst, somethingGotMerged := lst0, false;
    var i := 0;
    while i < |lst|
      invariant OuterPass(refresh, lst, i, somethingGotMerged) == OuterPass(refresh, lst0, 0, false)
      decreases |lst| - i
    {
      lst, somethingGotMerged := MergeWithLater(refresh, lst, i, somethingGotMerged);
      i := i + 1;
    }
  }

  /** `mergeCellRanges`, exactly as written: `range1` is not refreshed after
      a merge. See `StaleRangeLosesCells` for what that does. */
  method MergeCellRangesAsWritten(cellRanges: seq<CellRange>) returns (r: seq<CellRange>)
    ensures r == MergeAll(false, cellRanges)
    ensures |r| <= |cellRanges|
    ensures cellRanges == [] ==> r == []
  {
    if |cellRanges| < 1 {
      return cellRanges;
    }
    r := cellRanges;
    while |r| > 1
      invariant MergeAll(false, r) == MergeAll(false, cellRanges)
      decreases |r|
    {
      var somethingGotMerged;
      r, somethingGotMerged := MergePass(false, r);
      if !somethingGotMerged {
        break;
      }
    }
  }

  /** `mergeCellRanges` with `range1` refreshed after each merge (the
      intended behaviour): the result covers every input range. */
  method MergeCellRanges(cellRanges: seq<CellRange>) returns (r: seq<CellRange>)
    ensures r == MergeAll(true, cellRanges)
    ensures |r| <= |cellRanges|
    ensures cellRanges == [] ==> r == []
    ensures Covers(r, cellRanges)
  {
    MergeAllCovers(cellRanges);
    if |cellRanges| < 1 {
      return cellRanges;
    }
    r := cellRanges;
    while |r| > 1
      invariant MergeAll(true, r) == MergeAll(true, cellRanges)
      decreases |r|
    {
      var somethingGotMerged;
      r, somethingGotMerged := MergePass(true, r);
      if !somethingGotMerged {
        break;
      }
    }
  }

  // ------------------------------------------------- what merging preserves

  /** Every range of `small` lies inside some range of `big`. */
  ghost predicate Covers(big: seq<CellRange>, small: seq<CellRange>) {
    forall x :: x in small ==> exists y :: y in big && Contains(y, x)
  }

  /** Every cell of every range of `lst` is a cell of some range of `orig`. */
  ghost predicate CellsWithin(lst: seq<CellRange>, orig: seq<CellRange>) {
    forall y, row, col :: y in lst && InRange(y, row, col) ==>
      exists x :: x in orig && InRange(x, row, col)
  }

  ghost predicate AllWellFormed(lst: seq<CellRange>) {
    forall y :: y in lst ==> WellFormed(y)
  }

  lemma ContainsTransitive(a: CellRange, b: CellRange, c: CellRange)
    requires Contains(a, b) && Contains(b, c)
    ensures Contains(a, c)
  {
  }

  lemma {:induction false} CoversTransitive(a: seq<CellRange>, b: seq<CellRange>, c: seq<CellRange>)
    requires Covers(a, b) && Covers(b, c)
    ensures Covers(a, c)
  {
    forall x | x in c
      ensures exists y :: y in a && Contains(y, x)
    {
      var z :| z in b && Contains(z, x);
      var y :| y in a && Contains(y, z);
      ContainsTransitive(y, z, x);
    }
  }

  lemma {:induction false} SpliceCovers(lst: seq<CellRange>, i: nat, j: nat, m: CellRange)
    requires i < j < |lst|
    requires Contains(m, lst[i]) && Contains(m, lst[j])
    ensures Covers(Splice(lst, i, j, m), lst)
  {
    var s := Splice(lst, i, j, m);
    SpliceElements(lst, i, j, m);
    forall x | x in lst
      ensures exists y :: y in s && Contains(y, x)
    {
      var k :| 0 <= k < |lst| && lst[k] == x;
      if k == i || k == j {
        assert s[i] == m && s[i] in s;
      } else if k < j {
        assert s[k] == x && s[k] in s;
      } else {
        assert s[k - 1] == x && s[k - 1] in s;
      }
    }
  }

  lemma CoversSelf(lst: seq<CellRange>)
    ensures Covers(lst, lst)
  {
    forall x | x in lst
      ensures exists y :: y in lst && Contains(y, x)
    {
      assert Contains(x, x);
    }
  }

  lemma {:induction false} InnerPassCovers(lst: seq<CellRange>, i: nat, j: nat, merged: bool)
    requires i < j <= |lst|
    ensures Covers(InnerPass(true, lst, i, lst[i], j, merged).0, lst)
    decreases |lst| - j
  {
    if j == |lst| {
      CoversSelf(lst);
    } else {
      match MergeRanges(lst[i], lst[j])
      case None =>
        InnerPassCovers(lst, i, j + 1, merged);
      case Some(m) =>
        var s := Splice(lst, i, j, m);
        SpliceCovers(lst, i, j, m);
        SpliceElements(lst, i, j, m);
        InnerPassCovers(s, i, j, true);
        CoversTransitive(InnerPass(true, s, i, s[i], j, true).0, s, lst);
    }
  }

  lemma {:induction false} OuterPassCovers(lst: seq<CellRange>, i: nat, merged: bool)
    ensures Covers(OuterPass(true, lst, i, merged).0, lst)
    decreases |lst| - i
  {
    if i >= |lst| {
      CoversSelf(lst);
    } else {
      var p := InnerPass(true, lst, i, lst[i], i + 1, merged);
      InnerPassCovers(lst, i, i + 1, merged);
      OuterPassCovers(p.0, i + 1, p.1);
      CoversTransitive(OuterPass(true, p.0, i + 1, p.1).0, p.0, lst);
    }
  }

  /** With `range1` refreshed, merging loses no range: every input range lies
      inside some output range. */
  lemma {:induction false} MergeAllCovers(lst: seq<CellRange>)
    ensures Covers(MergeAll(true, lst), lst)
    decreases |lst|
  {
    if |lst| <= 1 {
      CoversSelf(lst);
    } else {
      var p := OuterPass(true, lst, 0, false);
      OuterPassCovers(lst, 0, false);
      if p.1 {
        MergeAllCovers(p.0);
        CoversTransitive(MergeAll(true, p.0), p.0, lst);
      }
    }
  }


  lemma SpliceMembers(lst: seq<CellRange>, i: nat, j: nat, m: CellRange)
    requires i < j < |lst|
    ensures forall y :: y in Splice(lst, i, j, m) ==> y == m || y in lst
  {
    var s := Splice(lst, i, j, m);
    forall y | y in s
      ensures y == m || y in lst
    {
      var k :| 0 <= k < |s| && s[k] == y;
      if k < j {
        assert s[k] == lst[i := m][k];
      } else {
        assert s[k] == lst[k + 1];
      }
    }
  }

  lemma CellsWithinTransitive(a: seq<CellRange>, b: seq<CellRange>, c: seq<CellRange>)
    requires CellsWithin(a, b) && CellsWithin(b, c)
    ensures CellsWithin(a, c)
  {
    forall y, row, col | y in a && InRange(y, row, col)
      ensures exists x :: x in c && InRange(x, row, col)
    {
      var z :| z in b && InRange(z, row, col);
    }
  }

  lemma CellsWithinSelf(lst: seq<CellRange>)
    ensures CellsWithin(lst, lst)
  {
  }

  lemma {:induction false} InnerPassCellsWithin(refresh: bool, lst: seq<CellRange>, i: nat, range1: CellRange,
                                                j: nat, merged: bool)
    requires i < j <= |lst|
    requires AllWellFormed(lst) && WellFormed(range1)
    requires forall row, col :: InRange(range1, row, col) ==> exists x :: x in lst && InRange(x, row, col)
    ensures AllWellFormed(InnerPass(refresh, lst, i, range1, j, merged).0)
    ensures CellsWithin(InnerPass(refresh, lst, i, range1, j, merged).0, lst)
    decreases |lst| - j
  {
    if j == |lst| {
      CellsWithinSelf(lst);
    } else {
      match MergeRanges(range1, lst[j])
      case None =>
        InnerPassCellsWithin(refresh, lst, i, range1, j + 1, merged);
      case Some(m) =>
        var s := Splice(lst, i, j, m);
        forall row, col
          ensures InRange(m, row, col) ==> InRange(range1, row, col) || InRange(lst[j], row, col)
        {
          MergeRangesCells(range1, lst[j], row, col);
        }
        MergeRangesCells(range1, lst[j], 0, 0);
        SpliceMembers(lst, i, j, m);
        assert CellsWithin(s, lst) by {
          forall y, row, col | y in s && InRange(y, row, col)
            ensures exists x :: x in lst && InRange(x, row, col)
          {
            if y == m && InRange(range1, row, col) {
            } else if y == m {
              assert lst[j] in lst;
            }
          }
        }
        var r1 := if refresh then m else range1;
        assert s[i] == m by { SpliceElements(lst, i, j, m); }
        assert forall row, col :: InRange(r1, row, col) ==> exists x :: x in s && InRange(x, row, col) by {
          forall row, col | InRange(r1, row, col)
            ensures exists x :: x in s && InRange(x, row, col)
          {
            if refresh {
              assert s[i] in s;
            } else {
              var x :| x in lst && InRange(x, row, col);
              assert exists x :: x in s && InRange(x, row, col) by {
                assert m in s;
                MergeRangesCells(range1, lst[j], row, col);
                assert InRange(range1, row, col);
                assert Contains(m, range1);
                ContainsMeansCells(m, range1);
              }
            }
          }
        }
        InnerPassCellsWithin(refresh, s, i, r1, j, true);
        CellsWithinTransitive(InnerPass(refresh, s, i, r1, j, true).0, s, lst);
    }
  }

  lemma {:induction false} OuterPassCellsWithin(refresh: bool, lst: seq<CellRange>, i: nat, merged: bool)
    requires AllWellFormed(lst)
    ensures AllWellFormed(OuterPass(refresh, lst, i, merged).0)
    ensures CellsWithin(OuterPass(refresh, lst, i, merged).0, lst)
    decreases |lst| - i
  {
    if i >= |lst| {
      CellsWithinSelf(lst);
    } else {
      var p := InnerPass(refresh, lst, i, lst[i], i + 1, merged);
      assert lst[i] in lst;
      InnerPassCellsWithin(refresh, lst, i, lst[i], i + 1, merged);
      OuterPassCellsWithin(refresh, p.0, i + 1, p.1);
      CellsWithinTransitive(OuterPass(refresh, p.0, i + 1, p.1).0, p.0, lst);
    }
  }

  /** Merging well-formed ranges, as written or corrected, never adds a cell:
      every cell of an output range is a cell of some input range. */
  lemma {:induction false} MergeAllCellsWithin(refresh: bool, lst: seq<CellRange>)
    requires AllWellFormed(lst)
    ensures AllWellFormed(MergeAll(refresh, lst))
    ensures CellsWithin(MergeAll(refresh, lst), lst)
    decreases |lst|
  {
    if |lst| <= 1 {
      CellsWithinSelf(lst);
    } else {
      var p := OuterPass(refresh, lst, 0, false);
      OuterPassCellsWithin(refresh, lst, 0, false);
      if p.1 {
        MergeAllCellsWithin(refresh, p.0);
        CellsWithinTransitive(MergeAll(refresh, p.0), p.0, lst);
      }
    }
  }

  /** The corrected merge keeps exactly the cells of its well-formed input. */
  lemma MergeKeepsExactlyTheCells(lst: seq<CellRange>, row: int, col: int)
    requires AllWellFormed(lst)
    ensures (exists y :: y in MergeAll(true, lst) && InRange(y, row, col)) <==>
            (exists x :: x in lst && InRange(x, row, col))
  {
    MergeAllCellsWithin(true, lst);
    MergeAllCovers(lst);
    if x :| x in lst && InRange(x, row, col) {
      var y :| y in MergeAll(true, lst) && Contains(y, x);
      ContainsMeansCells(y, x);
    }
  }

  /** The merge as written loses cells: with A = row 0 and B = row 1 (same
      single column), [A, B, A] first grows lst[0] to rows 0..1, then the
      second A is INSIDE the stale `range1` = A, which overwrites lst[0] with
      A again. Row 1 is gone. The corrected merge yields rows 0..1. */
  lemma StaleRangeLosesCells()
    ensures var a := CellRange(0, 0, 0, 0);
            var b := CellRange(1, 1, 0, 0);
            && MergeAll(false, [a, b, a]) == [a]
            && InRange(b, 1, 0) && !InRange(a, 1, 0)
            && !Covers(MergeAll(false, [a, b, a]), [a, b, a])
            && MergeAll(true, [a, b, a]) == [CellRange(0, 1, 0, 0)]
  {
    var a := CellRange(0, 0, 0, 0);
    var b := CellRange(1, 1, 0, 0);
    var ab := CellRange(0, 1, 0, 0);
    assert MergeRanges(a, b) == Some(ab);
    assert MergeRanges(a, a) == Some(a);
    assert MergeRanges(ab, a) == Some(ab);
    assert Splice([a, b, a], 0, 1, ab) == [ab, a];
    assert Splice([ab, a], 0, 1, a) == [a];
    assert Splice([ab, a], 0, 1, ab) == [ab];
    assert InnerPass(false, [a, b, a], 0, a, 1, false) == ([a], true);
    assert OuterPass(false, [a, b, a], 0, false) == ([a], true);
    assert InnerPass(true, [a, b, a], 0, a, 1, false) == ([ab], true);
    assert OuterPass(true, [a, b, a], 0, false) == ([ab], true);
    assert !Contains(a, b);
    assert b in [a, b, a];
    assert forall y :: y in [a] ==> y == a;
  }
}
