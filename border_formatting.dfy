/** The user-model view of the border part of a conditional-formatting
    rule. Every setter writes the rule's border block and then updates the
    rule's "modified" flags: a side whose style or colour is set to a
    non-zero value is marked modified, a side set to zero is unmarked. */
module BorderFormatting {
  import opened Wrappers
  import opened LittleEndian

  /** The five borders a rule can format. */
  datatype Side = Bottom | Left | Right | Top | Diagonal

  /** The rule record's border "modified" flags; the diagonal border has
      two, one per direction. */
  datatype Flag = BottomModified | LeftModified | RightModified | TopModified
                | BottomLeftTopRightModified | TopLeftBottomRightModified

  /** The flags a setter for a side updates. */
  function FlagsOf(side: Side): (r: set<Flag>)
    ensures side == Diagonal <==> |r| == 2
    ensures side != Diagonal ==> |r| == 1
  {
    match side
    case Bottom => {BottomModified}
    case Left => {LeftModified}
    case Right => {RightModified}
    case Top => {TopModified}
    case Diagonal => {BottomLeftTopRightModified, TopLeftBottomRightModified}
  }

  /** Distinct sides own disjoint flags, so a setter for one side never
      touches another side's flags. */
  lemma FlagsDisjoint(s: Side, t: Side)
    requires s != t
    ensures FlagsOf(s) !! FlagsOf(t)
  {
    match s
    case Bottom =>
    case Left =>
    case Right =>
    case Top =>
    case Diagonal => assert BottomLeftTopRightModified in FlagsOf(s);
  }

  /** The flags after marking `fs` as modified (`on`) or not. */
  function Mark(flags: set<Flag>, fs: set<Flag>, on: bool): (r: set<Flag>)
    ensures forall f :: f in r <==> (if f in fs then on else f in flags)
  {
    if on then flags + fs else flags - fs
  }

  /** One value per side, as the border block stores its styles and its
      colour indexes. */
  datatype SideValues = SideValues(bottom: int, left: int, right: int, top: int, diagonal: int)

  function Get(v: SideValues, side: Side): int {
    match side
    case Bottom => v.bottom
    case Left => v.left
    case Right => v.right
    case Top => v.top
    case Diagonal => v.diagonal
  }

  /** `v` with the side's value replaced and every other side kept. */
  function Put(v: SideValues, side: Side, x: int): (r: SideValues)
    ensures forall t :: Get(r, t) == if t == side then x else Get(v, t)
  {
    match side
    case Bottom => v.(bottom := x)
    case Left => v.(left := x)
    case Right => v.(right := x)
    case Top => v.(top := x)
    case Diagonal => v.(diagonal := x)
  }

  /** The rule's border block: line styles, colour indexes and the two
      diagonal switches. */
  class BorderBlock {
    var styles: SideValues
    var colors: SideValues
    var backwardDiagonalOn: bool
    var forwardDiagonalOn: bool

    constructor (styles: SideValues, colors: SideValues, backwardDiagonalOn: bool, forwardDiagonalOn: bool)
      ensures this.styles == styles && this.colors == colors
      ensures this.backwardDiagonalOn == backwardDiagonalOn && this.forwardDiagonalOn == forwardDiagonalOn
    {
      this.styles := styles;
      this.colors := colors;
      this.backwardDiagonalOn := backwardDiagonalOn;
      this.forwardDiagonalOn := forwardDiagonalOn;
    }
  }

  /** The rule record, as far as border formatting touches it: the set of
      border flags currently marked modified. */
  class RuleRecord {
    var modified: set<Flag>

    constructor (modified: set<Flag>)
      ensures this.modified == modified
    {
      this.modified := modified;
    }
  }

  /** `HSSFBorderFormatting`: the rule and the border block it holds. */
  class HSSFBorderFormatting {
    const rule: RuleRecord
    const block: BorderBlock

    constructor (rule: RuleRecord, block: BorderBlock)
      ensures this.rule == rule && this.block == block
    {
      this.rule := rule;
      this.block := block;
    }

    /** `getBorderBottom` .. `getBorderDiagonal`: the stored style as a
        `short`. */
    function GetBorder(side: Side): (r: int)
      reads this, block
      ensures IsShort(r) && (IsShort(Get(block.styles, side)) ==> r == Get(block.styles, side))
    {
      ToShort(Get(block.styles, side))
    }

    /** `getBottomBorderColor` .. `getDiagonalBorderColor`. */
    function GetBorderColor(side: Side): (r: int)
      reads this, block
      ensures IsShort(r) && (IsShort(Get(block.colors, side)) ==> r == Get(block.colors, side))
    {
      ToShort(Get(block.colors, side))
    }

    /** `setBorderBottom` .. `setBorderDiagonal`: stores the style and marks
        the side's flags modified exactly when it is non-zero. */
    method SetBorder(side: Side, border: int)
      requires IsShort(border)
      modifies block, rule
      ensures block.styles == Put(old(block.styles), side, border)
      ensures block.colors == old(block.colors)
      ensures block.backwardDiagonalOn == old(block.backwardDiagonalOn)
      ensures block.forwardDiagonalOn == old(block.forwardDiagonalOn)
      ensures rule.modified == Mark(old(rule.modified), FlagsOf(side), border != 0)
      ensures GetBorder(side) == border
    {
      block.styles := Put(block.styles, side, border);
      if border != 0 {
        rule.modified := rule.modified + FlagsOf(side);
      } else {
        rule.modified := rule.modified - FlagsOf(side);
      }
    }

    /** `setBottomBorderColor(short)` .. `setDiagonalBorderColor(short)`:
        the same discipline for the colour index. */
    method SetBorderColor(side: Side, color: int)
      requires IsShort(color)
      modifies block, rule
      ensures block.colors == Put(old(block.colors), side, color)
      ensures block.styles == old(block.styles)
      ensures block.backwardDiagonalOn == old(block.backwardDiagonalOn)
      ensures block.forwardDiagonalOn == old(block.forwardDiagonalOn)
      ensures rule.modified == Mark(old(rule.modified), FlagsOf(side), color != 0)
      ensures GetBorderColor(side) == color
    {
      block.colors := Put(block.colors, side, color);
      if color != 0 {
        rule.modified := rule.modified + FlagsOf(side);
      } else {
        rule.modified := rule.modified - FlagsOf(side);
      }
    }

    /** `setBottomBorderColor(Color)` .. : `hcolor` is the palette colour
        the `Color` converts to, None when it does not convert; that case
        stores index 0 and so unmarks the side. */
    method SetBorderColorOf(side: Side, hcolor: Option<int>)
      requires hcolor.Some? ==> IsShort(hcolor.value)
      modifies block, rule
      ensures block.colors == Put(old(block.colors), side, hcolor.GetOr(0))
      ensures block.styles == old(block.styles)
      ensures block.backwardDiagonalOn == old(block.backwardDiagonalOn)
      ensures block.forwardDiagonalOn == old(block.forwardDiagonalOn)
      ensures hcolor.None? ==> rule.modified == old(rule.modified) - FlagsOf(side)
      ensures rule.modified == Mark(old(rule.modified), FlagsOf(side), hcolor.GetOr(0) != 0)
    {
      if hcolor.None? {
        SetBorderColor(side, 0);
      } else {
        SetBorderColor(side, hcolor.value);
      }
    }

    predicate IsBackwardDiagonalOn()
      reads this, block
    {
      block.backwardDiagonalOn
    }

    predicate IsForwardDiagonalOn()
      reads this, block
    {
      block.forwardDiagonalOn
    }

    /** `setBackwardDiagonalOn`: switching the top-left to bottom-right
        diagonal on marks its flag; switching it off leaves the flags as
        they are. */
    method SetBackwardDiagonalOn(on: bool)
      modifies block, rule
      ensures block.backwardDiagonalOn == on
      ensures block.styles == old(block.styles) && block.colors == old(block.colors)
      ensures block.forwardDiagonalOn == old(block.forwardDiagonalOn)
      ensures on ==> rule.modified == old(rule.modified) + {TopLeftBottomRightModified}
      ensures !on ==> rule.modified == old(rule.modified)
    {
      block.backwardDiagonalOn := on;
      if on {
        rule.modified := rule.modified + {TopLeftBottomRightModified};
      }
    }

    /** `setForwardDiagonalOn`: the same for the bottom-left to top-right
        diagonal. */
    method SetForwardDiagonalOn(on: bool)
      modifies block, rule
      ensures block.forwardDiagonalOn == on
      ensures block.styles == old(block.styles) && block.colors == old(block.colors)
      ensures block.backwardDiagonalOn == old(block.backwardDiagonalOn)
      ensures on ==> rule.modified == old(rule.modified) + {BottomLeftTopRightModified}
      ensures !on ==> rule.modified == old(rule.modified)
    {
      block.forwardDiagonalOn := on;
      if on {
        rule.modified := rule.modified + {BottomLeftTopRightModified};
      }
    }
  }

  /** Marking a side's flags leaves every other side's flags as they were,
      and the side itself ends up marked exactly when `on`. */
  lemma MarkTouchesOnlyItsSide(flags: set<Flag>, side: Side, other: Side, on: bool)
    requires side != other
    ensures Mark(flags, FlagsOf(side), on) * FlagsOf(other) == flags * FlagsOf(other)
    ensures on <==> FlagsOf(side) <= Mark(flags, FlagsOf(side), on)
  {
    FlagsDisjoint(side, other);
    assert |FlagsOf(side)| > 0;
  }

  /** Setting a style and then a colour on the same side leaves the side
      marked exactly when the colour, the last value set, is non-zero. */
  lemma LastSetterDecides(flags: set<Flag>, side: Side, style: int, color: int)
    ensures Mark(Mark(flags, FlagsOf(side), style != 0), FlagsOf(side), color != 0)
            == Mark(flags, FlagsOf(side), color != 0)
  {
  }
}
