/**
 * The integer layout of the widget's cells: where each cell starts, the total
 * width the widget asks for, and Kotlin's halving of `rectWidth`.
 */
module Geometry {

  /** Kotlin's `a / 2` on `Int`, which rounds toward zero (Dafny's `/` does not for negatives). */
  function HalfTowardZero(a: int): (r: int)
    ensures a >= 0 ==> 0 <= a - 2 * r <= 1
    ensures a < 0 ==> 0 <= 2 * r - a <= 1
  {
    if a >= 0 then a / 2 else -((-a) / 2)
  }

  /** The width set at configuration: `rectWidth * digitNumber + digitExtraSpace * (digitNumber + 1)`. */
  function TotalWidth(rectWidth: int, digitExtraSpace: int, digitNumber: nat): int
  {
    rectWidth * digitNumber + digitExtraSpace * (digitNumber + 1)
  }

  /** The left edge of cell `i`: after the padding, one gap, and `i` cells each followed by a gap. */
  function CellLeft(paddingLeft: int, digitExtraSpace: int, rectWidth: int, i: nat): int
  {
    paddingLeft + digitExtraSpace + i * (rectWidth + digitExtraSpace)
  }

  /** Consecutive cells are separated by exactly `digitExtraSpace`. */
  lemma CellGap(paddingLeft: int, digitExtraSpace: int, rectWidth: int, i: nat)
    ensures CellLeft(paddingLeft, digitExtraSpace, rectWidth, i + 1) -
            (CellLeft(paddingLeft, digitExtraSpace, rectWidth, i) + rectWidth) == digitExtraSpace
  {
  }

  /**
   * The cells fill the configured width exactly: the last cell's right edge
   * plus one gap is the padding plus the total width.
   */
  lemma LastCellFillsWidth(paddingLeft: int, digitExtraSpace: int, rectWidth: int, digitNumber: nat)
    requires digitNumber >= 1
    ensures CellLeft(paddingLeft, digitExtraSpace, rectWidth, digitNumber - 1) + rectWidth + digitExtraSpace ==
            paddingLeft + TotalWidth(rectWidth, digitExtraSpace, digitNumber)
  {
  }
}
