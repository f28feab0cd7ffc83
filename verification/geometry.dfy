/**
 The rectangle every drawable thing in the game is built on (`GameObj` in
 js/index.js): a position, a size and a velocity, all whole numbers of canvas
 pixels (per tick, for the velocity). The image handle is not modelled.
 */
module Geometry {

  datatype GameObj = GameObj(x: int, y: int, width: int, height: int, speedX: int, speedY: int)
  {
    function Left(): int { x }
    function Right(): int { x + width }
    function Top(): int { y }
    function Bottom(): int { y + height }

    /** A rectangle with a size that is not negative, so that it covers the
        closed pixel box `[Left(), Right()] x [Top(), Bottom()]`. */
    predicate WellSized()
    {
      width >= 0 && height >= 0
    }

    /** The point `(px, py)` lies in the closed box of this rectangle. */
    predicate Covers(px: int, py: int)
    {
      Left() <= px <= Right() && Top() <= py <= Bottom()
    }
  }

  /** `a.crashWith(b)`: the rectangles are not separated along either axis,
      where "separated" uses strict comparisons, so rectangles that only touch
      along an edge or at a corner crash: the closed extents overlap on both
      axes. */
  function CrashWith(a: GameObj, b: GameObj): (crashed: bool)
    ensures crashed <==>
              (b.Left() <= a.Right() && a.Left() <= b.Right() &&
               b.Top() <= a.Bottom() && a.Top() <= b.Bottom())
  {
    !(a.Bottom() < b.Top() || a.Top() > b.Bottom() ||
      a.Right() < b.Left() || a.Left() > b.Right())
  }

  /** The test does not depend on which rectangle asks. */
  lemma CrashWithSymmetric(a: GameObj, b: GameObj)
    ensures CrashWith(a, b) == CrashWith(b, a)
  {
  }

  /** For rectangles with a non-negative size, `crashWith` is exactly "the two
      closed boxes share a pixel". */
  lemma CrashWithIffCommonPoint(a: GameObj, b: GameObj)
    requires a.WellSized() && b.WellSized()
    ensures CrashWith(a, b) <==> exists px, py :: a.Covers(px, py) && b.Covers(px, py)
  {
    if CrashWith(a, b) {
      var px := if a.x >= b.x then a.x else b.x;
      var py := if a.y >= b.y then a.y else b.y;
      assert a.Covers(px, py) && b.Covers(px, py);
    }
  }

  /** Two rectangles that only touch along an edge still crash: b abutting
      a's right edge with overlapping vertical extents, or b abutting a's
      bottom edge with overlapping horizontal extents. */
  lemma TouchingEdgesCrash(a: GameObj, b: GameObj)
    requires a.WellSized() && b.WellSized()
    requires || (b.Left() == a.Right() && b.Top() <= a.Bottom() && a.Top() <= b.Bottom())
             || (b.Top() == a.Bottom() && b.Left() <= a.Right() && a.Left() <= b.Right())
    ensures CrashWith(a, b)
  {
  }
}
