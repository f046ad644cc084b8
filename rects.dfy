/** Axis-aligned integer rectangles and the overlap test the game uses for collisions. */
module Rects {

  /** A rectangle with top-left corner (x, y), width w and height h; y grows downwards. */
  datatype Rect = Rect(x: int, y: int, w: int, h: int) {
    function Left(): int { x }
    function Right(): int { x + w }
    function Top(): int { y }
    function Bottom(): int { y + h }

    /** The unit pixel whose top-left corner is (px, py) lies inside the rectangle. */
    predicate Covers(px: int, py: int) {
      x <= px < x + w && y <= py < y + h
    }
  }

  /**
   * Rect.colliderect for rectangles of positive size: the open intervals of the two
   * rectangles intersect on both axes, so rectangles that only share an edge do not collide.
   */
  predicate CollideRect(a: Rect, b: Rect) {
    a.Left() < b.Right() && b.Left() < a.Right() && a.Top() < b.Bottom() && b.Top() < a.Bottom()
  }

  function Max(a: int, b: int): int { if a < b then b else a }

  /** Two rectangles of positive size collide exactly when some pixel lies inside both. */
  lemma CollideIffSharedPixel(a: Rect, b: Rect)
    requires a.w > 0 && a.h > 0 && b.w > 0 && b.h > 0
    ensures CollideRect(a, b) <==> exists px, py :: a.Covers(px, py) && b.Covers(px, py)
  {
    if CollideRect(a, b) {
      var px, py := Max(a.x, b.x), Max(a.y, b.y);
      assert a.Covers(px, py) && b.Covers(px, py);
    }
  }
}
