/**
  Screen dimensions and the integer axis-aligned rectangles every game object
  is drawn as.
 */
module Geometry {

  const SCREEN_WIDTH: int := 800
  const SCREEN_HEIGHT: int := 600

  /** A rectangle with its top-left corner at (x, y), as a pygame.Rect. */
  datatype Rect = Rect(x: int, y: int, w: int, h: int) {
    function Left(): int { x }
    function Right(): int { x + w }
    function Top(): int { y }
    function Bottom(): int { y + h }
  }

  /**
    Overlap of two rectangles, the collision test the game asks of its
    graphics library. The library's own code is not part of this model: the
    test is taken to be the usual half-open overlap on both axes.
   */
  predicate Overlaps(a: Rect, b: Rect) {
    && a.x < b.x + b.w && b.x < a.x + a.w
    && a.y < b.y + b.h && b.y < a.y + a.h
  }

  /** The rectangle lies entirely within the window. */
  predicate OnScreen(r: Rect) {
    0 <= r.Left() && r.Right() <= SCREEN_WIDTH && 0 <= r.Top() && r.Bottom() <= SCREEN_HEIGHT
  }
}
