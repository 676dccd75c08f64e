/** Integer rectangles as the game's sprites carry them (pygame's `Rect`):
    a top-left corner, a size, the edge accessors the game reads, and the
    overlap test that the sprite-collision helpers use. */
module Rects {

  datatype Rect = Rect(x: int, y: int, width: nat, height: nat) {
    function Left(): int { x }
    function Right(): int { x + width }
    function Top(): int { y }
    function Bottom(): int { y + height }
    /** pygame's `centerx`, with the integer halving of the width. */
    function CenterX(): int { x + width / 2 }
    /** The pixel at column `px` and row `py` lies inside the rectangle. */
    predicate Covers(px: int, py: int) { Left() <= px < Right() && Top() <= py < Bottom() }
  }

  /** pygame's `colliderect`: rectangles of non-zero size overlap when their
      interiors intersect; a rectangle of zero size collides with nothing. */
  predicate Overlaps(a: Rect, b: Rect) {
    a.width > 0 && a.height > 0 && b.width > 0 && b.height > 0 &&
    a.Left() < b.Right() && b.Left() < a.Right() &&
    a.Top() < b.Bottom() && b.Top() < a.Bottom()
  }

  /** Two rectangles overlap exactly when some pixel lies inside both. */
  lemma OverlapsSharePixel(a: Rect, b: Rect)
    ensures Overlaps(a, b) <==> exists px, py :: a.Covers(px, py) && b.Covers(px, py)
  {
    if Overlaps(a, b) {
      var px := if a.Left() < b.Left() then b.Left() else a.Left();
      var py := if a.Top() < b.Top() then b.Top() else a.Top();
      assert a.Covers(px, py) && b.Covers(px, py);
    }
  }

  /** A rectangle of the given size placed by assigning `anchor`'s `midtop`
      to its own `midtop`, as pygame's setter does. */
  function AtMidTop(anchor: Rect, width: nat, height: nat): (r: Rect)
    ensures r.width == width && r.height == height
    ensures r.Top() == anchor.Top()
    ensures r.CenterX() == anchor.CenterX()
  {
    Rect(anchor.CenterX() - width / 2, anchor.Top(), width, height)
  }
}
