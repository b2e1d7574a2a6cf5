/** bbox.go (the earlier snapshot in the root package): a box spanning both
    points, each side pushed out by `margin`. */
module RootBBox {
  import opened Platform

  datatype BBox = BBox(left: Point, right: Point)

  function NewBBox(start: Point, end: Point, margin: int): (b: BBox)
    ensures b.left.X == Min(start.X, end.X) - margin && b.left.Y == Min(start.Y, end.Y) - margin
    ensures b.right.X == Max(start.X, end.X) + margin && b.right.Y == Max(start.Y, end.Y) + margin
  {
    var (sx, ex) := if end.X < start.X then (end.X, start.X) else (start.X, end.X);
    var (sy, ey) := if end.Y < start.Y then (end.Y, start.Y) else (start.Y, end.Y);
    BBox(Point(sx - margin, sy - margin), Point(ex + margin, ey + margin))
  }

  function Min(a: int, b: int): int { if a < b then a else b }
  function Max(a: int, b: int): int { if a < b then b else a }

  /** Inclusive on all four edges. */
  function Contains(b: BBox, p: Point): (r: bool)
    ensures r <==> b.left.X <= p.X <= b.right.X && b.left.Y <= p.Y <= b.right.Y
  {
    if p.X < b.left.X || p.X > b.right.X then false
    else if p.Y < b.left.Y || p.Y > b.right.Y then false
    else true
  }

  lemma NewBBoxSymmetric(start: Point, end: Point, margin: int)
    ensures NewBBox(start, end, margin) == NewBBox(end, start, margin)
  {
  }

  /** With a non-negative margin the box is well formed and holds both ends. */
  lemma NewBBoxCoversEnds(start: Point, end: Point, margin: int)
    requires margin >= 0
    ensures var b := NewBBox(start, end, margin);
      b.left.X <= b.right.X && b.left.Y <= b.right.Y && Contains(b, start) && Contains(b, end)
  {
  }

  /** One axis out of range is enough to reject a point. */
  lemma OutsideOnOneAxis(b: BBox, p: Point)
    requires p.X < b.left.X || p.X > b.right.X || p.Y < b.left.Y || p.Y > b.right.Y
    ensures !Contains(b, p)
  {
  }
}
