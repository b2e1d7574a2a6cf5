/** game/bbox.go: the axis-aligned box used to keep apples off the body.
    As written (NewBBox), both corners are derived from the componentwise
    MINIMUM of the two points, so the box is a square of side 2*margin
    around that minimum. The evidently intended box spans from the minimum
    to the MAXIMUM (SpanBox), as bbox.go of the root package does.
    appleCollides is modelled as written, with NewBBox; SpanBox carries the
    intended box for the lemmas that compare the two. */
module GameBBox {
  import opened Platform

  datatype BBox = BBox(left: Point, right: Point)

  function NewBBox(start: Point, end: Point, margin: int): (b: BBox)
    ensures b.right.X - b.left.X == 2 * margin && b.right.Y - b.left.Y == 2 * margin
    ensures b.left.X + margin == ComponentMin(start, end).X
    ensures b.left.Y + margin == ComponentMin(start, end).Y
  {
    var left := ComponentMin(start, end);
    var right := ComponentMin(start, end);
    BBox(Point(left.X - margin, left.Y - margin), Point(right.X + margin, right.Y + margin))
  }

  /** Inclusive on all four edges. */
  function Contains(b: BBox, p: Point): (r: bool)
    ensures r <==> b.left.X <= p.X <= b.right.X && b.left.Y <= p.Y <= b.right.Y
  {
    if p.X < b.left.X || p.X > b.right.X then false
    else if p.Y < b.left.Y || p.Y > b.right.Y then false
    else true
  }

  lemma NewBBoxSymmetric(start: Point, end: Point, margin: int)
    ensures NewBBox(start, end, margin) == NewBBox(end, start, margin)
  {
  }

  /** The box is exactly the square of half-side `margin` around the
      componentwise minimum. */
  lemma ContainsIffNearMin(start: Point, end: Point, margin: int, p: Point)
    ensures Contains(NewBBox(start, end, margin), p) <==>
      var m := ComponentMin(start, end);
      m.X - margin <= p.X <= m.X + margin && m.Y - margin <= p.Y <= m.Y + margin
  {
  }

  lemma ContainsMinCorner(start: Point, end: Point, margin: int)
    requires margin >= 0
    ensures Contains(NewBBox(start, end, margin), ComponentMin(start, end))
  {
  }

  /** A horizontal body segment from (0, 0) to (14, 0) with margin 3: its
      far end is outside its own box. */
  lemma FarEndOutside()
    ensures !Contains(NewBBox(Point(0, 0), Point(14, 0), 3), Point(14, 0))
  {
  }

  /** newBBox as intended: the box from the componentwise minimum to the
      componentwise maximum of the two points, each side pushed out by
      `margin`. */
  function SpanBox(start: Point, end: Point, margin: int): (b: BBox)
    ensures b.left == Point(ComponentMin(start, end).X - margin, ComponentMin(start, end).Y - margin)
    ensures b.right == Point(ComponentMax(start, end).X + margin, ComponentMax(start, end).Y + margin)
  {
    var left := ComponentMin(start, end);
    var right := ComponentMax(start, end);
    BBox(Point(left.X - margin, left.Y - margin), Point(right.X + margin, right.Y + margin))
  }

  /** With a non-negative margin the intended box holds both end points, so
      the far end of the segment above is inside its box. */
  lemma SpanBoxCoversEnds(start: Point, end: Point, margin: int)
    requires margin >= 0
    ensures Contains(SpanBox(start, end, margin), start) && Contains(SpanBox(start, end, margin), end)
    ensures Contains(SpanBox(Point(0, 0), Point(14, 0), 3), Point(14, 0))
  {
  }

  /** The intended box holds exactly the points within `margin` of the
      rectangle spanned by the two ends, whichever end comes first. */
  lemma SpanBoxContains(start: Point, end: Point, margin: int, p: Point)
    ensures Contains(SpanBox(start, end, margin), p) <==>
      ComponentMin(start, end).X - margin <= p.X <= ComponentMax(start, end).X + margin &&
      ComponentMin(start, end).Y - margin <= p.Y <= ComponentMax(start, end).Y + margin
    ensures SpanBox(start, end, margin) == SpanBox(end, start, margin)
  {
  }
}
