/** game/segment.go: the span from a chain node to its successor, and the
    integer part of drawing it (which span is drawn, and how far the tail
    span is shortened). */
module GameSegment {
  import opened Platform
  import opened GameMath
  import opened GameTypes

  /** The line between two node points, unwrapped across the screen edges
      axis by axis (Segment.line on a node whose successor holds `t`). */
  function LineOf(h: Point, t: Point): (l: Line)
    ensures l.h.X == h.X || l.h.X == h.X + Width
    ensures l.t.X == t.X || l.t.X == t.X + Width
    ensures l.h.X == h.X || l.t.X == t.X
    ensures l.h.Y == h.Y || l.h.Y == h.Y + Height
    ensures l.t.Y == t.Y || l.t.Y == t.Y + Height
    ensures l.h.Y == h.Y || l.t.Y == t.Y
    ensures (l.h.X, l.t.X) == Denormalize(h.X, t.X, Width) && (l.h.Y, l.t.Y) == Denormalize(h.Y, t.Y, Height)
  {
    var (hx, tx) := DenormalizeX(h.X, t.X);
    var (hy, ty) := DenormalizeY(h.Y, t.Y);
    Line(Point(hx, hy), Point(tx, ty))
  }

  /** The span of node k of a chain whose node points are `body`; only a
      node with a successor has one. */
  function SpanLine(body: seq<Point>, k: nat): (l: Line)
    requires k + 1 < |body|
    ensures l == LineOf(body[k], body[k + 1])
  {
    LineOf(body[k], body[k + 1])
  }

  /** Shortening of one axis of the tail span: start + (end - start) *
      (period - frame) / period, with Go's truncating division. */
  function Shorten(s: int, e: int, frame: int): (r: int)
    ensures frame == 0 ==> r == e
    ensures frame == Period ==> r == s
    ensures 0 <= frame <= Period ==> (s <= e ==> s <= r <= e) && (e <= s ==> e <= r <= s)
  {
    ShortenBounds(e - s, frame);
    s + GoDiv((e - s) * (Period - frame), Period)
  }

  lemma ShortenBounds(d: int, frame: int)
    ensures frame == 0 ==> GoDiv(d * (Period - frame), Period) == d
    ensures frame == Period ==> GoDiv(d * (Period - frame), Period) == 0
    ensures 0 <= frame <= Period && d >= 0 ==> 0 <= GoDiv(d * (Period - frame), Period) <= d
    ensures 0 <= frame <= Period && d < 0 ==> d <= GoDiv(d * (Period - frame), Period) <= 0
  {
    var a := d * (Period - frame);
    if 0 <= frame <= Period {
      if d >= 0 {
        assert 0 <= a <= d * Period;
      } else {
        assert d * Period <= a <= 0;
      }
    }
  }

  /** What Segment.render draws for node k: nothing for the last node; the
      unwrapped span otherwise, with its end pulled back toward its start
      when the successor is the last node and the snake is not growing. */
  function SpanToDraw(body: seq<Point>, k: nat, frame: int, state: State): (r: Option<Line>)
    ensures k + 1 >= |body| <==> r.None?
    ensures r.Some? ==> r.value.h == SpanLine(body, k).h
    ensures r.Some? && (k + 2 < |body| || state == Growing || frame == 0) ==> r.value == SpanLine(body, k)
    ensures r.Some? && 0 <= frame <= Period ==>
      var l := SpanLine(body, k);
      (l.h.X <= l.t.X ==> l.h.X <= r.value.t.X <= l.t.X) && (l.t.X <= l.h.X ==> l.t.X <= r.value.t.X <= l.h.X) &&
      (l.h.Y <= l.t.Y ==> l.h.Y <= r.value.t.Y <= l.t.Y) && (l.t.Y <= l.h.Y ==> l.t.Y <= r.value.t.Y <= l.h.Y)
    ensures r.Some? && k + 2 == |body| && state != Growing ==>
      var l := SpanLine(body, k);
      r.value.t == Point(Shorten(l.h.X, l.t.X, frame), Shorten(l.h.Y, l.t.Y, frame))
  {
    if k + 1 >= |body| then None
    else
      var l := SpanLine(body, k);
      if k + 2 == |body| && state != Growing then
        Some(Line(l.h, Point(Shorten(l.h.X, l.t.X, frame), Shorten(l.h.Y, l.t.Y, frame))))
      else Some(l)
  }

}
