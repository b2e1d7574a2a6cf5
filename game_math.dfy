/** game/math.go: segment intersection, screen wrapping and score text. */
module GameMath {
  import opened Platform

  /** A straight line from `h` to `t`. */
  datatype Line = Line(h: Point, t: Point)

  /** Twice the signed area of the triangle a, b, c. */
  function Cross(a: Point, b: Point, c: Point): int {
    (b.X - a.X) * (c.Y - a.Y) - (b.Y - a.Y) * (c.X - a.X)
  }

  /** True if a, b, c are in counter-clockwise order (in the coordinate
      system of the formula; strict, so collinear points are not). */
  predicate Ccw(a: Point, b: Point, c: Point): (r: bool)
    ensures r ==> a != b && a != c && b != c
  {
    (c.Y - a.Y) * (b.X - a.X) > (b.Y - a.Y) * (c.X - a.X)
  }

  /** True if the two lines properly cross: the ends of each lie strictly on
      opposite sides of the other. */
  predicate Intersect(a: Line, b: Line): (r: bool)
    ensures r ==> a.h != a.t && b.h != b.t
  {
    Ccw(a.h, b.h, b.t) != Ccw(a.t, b.h, b.t) && Ccw(a.h, a.t, b.h) != Ccw(a.h, a.t, b.t)
  }

  /** The orientation test is the sign of the cross product. */
  lemma CcwIsPositiveCross(a: Point, b: Point, c: Point)
    ensures Ccw(a, b, c) <==> Cross(a, b, c) > 0
  {
  }

  /** The cross product is unchanged by a cyclic rotation of its points. */
  lemma CrossRotate(a: Point, b: Point, c: Point)
    ensures Cross(a, b, c) == Cross(b, c, a)
  {
    var ux, uy, vx, vy := b.X - a.X, b.Y - a.Y, c.X - a.X, c.Y - a.Y;
    assert Cross(a, b, c) == ux * vy - uy * vx;
    assert Cross(b, c, a) == (vx - ux) * (0 - uy) - (vy - uy) * (0 - ux);
    assert (vx - ux) * (0 - uy) == ux * uy - vx * uy;
    assert (vy - uy) * (0 - ux) == ux * uy - ux * vy;
  }

  /** `ccw` is invariant under cyclic permutation of its points. */
  lemma CcwRotate(a: Point, b: Point, c: Point)
    ensures Ccw(a, b, c) == Ccw(b, c, a)
  {
    CcwIsPositiveCross(a, b, c);
    CcwIsPositiveCross(b, c, a);
    CrossRotate(a, b, c);
  }

  /** Collinear points are never in counter-clockwise order, and swapping
      two points turns a counter-clockwise triple into a clockwise one. */
  lemma CcwStrict(a: Point, b: Point, c: Point)
    ensures Cross(a, b, c) == 0 ==> !Ccw(a, b, c) && !Ccw(a, c, b)
    ensures Ccw(a, b, c) ==> !Ccw(a, c, b)
  {
    CcwIsPositiveCross(a, b, c);
    CcwIsPositiveCross(a, c, b);
    assert Cross(a, c, b) == -Cross(a, b, c);
  }

  /** Intersection does not depend on which line is given first. */
  lemma IntersectSymmetric(a: Line, b: Line)
    ensures Intersect(a, b) == Intersect(b, a)
  {
    CcwRotate(a.h, b.h, b.t);
    CcwRotate(a.t, b.h, b.t);
    CcwRotate(b.h, a.h, a.t);
    CcwRotate(b.t, a.h, a.t);
  }

  /** A zero-length line never intersects anything, on either side. */
  lemma DegenerateLineNeverIntersects(a: Line, b: Line)
    requires a.h == a.t
    ensures !Intersect(a, b) && !Intersect(b, a)
  {
  }

  /** Bring a coordinate that left the screen by less than one screen size
      back onto it (the common body of normalizeX and normalizeY). */
  function Normalize(v: int, bound: int): (r: int)
    requires bound > 0
    ensures 0 <= v < bound ==> r == v
    ensures -bound <= v < 0 ==> r == v + bound
    ensures bound <= v < 2 * bound ==> r == v - bound
    ensures -bound <= v < 2 * bound ==> 0 <= r < bound
    ensures (r - v) % bound == 0
  {
    if v >= bound then v - bound else if v < 0 then v + bound else v
  }

  function NormalizeX(x: int): (r: int)
    ensures -Width <= x < 2 * Width ==> 0 <= r < Width
    ensures 0 <= x < Width ==> r == x
    ensures (r - x) % Width == 0
  {
    Normalize(x, Width)
  }

  function NormalizeY(y: int): (r: int)
    ensures -Height <= y < 2 * Height ==> 0 <= r < Height
    ensures 0 <= y < Height ==> r == y
    ensures (r - y) % Height == 0
  {
    Normalize(y, Height)
  }

  /** Distance above which two coordinates are taken to be on opposite
      edges of the screen. */
  const WrapThreshold: int := 30

  /** If the two values are far apart, move the smaller one past the far
      edge so that the pair forms one continuous span (the common body of
      denormalizeX and denormalizeY). */
  function Denormalize(start: int, end: int, bound: int): (r: (int, int))
    ensures -WrapThreshold <= start - end <= WrapThreshold ==> r == (start, end)
    ensures r.0 == start || r.0 == start + bound
    ensures r.1 == end || r.1 == end + bound
    ensures r.0 == start || r.1 == end
    ensures r.0 != start ==> start < end && end - start > WrapThreshold
    ensures r.1 != end ==> end < start && start - end > WrapThreshold
    ensures bound != 0 && start - end > WrapThreshold ==> r.1 != end
    ensures bound != 0 && end - start > WrapThreshold ==> r.0 != start
  {
    if start - end > WrapThreshold then (start, end + bound)
    else if end - start > WrapThreshold then (start + bound, end)
    else (start, end)
  }

  function DenormalizeX(start: int, end: int): (r: (int, int))
    ensures r.0 == start || r.1 == end
    ensures 0 <= start < Width && 0 <= end < Width ==> NormalizeX(r.0) == start && NormalizeX(r.1) == end
  {
    if 0 <= start < Width && 0 <= end < Width then
      DenormalizeRoundTrip(start, end, Width);
      Denormalize(start, end, Width)
    else Denormalize(start, end, Width)
  }

  function DenormalizeY(start: int, end: int): (r: (int, int))
    ensures r.0 == start || r.1 == end
    ensures 0 <= start < Height && 0 <= end < Height ==> NormalizeY(r.0) == start && NormalizeY(r.1) == end
  {
    if 0 <= start < Height && 0 <= end < Height then
      DenormalizeRoundTrip(start, end, Height);
      Denormalize(start, end, Height)
    else Denormalize(start, end, Height)
  }

  /** Denormalising two on-screen coordinates loses nothing: normalising
      the result gives the two coordinates back. */
  lemma DenormalizeRoundTrip(start: int, end: int, bound: int)
    requires bound > 0 && 0 <= start < bound && 0 <= end < bound
    ensures Normalize(Denormalize(start, end, bound).0, bound) == start
    ensures Normalize(Denormalize(start, end, bound).1, bound) == end
  {
  }

  /** A byte of a Go string. */
  type Byte = Uint8

  const Zero: Byte := 48

  /** formatInt: two bytes, '0' + i/10 and '0' + i%10, with Go's truncating
      division and the byte arithmetic wrapping modulo 256. */
  function FormatInt(i: Int16): (r: seq<Byte>)
    ensures |r| == 2
    ensures 0 <= i <= 99 ==> Zero <= r[0] <= Zero + 9 && Zero <= r[1] <= Zero + 9
  {
    [((Zero as int + GoDiv(i, 10)) % 256) as Byte, ((Zero as int + GoRem(i, 10)) % 256) as Byte]
  }

  /** Reading two decimal digit bytes back as a number. */
  function ParseTwoDigits(s: seq<Byte>): int
    requires |s| == 2
  {
    (s[0] - Zero) * 10 + (s[1] - Zero)
  }

  /** For 0..99 the text is the number in decimal, with a leading zero
      below 10. */
  lemma FormatIntRoundTrip(i: Int16)
    requires 0 <= i <= 99
    ensures ParseTwoDigits(FormatInt(i)) == i
    ensures i < 10 ==> FormatInt(i)[0] == Zero
  {
    var q, d := i / 10, i % 10;
    assert 0 <= q <= 9 && 0 <= d <= 9 && i == q * 10 + d;
    assert GoDiv(i, 10) == q && GoRem(i, 10) == d;
    var r := FormatInt(i);
    assert r[0] == Zero + q as Byte && r[1] == Zero + d as Byte;
  }

  /** From 100 on the first byte is no longer a digit: 100 shows as ":0". */
  lemma FormatIntHundred()
    ensures FormatInt(100) == [58, 48]
  {
  }
}
