/** The firefly platform as the game sees it (screen size, points, peers,
    colours) and the parts of Go's integer semantics the game relies on. */
module Platform {

  /** Screen size of the device, in pixels. */
  const Width: int := 240
  const Height: int := 160

  /** firefly.Point: an integer screen coordinate. */
  datatype Point = Point(X: int, Y: int)

  /** firefly.Point.ComponentMin. */
  function ComponentMin(a: Point, b: Point): (r: Point)
    ensures r.X <= a.X && r.X <= b.X && (r.X == a.X || r.X == b.X)
    ensures r.Y <= a.Y && r.Y <= b.Y && (r.Y == a.Y || r.Y == b.Y)
  {
    Point(if a.X < b.X then a.X else b.X, if a.Y < b.Y then a.Y else b.Y)
  }

  /** firefly.Point.ComponentMax. */
  function ComponentMax(a: Point, b: Point): (r: Point)
    ensures r.X >= a.X && r.X >= b.X && (r.X == a.X || r.X == b.X)
    ensures r.Y >= a.Y && r.Y >= b.Y && (r.Y == a.Y || r.Y == b.Y)
  {
    Point(if a.X > b.X then a.X else b.X, if a.Y > b.Y then a.Y else b.Y)
  }

  datatype Option<T> = None | Some(value: T)

  /** Go's fixed-width integer types. */
  type Uint8 = x: int | 0 <= x < 0x100
  type Uint16 = x: int | 0 <= x < 0x1_0000
  type Uint32 = x: int | 0 <= x < 0x1_0000_0000
  type Int16 = x: int | -0x8000 <= x < 0x8000

  /** firefly.Peer is a uint8 identifier of a participant. */
  type Peer = Uint8

  /** The few colours whose choice is logic rather than drawing; NoColor is
      the zero value of firefly.Color. */
  datatype Color = NoColor | Red | DarkGreen

  /** Go's integer division, which truncates toward zero (Dafny's `/` is
      Euclidean). */
  function GoDiv(a: int, b: int): (q: int)
    requires b > 0
    ensures a >= 0 ==> q * b <= a < q * b + b
    ensures a < 0 ==> q * b - b < a <= q * b
  {
    if a >= 0 then a / b else -((-a) / b)
  }

  /** Go's remainder, which takes the sign of the dividend. */
  function GoRem(a: int, b: int): (r: int)
    requires b > 0
    ensures a == GoDiv(a, b) * b + r
    ensures a >= 0 ==> 0 <= r < b
    ensures a < 0 ==> -b < r <= 0
  {
    a - GoDiv(a, b) * b
  }

  /** Two's complement wrap-around of an int16 addition result. */
  function Wrap16(x: int): (r: Int16)
    ensures -0x8000 <= x < 0x8000 ==> r == x
    ensures (x - r) % 0x1_0000 == 0
  {
    (x + 0x8000) % 0x1_0000 - 0x8000
  }

  /** Wrapping is compatible with addition: wrapping after every step of a
      sum gives the same int16 as wrapping once at the end. */
  lemma Wrap16Add(x: int, d: int)
    ensures Wrap16(Wrap16(x) + d) == Wrap16(x + d)
  {
    var k := (x + 0x8000) / 0x1_0000;
    assert Wrap16(x) == x - k * 0x1_0000;
    assert Wrap16(x) + d + 0x8000 == (x + d + 0x8000) - k * 0x1_0000;
    ModShift(x + d + 0x8000, k);
  }

  lemma ModShift(a: int, k: int)
    ensures (a - k * 0x1_0000) % 0x1_0000 == a % 0x1_0000
  {
    var q := a / 0x1_0000;
    var r := a % 0x1_0000;
    assert a - k * 0x1_0000 == (q - k) * 0x1_0000 + r;
  }
}
