/** apple.go (the earlier snapshot in the root package): the same placement
    rule as the later design, with an exported field. */
module RootApple {
  import opened Platform

  const AppleRadius: int := 5

  function MovedPos(drawX: Uint32, drawY: Uint32): (p: Point)
    ensures AppleRadius <= p.X < Width - AppleRadius
    ensures AppleRadius <= p.Y < Height - AppleRadius
  {
    Point(drawX % (Width - AppleRadius * 2) + AppleRadius,
          drawY % (Height - AppleRadius * 2) + AppleRadius)
  }

  lemma MovedPosOnto(p: Point)
    requires AppleRadius <= p.X < Width - AppleRadius
    requires AppleRadius <= p.Y < Height - AppleRadius
    ensures MovedPos(p.X - AppleRadius, p.Y - AppleRadius) == p
  {
  }

  class Apple {
    var Pos: Point

    /** NewApple. */
    constructor (drawX: Uint32, drawY: Uint32)
      ensures Pos == MovedPos(drawX, drawY)
    {
      Pos := MovedPos(drawX, drawY);
    }

    method Move(drawX: Uint32, drawY: Uint32)
      modifies this
      ensures Pos == MovedPos(drawX, drawY)
    {
      Pos := Point(drawX % (Width - AppleRadius * 2) + AppleRadius,
                   drawY % (Height - AppleRadius * 2) + AppleRadius);
    }
  }
}
