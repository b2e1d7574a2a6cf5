/** game/apple.go: the apple, placed from two random draws (X first, then
    Y); the draws are inputs. */
module GameApple {
  import opened Platform
  import opened GameTypes

  /** The position that move computes from the two draws. */
  function MovedPos(drawX: Uint32, drawY: Uint32): (p: Point)
    ensures AppleRadius <= p.X < Width - AppleRadius
    ensures AppleRadius <= p.Y < Height - AppleRadius
  {
    Point(drawX % (Width - AppleRadius * 2) + AppleRadius,
          drawY % (Height - AppleRadius * 2) + AppleRadius)
  }

  /** Every position inside the margins is reached by some pair of draws. */
  lemma MovedPosOnto(p: Point)
    requires AppleRadius <= p.X < Width - AppleRadius
    requires AppleRadius <= p.Y < Height - AppleRadius
    ensures MovedPos(p.X - AppleRadius, p.Y - AppleRadius) == p
  {
  }

  class Apple {
    /** Coordinates of the apple centre. */
    var pos: Point

    /** newApple. */
    constructor (drawX: Uint32, drawY: Uint32)
      ensures pos == MovedPos(drawX, drawY)
    {
      pos := MovedPos(drawX, drawY);
    }

    method Move(drawX: Uint32, drawY: Uint32)
      modifies this
      ensures pos == MovedPos(drawX, drawY)
    {
      pos := Point(drawX % (Width - AppleRadius * 2) + AppleRadius,
                   drawY % (Height - AppleRadius * 2) + AppleRadius);
    }
  }
}
