/** game/eye.go: the eye's blink timer and its hurt highlight. Where it
    looks is computed with floating point and comes in as an offset. */
module GameEye {
  import opened Platform

  /** Below this counter value the eyelid is drawn closed. */
  const ClosedBelow: int := 20

  /** The blink timer step: the counter grows by the first draw modulo 5; once
      it passes the threshold it restarts at 0 with a new threshold of 100
      plus the second draw modulo 100. */
  function BlinkStep(counter: int, maxTime: int, draw: Uint32, maxDraw: Uint32): (r: (int, int))
    ensures r.0 <= r.1
    ensures counter + draw % 5 <= maxTime ==> r == (counter + draw % 5, maxTime)
    ensures counter + draw % 5 > maxTime ==> r.0 == 0 && 100 <= r.1 < 200
    ensures r.1 != maxTime ==> r.0 == 0
  {
    var c := counter + draw % 5;
    if c > maxTime then (0, 100 + maxDraw % 100) else (c, maxTime)
  }

  /** Without a reset the counter rises by 0 to 4. */
  lemma BlinkRises(counter: int, maxTime: int, draw: Uint32, maxDraw: Uint32)
    requires counter + draw % 5 <= maxTime
    ensures counter <= BlinkStep(counter, maxTime, draw, maxDraw).0 <= counter + 4
    ensures BlinkStep(counter, maxTime, draw, maxDraw).1 == maxTime
  {
  }

  class Eye {
    var lookingAt: Point
    var hurt: bool
    var blinkCounter: int
    var blinkMaxTime: int

    constructor ()
      ensures lookingAt == Point(0, 0) && !hurt && blinkCounter == 0 && blinkMaxTime == 0
    {
      lookingAt, hurt, blinkCounter, blinkMaxTime := Point(0, 0), false, 0, 0;
    }

    /** `gaze` is the integer offset toward the apple that the floating-point
        code computes. */
    method Update(mouth: Point, gaze: Point, draw: Uint32, maxDraw: Uint32)
      modifies this
      ensures lookingAt == Point(mouth.X + gaze.X, mouth.Y + gaze.Y)
      ensures (blinkCounter, blinkMaxTime) == BlinkStep(old(blinkCounter), old(blinkMaxTime), draw, maxDraw)
      ensures hurt == old(hurt)
    {
      lookingAt := Point(mouth.X + gaze.X, mouth.Y + gaze.Y);
      blinkCounter := blinkCounter + draw % 5;
      if blinkCounter > blinkMaxTime {
        blinkCounter := 0;
        blinkMaxTime := 100 + maxDraw % 100;
      }
    }

    /** The logic of render: the hurt highlight is cleared once shown, and
        the eyelid is drawn closed below the blink threshold. */
    method Render() returns (highlighted: bool, eyelidClosed: bool)
      modifies this
      ensures highlighted == old(hurt) && !hurt
      ensures eyelidClosed == (blinkCounter < ClosedBelow)
      ensures lookingAt == old(lookingAt) && blinkCounter == old(blinkCounter) && blinkMaxTime == old(blinkMaxTime)
    {
      highlighted := hurt;
      hurt := false;
      eyelidClosed := blinkCounter < ClosedBelow;
    }
  }
}
