/** game/score.go: a snake's score with its invulnerability, hunger and
    feedback counters. The package-level hungerPeriod is passed in and the
    new value handed back; the elimination that update triggers (removing
    the peer and raising a title) is reported as a flag. */
module GameScore {
  import opened Platform

  /** Frames of invulnerability after a hit. */
  const IFrames: Uint8 := 60
  /** Frames the feedback colour is shown. */
  const FeedbackTTL: Uint8 := 60
  /** inc stops tightening the hunger period at this value. */
  const HungerFloor: Uint16 := 10

  /** The value of a Score's fields. */
  datatype ScoreState = ScoreState(val: Int16, iframes: Uint8, hunger: Uint16, ttl: Uint8, color: Color)

  /** newScore. */
  function NewScoreState(hungerPeriod: Uint16): (s: ScoreState)
    ensures s.val == 0 && s.hunger == hungerPeriod && s.iframes == IFrames
  {
    ScoreState(0, IFrames, hungerPeriod, 0, NoColor)
  }

  /** dec: no effect while invulnerable; otherwise become invulnerable, show
      red, and lose a fifth of a positive score plus one. */
  function Decremented(s: ScoreState): (r: ScoreState)
    ensures s.iframes > 0 ==> r == s
    ensures s.iframes == 0 ==> r.iframes == IFrames && r.ttl == FeedbackTTL && r.color == Red
    ensures r.hunger == s.hunger
    ensures s.iframes == 0 && s.val > 0 ==> r.val == s.val - (s.val / 5 + 1)
    ensures s.val <= 0 ==> r.val == s.val
    ensures s.val >= 0 ==> 0 <= r.val <= s.val
    ensures s.val > 0 && r.val == 0 ==> s.val == 1
  {
    if s.iframes > 0 then s
    else s.(iframes := IFrames, val := if s.val > 0 then s.val - (s.val / 5 + 1) else s.val,
            color := Red, ttl := FeedbackTTL)
  }

  /** inc: tighten the global hunger period down to the floor, refill this
      snake's hunger to it, gain one point (an int16, so 32767 wraps) and
      show green. The second component is the new hunger period. */
  function Incremented(s: ScoreState, hungerPeriod: Uint16): (r: (ScoreState, Uint16))
    ensures hungerPeriod > HungerFloor ==> r.1 == hungerPeriod - 1
    ensures hungerPeriod <= HungerFloor ==> r.1 == hungerPeriod
    ensures r.0.hunger == r.1
    ensures r.0.val == Wrap16(s.val + 1)
    ensures s.val < 0x7fff ==> r.0.val == s.val + 1
    ensures r.0.ttl == FeedbackTTL && r.0.color == DarkGreen && r.0.iframes == s.iframes
  {
    var period := if hungerPeriod > HungerFloor then hungerPeriod - 1 else hungerPeriod;
    (s.(hunger := period, val := Wrap16(s.val + 1), color := DarkGreen, ttl := FeedbackTTL), period)
  }

  /** One tick of a uint8 countdown that stops at zero. */
  function Countdown(n: Uint8): (r: Uint8)
    ensures n > 0 ==> r == n - 1
    ensures n == 0 ==> r == 0
  {
    if n > 0 then n - 1 else n
  }

  /** update: tick invulnerability, then hunger (a hungry snake with a score
      takes a decrement and its hunger is refilled), then the feedback
      timer. The flag says the hunger decrement brought the score to zero. */
  function Ticked(s: ScoreState, hungerPeriod: Uint16): (r: (ScoreState, bool))
    ensures s.hunger != 0 ==> r.0.val == s.val && r.0.hunger == s.hunger - 1 && !r.1
    ensures s.hunger == 0 && s.val == 0 ==> r.0.val == 0 && r.0.hunger == 0 && !r.1
    ensures s.hunger == 0 && s.val != 0 ==>
      r.0.hunger == hungerPeriod &&
      r.0.val == Decremented(s.(iframes := Countdown(s.iframes))).val &&
      r.1 == (r.0.val == 0)
    ensures s.iframes > 1 ==> r.0.val == s.val && r.0.iframes == s.iframes - 1
    ensures r.1 ==> s.val != 0 && r.0.val == 0
    ensures s.val >= 0 ==> 0 <= r.0.val <= s.val
    ensures !(s.hunger == 0 && s.val != 0) ==>
      r.0.iframes == Countdown(s.iframes) && r.0.ttl == Countdown(s.ttl) && r.0.color == s.color
    ensures s.hunger == 0 && s.val != 0 ==>
      var d := Decremented(s.(iframes := Countdown(s.iframes)));
      r.0 == d.(hunger := hungerPeriod, ttl := Countdown(d.ttl))
  {
    var t := s.(iframes := Countdown(s.iframes));
    var (h, eliminated) :=
      if t.hunger == 0 then
        if t.val != 0 then
          var d := Decremented(t).(hunger := hungerPeriod);
          (d, d.val == 0)
        else (t, false)
      else (t.(hunger := t.hunger - 1), false);
    (h.(ttl := Countdown(h.ttl)), eliminated)
  }

  /** The score after `n` calls of inc, with the hunger period threaded. */
  function IncrementedTimes(s: ScoreState, hungerPeriod: Uint16, n: nat): (r: (ScoreState, Uint16))
    ensures r.1 <= hungerPeriod && hungerPeriod - r.1 <= n
    ensures n > 0 ==> r.0.hunger == r.1 && r.0.ttl == FeedbackTTL && r.0.color == DarkGreen
    decreases n
  {
    if n == 0 then (s, hungerPeriod)
    else
      var (s1, p1) := Incremented(s, hungerPeriod);
      IncrementedTimes(s1, p1, n - 1)
  }

  /** n calls of inc raise the score by n (modulo the int16 wrap) and leave
      invulnerability alone. */
  lemma {:induction false} IncrementedTimesVal(s: ScoreState, hungerPeriod: Uint16, n: nat)
    ensures IncrementedTimes(s, hungerPeriod, n).0.val == Wrap16(s.val + n)
    ensures IncrementedTimes(s, hungerPeriod, n).0.iframes == s.iframes
    ensures hungerPeriod >= HungerFloor ==> IncrementedTimes(s, hungerPeriod, n).1 >= HungerFloor
    decreases n
  {
    if n == 0 {
    } else {
      var (s1, p1) := Incremented(s, hungerPeriod);
      IncrementedTimesVal(s1, p1, n - 1);
      Wrap16Add(s.val + 1, n - 1);
    }
  }

  /** The score after `n` calls of dec. */
  function DecrementedTimes(s: ScoreState, n: nat): (r: ScoreState)
    ensures r.hunger == s.hunger
    ensures s.val >= 0 ==> 0 <= r.val <= s.val
    decreases n
  {
    if n == 0 then s else DecrementedTimes(Decremented(s), n - 1)
  }

  /** However many times dec runs in a row, it lowers the score at most once:
      the first effective call makes the snake invulnerable. */
  lemma {:induction false} DecrementedTimesOnce(s: ScoreState, n: nat)
    ensures DecrementedTimes(s, n) == if n == 0 then s else Decremented(s)
    decreases n
  {
    if n > 1 {
      DecrementedTimesOnce(Decremented(s), n - 1);
    }
  }

  class Score {
    const peer: Peer
    var val: Int16
    var iframes: Uint8
    var hunger: Uint16
    var ttl: Uint8
    var color: Color

    function State(): ScoreState
      reads this
    {
      ScoreState(val, iframes, hunger, ttl, color)
    }

    /** newScore. */
    constructor (peer: Peer, hungerPeriod: Uint16)
      ensures this.peer == peer && State() == NewScoreState(hungerPeriod)
    {
      this.peer := peer;
      val, iframes, hunger, ttl, color := 0, IFrames, hungerPeriod, 0, NoColor;
    }

    method Update(hungerPeriod: Uint16) returns (eliminated: bool)
      modifies this
      ensures (State(), eliminated) == Ticked(old(State()), hungerPeriod)
    {
      eliminated := false;
      if iframes > 0 {
        iframes := iframes - 1;
      }
      if hunger == 0 {
        if val != 0 {
          Dec();
          hunger := hungerPeriod;
          if val == 0 {
            eliminated := true;
          }
        }
      } else {
        hunger := hunger - 1;
      }
      if ttl != 0 {
        ttl := ttl - 1;
      }
    }

    method Inc(hungerPeriod: Uint16) returns (newPeriod: Uint16)
      modifies this
      ensures (State(), newPeriod) == Incremented(old(State()), hungerPeriod)
    {
      newPeriod := hungerPeriod;
      if newPeriod > HungerFloor {
        newPeriod := newPeriod - 1;
      }
      hunger := newPeriod;
      val := Wrap16(val + 1);
      color := DarkGreen;
      ttl := FeedbackTTL;
    }

    method Dec()
      modifies this
      ensures State() == Decremented(old(State()))
    {
      if iframes > 0 {
        return;
      }
      iframes := IFrames;
      if val > 0 {
        val := val - (val / 5 + 1);
      }
      color := Red;
      ttl := FeedbackTTL;
    }
  }
}
