/** score.go (the earlier snapshot in the root package): a score with
    invulnerability frames and hunger, but no feedback timer and no shared
    hunger period. Its fields are Go `int`s and are unbounded here. */
module RootScore {

  /** How long the snake can go without food, in frames (5 * 60). */
  const HungerPeriod: int := 300
  /** Frames of invulnerability after a hit. */
  const IFrames: int := 60

  /** The value of a Score's fields. */
  datatype ScoreState = ScoreState(val: int, iframes: int, hunger: int)

  /** NewScore. */
  function NewScoreState(): (s: ScoreState)
    ensures s.val == 0 && s.hunger == 5 * 60 && s.iframes == IFrames
  {
    ScoreState(0, IFrames, HungerPeriod)
  }

  /** dec: no effect while invulnerable; otherwise become invulnerable and
      lose a fifth of a positive score plus one. */
  function Decremented(s: ScoreState): (r: ScoreState)
    ensures s.iframes > 0 ==> r == s
    ensures s.iframes <= 0 ==> r.iframes == IFrames
    ensures r.hunger == s.hunger
    ensures s.iframes <= 0 && s.val > 0 ==> r.val == s.val - (s.val / 5 + 1)
    ensures s.val <= 0 ==> r.val == s.val
    ensures s.val >= 0 ==> 0 <= r.val <= s.val
  {
    if s.iframes > 0 then s
    else s.(iframes := IFrames, val := if s.val > 0 then s.val - (s.val / 5 + 1) else s.val)
  }

  /** A dec right after an effective one does nothing: the first has made
      the snake invulnerable. */
  lemma DecrementedTwice(s: ScoreState)
    ensures Decremented(Decremented(s)) == Decremented(s)
  {
  }

  /** Inc: the hunger is refilled and the score goes up by one. */
  function Incremented(s: ScoreState): (r: ScoreState)
    ensures r.val == s.val + 1 && r.hunger == HungerPeriod && r.iframes == s.iframes
  {
    s.(hunger := HungerPeriod, val := s.val + 1)
  }

  /** The receiver's part of Update: invulnerability ticks down while
      positive; a starving snake takes a dec, whatever its score, and its
      hunger is refilled; otherwise the hunger goes down by one. */
  function Ticked(s: ScoreState): (r: ScoreState)
    ensures s.hunger == 0 ==> r.hunger == HungerPeriod
    ensures s.hunger != 0 ==> r.hunger == s.hunger - 1 && r.val == s.val
    ensures 0 <= s.hunger <= HungerPeriod ==> 0 <= r.hunger <= HungerPeriod
    ensures s.iframes > 0 ==> r.iframes >= s.iframes - 1
    ensures s.val >= 0 ==> 0 <= r.val <= s.val
    ensures s.hunger == 0 ==> r == Decremented(s.(iframes := if s.iframes > 0 then s.iframes - 1 else s.iframes)).(hunger := HungerPeriod)
    ensures s.hunger == 0 && s.iframes <= 1 && s.val > 0 ==> r.val == s.val - (s.val / 5 + 1) && r.iframes == IFrames
    ensures s.hunger != 0 || s.iframes > 1 ==> r.iframes == (if s.iframes > 0 then s.iframes - 1 else s.iframes)
  {
    var t := if s.iframes > 0 then s.(iframes := s.iframes - 1) else s;
    if t.hunger == 0 then Decremented(t).(hunger := HungerPeriod)
    else t.(hunger := t.hunger - 1)
  }

  /** A hungry snake loses points only once the invulnerability of its last
      hit has run out: with more than one frame of it left, Update keeps the
      score. */
  lemma TickedKeepsScoreWhileInvulnerable(s: ScoreState)
    requires s.iframes > 1
    ensures Ticked(s).val == s.val && Ticked(s).iframes == s.iframes - 1
  {
  }

  class Score {
    var val: int
    var iframes: int
    var hunger: int

    function State(): ScoreState
      reads this
    {
      ScoreState(val, iframes, hunger)
    }

    /** The score is never negative and the hunger stays within its period. */
    ghost predicate Valid()
      reads this
    {
      val >= 0 && 0 <= hunger <= HungerPeriod
    }

    /** NewScore. */
    constructor ()
      ensures Valid() && State() == NewScoreState()
    {
      val, iframes, hunger := 0, IFrames, HungerPeriod;
    }

    /** Update; `collides` is the snake's collision test on its mouth and
        `global` the package-level score, which takes the collision's dec
        and may or may not be this score. */
    method Update(collides: bool, global: Score)
      requires Valid() && global.Valid()
      modifies this, global
      ensures Valid() && global.Valid()
      ensures global == this ==>
        State() == if collides then Decremented(Ticked(old(State()))) else Ticked(old(State()))
      ensures global != this ==> (State() == Ticked(old(State())) &&
        global.State() == if collides then Decremented(old(global.State())) else old(global.State()))
    {
      if iframes > 0 {
        iframes := iframes - 1;
      }
      if hunger == 0 {
        Dec();
        hunger := HungerPeriod;
      } else {
        hunger := hunger - 1;
      }
      if collides {
        global.Dec();
      }
    }

    /** Inc. */
    method Inc()
      requires Valid()
      modifies this
      ensures Valid() && State() == Incremented(old(State()))
    {
      hunger := HungerPeriod;
      val := val + 1;
    }

    /** dec. */
    method Dec()
      modifies this
      ensures State() == Decremented(old(State()))
    {
      if iframes > 0 {
        return;
      }
      iframes := IFrames;
      if val > 0 {
        val := val - (val / 5 + 1);
      }
    }
  }
}
