/** game/main.go: an earlier driver of the same package, without titles
    and with one package-level score that the cheat codes act on. The
    source calls newScore without arguments, which matches no signature of
    newScore in game/score.go (that one takes the peer); the score here is
    a Score for the peer 0 with the current hunger period. */
module GameMainDriver {
  import opened Platform
  import opened GameScore
  import opened GameApple
  import opened GameSnake
  import opened GameSnakes
  import opened GameDriver

  /** The world object is neither a snake nor a score. */
  lemma OutsideMainRoster(items: seq<Snake>, w: MainWorld)
    ensures w !in ObjectsOf(items)
  {
  }

  class MainWorld {
    const apple: Apple
    /** The package-level score. */
    const score: Score
    /** The frame counter and the hunger period of game/score.go. */
    const globals: Globals
    var snakes: Snakes

    /** The roster is valid and the package-level score is none of the
        snakes' own scores. */
    ghost predicate Valid()
      reads this, snakes, ObjectsOf(snakes.items)
    {
      snakes.Valid() && score !in ObjectsOf(snakes.items)
    }

    /** Boot: the roster, the apple and the score; `me` is the local peer
        the new snakes compare themselves with. */
    constructor (me: Peer, peers: seq<Peer>, drawX: Uint32, drawY: Uint32)
      ensures Valid() && globals.frame == 0 && globals.hungerPeriod == 0
      ensures FreshRoster(snakes, peers, me, 0)
      ensures apple.pos == MovedPos(drawX, drawY) && score.State() == NewScoreState(0)
    {
      globals := new Globals(0, 0);
      score := new Score(0, 0);
      apple := new Apple(drawX, drawY);
      snakes := new Snakes(peers, me, 0);
    }

    /** Update: the frame counter goes up by one, then the roster is
        updated with each snake's `inputs`. */
    method Update(inputs: seq<SnakeInput>) returns (eliminated: seq<bool>)
      requires Valid() && |inputs| == |snakes.items|
      modifies apple, globals, ObjectsOf(snakes.items)
      ensures Valid() && score.State() == old(score.State())
      ensures Progress(SnapsOf(snakes.items), apple.pos, globals.frame, globals.hungerPeriod, eliminated) ==
        RosterUpdated(old(SnapsOf(snakes.items)), inputs, old(apple.pos), old(globals.frame) + 1, old(globals.hungerPeriod), |inputs|)
    {
      OutsideMainRoster(snakes.items, this);
      OutsideRosterGlobals(snakes.items, globals);
      ghost var before := SnapsOf(snakes.items);
      globals.frame := globals.frame + 1;
      assert SnapsOf(snakes.items) == before;
      eliminated := UpdateSnakes(snakes, apple, globals, inputs);
    }

    /** Cheat: code 1 moves the apple and answers 1; codes 2 and 3 run inc
        or dec `v` times on the package-level score and answer its value;
        any other code answers 0 and changes nothing. */
    method Cheat(c: int, v: int, drawX: Uint32, drawY: Uint32) returns (r: int)
      requires Valid()
      modifies apple, globals, score
      ensures Valid()
      ensures globals.frame == old(globals.frame)
      ensures c == 1 ==> (r == 1 && apple.pos == MovedPos(drawX, drawY) &&
        globals.hungerPeriod == old(globals.hungerPeriod) && score.State() == old(score.State()))
      ensures c == 2 ==> (apple.pos == old(apple.pos) && r == score.val &&
        (score.State(), globals.hungerPeriod) == IncrementedTimes(old(score.State()), old(globals.hungerPeriod), Iterations(v)))
      ensures c == 3 ==> (apple.pos == old(apple.pos) && r == score.val && globals.hungerPeriod == old(globals.hungerPeriod) &&
        score.State() == DecrementedTimes(old(score.State()), Iterations(v)))
      ensures c != 1 && c != 2 && c != 3 ==> (r == 0 && apple.pos == old(apple.pos) &&
        globals.hungerPeriod == old(globals.hungerPeriod) && score.State() == old(score.State()))
    {
      if c == 1 {
        apple.Move(drawX, drawY);
        r := 1;
      } else if c == 2 {
        var p := IncTimes(score, globals.hungerPeriod, v);
        globals.hungerPeriod := p;
        r := score.val;
      } else if c == 3 {
        DecTimes(score, v);
        r := score.val;
      } else {
        r := 0;
      }
    }
  }
}
