/** game/game.go: the game's globals (the frame counter, the roster, the
    title, the local peer, the apple and the hunger period) as one World
    object, with the round reset, the per-frame update gated by the title,
    the cheat codes and the lookup of the local player's snake. Peers,
    button reads and random draws come in as parameters. */
module GameDriver {
  import opened Platform
  import opened GameScore
  import opened GameApple
  import opened GameSnake
  import opened GameSnakes
  import opened GameTitle

  /** The first index from `from` on whose snake belongs to `me`, or |items|
      when there is none. */
  function FirstOf(items: seq<Snake>, me: Peer, from: nat): (k: nat)
    requires from <= |items|
    ensures from <= k <= |items|
    ensures k < |items| ==> items[k].peer == me
    ensures forall j :: from <= j < k ==> items[j].peer != me
    decreases |items| - from
  {
    if from == |items| then |items|
    else if items[from].peer == me then from
    else FirstOf(items, me, from + 1)
  }

  /** Which snake getMySnake picks: the first one of the local peer, or the
      first snake of the roster when the local peer has none. */
  function MySnakeIndex(items: seq<Snake>, me: Peer): (k: nat)
    requires |items| >= 1
    ensures k < |items|
    ensures (exists i :: 0 <= i < |items| && items[i].peer == me) ==>
      items[k].peer == me && forall j :: 0 <= j < k ==> items[j].peer != me
    ensures (forall i :: 0 <= i < |items| ==> items[i].peer != me) ==> k == 0
  {
    var m := FirstOf(items, me, 0);
    if m < |items| then m else 0
  }

  /** The roster newSnakes builds: one new snake per peer, in peer order. */
  ghost predicate FreshRoster(ss: Snakes, peers: seq<Peer>, me: Peer, hungerPeriod: Uint16)
    reads ss, ObjectsOf(ss.items)
  {
    |ss.items| == |peers| &&
    forall i :: 0 <= i < |peers| ==>
      ss.items[i].peer == peers[i] && ss.items[i].Snap() == NewSnakeState(peers[i], me, hungerPeriod)
  }

  /** The number of iterations of `for i := 0; i < v; i++`. */
  function Iterations(v: int): (n: nat)
    ensures v >= 0 ==> n == v
    ensures v < 0 ==> n == 0
  {
    if v > 0 then v else 0
  }

  /** The loop of cheat code 2: inc, `v` times. */
  method IncTimes(score: Score, hungerPeriod: Uint16, v: int) returns (newPeriod: Uint16)
    modifies score
    ensures (score.State(), newPeriod) == IncrementedTimes(old(score.State()), hungerPeriod, Iterations(v))
  {
    ghost var goal := IncrementedTimes(score.State(), hungerPeriod, Iterations(v));
    newPeriod := hungerPeriod;
    var i := 0;
    while i < v
      invariant 0 <= i <= Iterations(v)
      invariant IncrementedTimes(score.State(), newPeriod, Iterations(v) - i) == goal
    {
      newPeriod := score.Inc(newPeriod);
      i := i + 1;
    }
  }

  /** The loop of cheat code 3: dec, `v` times. */
  method DecTimes(score: Score, v: int)
    modifies score
    ensures score.State() == DecrementedTimes(old(score.State()), Iterations(v))
  {
    ghost var goal := DecrementedTimes(score.State(), Iterations(v));
    var i := 0;
    while i < v
      invariant 0 <= i <= Iterations(v)
      invariant DecrementedTimes(score.State(), Iterations(v) - i) == goal
    {
      score.Dec();
      i := i + 1;
    }
  }

  /** The world object is neither a snake nor a score. */
  lemma OutsideRoster(items: seq<Snake>, w: World)
    ensures w !in ObjectsOf(items)
  {
  }

  class World {
    /** The local peer. */
    const me: Peer
    /** The apple (a package-level value in the source). */
    const apple: Apple
    /** The frame counter and the hunger period of game/score.go. */
    const globals: Globals
    var snakes: Snakes
    var title: Title?

    ghost predicate Valid()
      reads this, snakes, ObjectsOf(snakes.items)
    {
      snakes.Valid()
    }

    /** Boot: the local peer is read and the first round starts. The hunger
        period is the zero value of its type, as nothing in the source sets
        it before the first inc. */
    constructor (me: Peer, peers: seq<Peer>, drawX: Uint32, drawY: Uint32)
      ensures Valid() && this.me == me && globals.hungerPeriod == 0
      ensures globals.frame == 0 && title == null && FreshRoster(snakes, peers, me, 0)
      ensures apple.pos == MovedPos(drawX, drawY)
    {
      this.me := me;
      globals := new Globals(0, 0);
      apple := new Apple(drawX, drawY);
      snakes := new Snakes(peers, me, 0);
      title := null;
    }

    /** resetGame: a new roster from the current peers, a newly placed
        apple, the frame counter at zero and no title. The hunger period is
        not reset. */
    method ResetGame(peers: seq<Peer>, drawX: Uint32, drawY: Uint32)
      modifies this, apple, globals
      ensures Valid() && fresh(ObjectsOf(snakes.items))
      ensures globals.frame == 0 && title == null && FreshRoster(snakes, peers, me, globals.hungerPeriod)
      ensures apple.pos == MovedPos(drawX, drawY) && globals.hungerPeriod == old(globals.hungerPeriod)
    {
      apple.Move(drawX, drawY);
      globals.frame := 0;
      title := null;
      snakes := new Snakes(peers, me, globals.hungerPeriod);
    }

    /** Update. While a title is shown only the title is updated, and the
        round is reset when it asks for it (`peers` and the draws are then
        those of resetGame). Otherwise the frame counter goes up by one and
        the roster is updated with each snake's `inputs`; the result holds
        the snakes' elimination signals. */
    method Update(anyButton: bool, peers: seq<Peer>, drawX: Uint32, drawY: Uint32, inputs: seq<SnakeInput>)
      returns (eliminated: seq<bool>)
      requires Valid()
      requires title == null ==> |inputs| == |snakes.items|
      modifies this, apple, globals, ObjectsOf(snakes.items)
      modifies if title == null then {} else {title}
      ensures Valid()
      ensures old(title) != null ==> eliminated == [] && TitleShown(old(title), old(title.State()), anyButton, peers, drawX, drawY)
      ensures old(title) != null ==> globals.hungerPeriod == old(globals.hungerPeriod)
      ensures old(title) != null && !TitleTicked(old(title.State()), anyButton).1 ==>
        unchanged(globals) && snakes == old(snakes) && apple.pos == old(apple.pos) &&
        SnapsOf(snakes.items) == old(SnapsOf(snakes.items))
      ensures old(title) == null ==> (title == null && snakes == old(snakes) &&
        Progress(SnapsOf(snakes.items), apple.pos, globals.frame, globals.hungerPeriod, eliminated) ==
          RosterUpdated(old(SnapsOf(snakes.items)), inputs, old(apple.pos), old(globals.frame) + 1, old(globals.hungerPeriod), |inputs|))
    {
      if title != null {
        UpdateTitle(anyButton, peers, drawX, drawY);
        return [];
      }
      eliminated := UpdateRoster(inputs);
    }

    /** The frame under a title: the title counts down, and when it asks
        for a reset the new round has started. */
    ghost predicate TitleShown(was: Title, wasState: TitleState, anyButton: bool, peers: seq<Peer>, drawX: Uint32, drawY: Uint32)
      reads this, snakes, ObjectsOf(snakes.items), apple, globals, was
    {
      var (t, due) := TitleTicked(wasState, anyButton);
      (due ==> (globals.frame == 0 && title == null && FreshRoster(snakes, peers, me, globals.hungerPeriod) &&
        apple.pos == MovedPos(drawX, drawY))) &&
      (!due ==> title == was && was.State() == t)
    }

    /** Update while a title is shown. */
    method UpdateTitle(anyButton: bool, peers: seq<Peer>, drawX: Uint32, drawY: Uint32)
      requires Valid() && title != null
      modifies this, apple, globals, title
      ensures Valid() && globals.hungerPeriod == old(globals.hungerPeriod)
      ensures TitleShown(old(title), old(title.State()), anyButton, peers, drawX, drawY)
      ensures !TitleTicked(old(title.State()), anyButton).1 ==>
        unchanged(globals) && snakes == old(snakes) && apple.pos == old(apple.pos)
    {
      assert title !in ObjectsOf(snakes.items);
      var reset := title.Update(anyButton);
      if reset {
        ResetGame(peers, drawX, drawY);
      }
    }

    /** Update without a title. */
    method UpdateRoster(inputs: seq<SnakeInput>) returns (eliminated: seq<bool>)
      requires Valid() && title == null && |inputs| == |snakes.items|
      modifies apple, globals, ObjectsOf(snakes.items)
      ensures Valid()
      ensures Progress(SnapsOf(snakes.items), apple.pos, globals.frame, globals.hungerPeriod, eliminated) ==
        RosterUpdated(old(SnapsOf(snakes.items)), inputs, old(apple.pos), old(globals.frame) + 1, old(globals.hungerPeriod), |inputs|)
    {
      OutsideRoster(snakes.items, this);
      OutsideRosterGlobals(snakes.items, globals);
      ghost var before := SnapsOf(snakes.items);
      globals.frame := globals.frame + 1;
      assert SnapsOf(snakes.items) == before;
      eliminated := UpdateSnakes(snakes, apple, globals, inputs);
    }

    /** getMySnake; the roster must not be empty. */
    method GetMySnake() returns (s: Snake)
      requires |snakes.items| >= 1
      ensures s == snakes.items[MySnakeIndex(snakes.items, me)]
    {
      var i := 0;
      while i < |snakes.items|
        invariant 0 <= i <= |snakes.items|
        invariant forall j :: 0 <= j < i ==> snakes.items[j].peer != me
      {
        if snakes.items[i].peer == me {
          assert FirstOf(snakes.items, me, 0) == i;
          return snakes.items[i];
        }
        i := i + 1;
      }
      return snakes.items[0];
    }

    /** Cheat. Code 1 moves the apple (with the draws) and answers 1; codes
        2 and 3 run inc or dec `v` times on the local player's score and
        answer the resulting score, which needs a non-empty roster; any
        other code answers 0 and changes nothing. */
    method Cheat(c: int, v: int, drawX: Uint32, drawY: Uint32) returns (r: int)
      requires Valid()
      requires c == 2 || c == 3 ==> |snakes.items| >= 1
      modifies apple, globals
      modifies if |snakes.items| >= 1 then {snakes.items[MySnakeIndex(snakes.items, me)].score} else {}
      ensures Valid()
      ensures globals.frame == old(globals.frame)
      ensures c == 1 ==> r == 1 && apple.pos == MovedPos(drawX, drawY) && globals.hungerPeriod == old(globals.hungerPeriod)
      ensures c == 2 ==> (apple.pos == old(apple.pos) &&
        var score := snakes.items[MySnakeIndex(snakes.items, me)].score;
        (score.State(), globals.hungerPeriod) == IncrementedTimes(old(score.State()), old(globals.hungerPeriod), Iterations(v)) &&
        r == score.val)
      ensures c == 3 ==> (apple.pos == old(apple.pos) && globals.hungerPeriod == old(globals.hungerPeriod) &&
        var score := snakes.items[MySnakeIndex(snakes.items, me)].score;
        score.State() == DecrementedTimes(old(score.State()), Iterations(v)) && r == score.val)
      ensures c != 1 && c != 2 && c != 3 ==>
        r == 0 && apple.pos == old(apple.pos) && globals.hungerPeriod == old(globals.hungerPeriod)
      ensures c != 2 && c != 3 ==> |snakes.items| >= 1 ==> unchanged(snakes.items[MySnakeIndex(snakes.items, me)].score)
    {
      ValidFromSnaps(snakes.items);
      if c == 1 {
        apple.Move(drawX, drawY);
        r := 1;
      } else if c == 2 {
        var s := GetMySnake();
        var p := IncTimes(s.score, globals.hungerPeriod, v);
        globals.hungerPeriod := p;
        r := s.score.val;
      } else if c == 3 {
        var s := GetMySnake();
        DecTimes(s.score, v);
        r := s.score.val;
      } else {
        r := 0;
      }
      SnapsFromValid(snakes.items);
    }
  }
}
