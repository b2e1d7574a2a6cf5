/** game/snakes.go: the roster of live snakes, its per-frame update in
    roster order, and the apple-placement test over all snakes.

    The update in the source calls `snake.update(&apple)` and then
    `snake.tryEat(&apple, &score)` and `score.update(snake)`, which match no
    signature in game/snake.go; the model runs the snake's update and its
    one-argument tryEat, and leaves the package-level `score.update` out.
    `s.collides` is defined outside the modelled files and is a parameter
    here. */
module GameSnakes {
  import opened Platform
  import opened GameScore
  import opened GameApple
  import opened GameSnake

  /** What the roster update has produced so far: the processed snakes, the
      shared apple position, the global frame counter and hunger period,
      and one elimination signal per processed snake. */
  datatype Progress = Progress(
    snakes: seq<SnakeState>, apple: Point, frame: int, hungerPeriod: Uint16, eliminated: seq<bool>)

  /** One snake's turn: update, then try to eat the apple as the previous
      turns left it. */
  function SnakeTurn(s: SnakeState, apple: Point, frame: int, hungerPeriod: Uint16, input: SnakeInput): (r: (SnakeState, Point, int, Uint16, bool))
    requires WellFormed(s)
    ensures WellFormed(r.0)
  {
    var (u, f, eliminated) := Updated(s, frame, hungerPeriod, input);
    var (e, a, p) := TryEaten(u, apple, hungerPeriod, input.appleDrawX, input.appleDrawY);
    (e, a, f, p, eliminated)
  }

  predicate AllWellFormed(snaps: seq<SnakeState>) {
    forall i :: 0 <= i < |snaps| ==> WellFormed(snaps[i])
  }

  /** A turn as the roster update sees it: from a snake, the apple, the
      frame counter, the hunger period and the snake's inputs to the new
      snake, apple, frame counter, hunger period and elimination signal. */
  type Turn = (SnakeState, Point, int, Uint16, SnakeInput) --> (SnakeState, Point, int, Uint16, bool)

  /** The turn is defined on every well-formed snake and keeps it well formed. */
  ghost predicate KeepsShape(turn: Turn) {
    forall s, a, f, p, x :: WellFormed(s) ==> turn.requires(s, a, f, p, x) && WellFormed(turn(s, a, f, p, x).0)
  }

  /** The roster update over the first n snakes: their turns in roster
      order, each one seeing the apple, frame and hunger period the turns
      before it left. */
  function Processed(turn: Turn, snaps: seq<SnakeState>, inputs: seq<SnakeInput>, n: nat, apple: Point, frame: int, hungerPeriod: Uint16): (r: Progress)
    requires KeepsShape(turn) && |inputs| == |snaps| && AllWellFormed(snaps) && n <= |snaps|
    ensures |r.snakes| == n && |r.eliminated| == n && AllWellFormed(r.snakes)
  {
    if n == 0 then Progress([], apple, frame, hungerPeriod, [])
    else
      var prev := Processed(turn, snaps, inputs, n - 1, apple, frame, hungerPeriod);
      var t := turn(snaps[n - 1], prev.apple, prev.frame, prev.hungerPeriod, inputs[n - 1]);
      Progress(prev.snakes + [t.0], t.1, t.2, t.3, prev.eliminated + [t.4])
  }

  /** Snake i's result is its own turn, taken on the shared state that the
      snakes before it in the roster left, and no later snake changes it. */
  lemma {:induction false} ProcessedInOrder(turn: Turn, snaps: seq<SnakeState>, inputs: seq<SnakeInput>, n: nat, apple: Point, frame: int, hungerPeriod: Uint16, i: nat)
    requires KeepsShape(turn) && |inputs| == |snaps| && AllWellFormed(snaps) && i < n <= |snaps|
    ensures var before := Processed(turn, snaps, inputs, i, apple, frame, hungerPeriod);
      var t := turn(snaps[i], before.apple, before.frame, before.hungerPeriod, inputs[i]);
      Processed(turn, snaps, inputs, n, apple, frame, hungerPeriod).snakes[i] == t.0 &&
      Processed(turn, snaps, inputs, n, apple, frame, hungerPeriod).eliminated[i] == t.4
  {
    if i < n - 1 {
      ProcessedInOrder(turn, snaps, inputs, n - 1, apple, frame, hungerPeriod, i);
    }
  }

  /** The turn reduces the frame counter modulo the period. */
  ghost predicate ReducesFrame(turn: Turn) {
    forall s, a, f, p, x :: WellFormed(s) && turn.requires(s, a, f, p, x) ==> turn(s, a, f, p, x).2 == GoRem(f, GameTypes.Period)
  }

  /** With at least one snake the global frame counter ends reduced modulo
      the period (the first snake does it, the others find it reduced);
      with none it is untouched. */
  lemma {:induction false} ProcessedFrame(turn: Turn, snaps: seq<SnakeState>, inputs: seq<SnakeInput>, n: nat, apple: Point, frame: int, hungerPeriod: Uint16)
    requires KeepsShape(turn) && ReducesFrame(turn) && |inputs| == |snaps| && AllWellFormed(snaps) && n <= |snaps|
    ensures n == 0 ==> Processed(turn, snaps, inputs, n, apple, frame, hungerPeriod).frame == frame
    ensures n > 0 ==> Processed(turn, snaps, inputs, n, apple, frame, hungerPeriod).frame == GoRem(frame, GameTypes.Period)
  {
    if n > 0 {
      ProcessedFrame(turn, snaps, inputs, n - 1, apple, frame, hungerPeriod);
      var r := GoRem(frame, GameTypes.Period);
      assert GoRem(r, GameTypes.Period) == r;
    }
  }

  /** The turn lowers the hunger period by at most one, and never below the
      floor once at it. */
  ghost predicate LowersPeriodByOne(turn: Turn) {
    forall s: SnakeState, a: Point, f: int, p: Uint16, x: SnakeInput :: WellFormed(s) && turn.requires(s, a, f, p, x) ==>
      var q: int := turn(s, a, f, p, x).3; q <= p && p - q <= 1 && (p >= HungerFloor ==> q >= HungerFloor)
  }

  /** The roster update lowers the hunger period by at most one per snake,
      and never below the floor once at it. */
  lemma {:induction false} ProcessedHungerPeriod(turn: Turn, snaps: seq<SnakeState>, inputs: seq<SnakeInput>, n: nat, apple: Point, frame: int, hungerPeriod: Uint16)
    requires KeepsShape(turn) && LowersPeriodByOne(turn) && |inputs| == |snaps| && AllWellFormed(snaps) && n <= |snaps|
    ensures var p := Processed(turn, snaps, inputs, n, apple, frame, hungerPeriod).hungerPeriod;
      p <= hungerPeriod && hungerPeriod as int - p as int <= n &&
      (hungerPeriod >= HungerFloor ==> p >= HungerFloor)
  {
    if n > 0 {
      ProcessedHungerPeriod(turn, snaps, inputs, n - 1, apple, frame, hungerPeriod);
    }
  }

  /** The snake's turn is defined on every well-formed snake and keeps it
      well formed. */
  lemma SnakeTurnKeepsShape()
    ensures KeepsShape(SnakeTurn)
  {
  }

  /** The snake's turn has the three properties the roster lemmas ask for. */
  lemma SnakeTurnProperties()
    ensures KeepsShape(SnakeTurn) && ReducesFrame(SnakeTurn) && LowersPeriodByOne(SnakeTurn)
  {
  }

  lemma SpliceStep<T>(done: seq<T>, all: seq<T>, i: nat, x: T)
    requires |done| == i < |all|
    ensures (done + all[i..])[i := x] == (done + [x]) + all[i + 1..]
  {
    var lhs, rhs := (done + all[i..])[i := x], (done + [x]) + all[i + 1..];
    assert |lhs| == |rhs|;
    assert forall j :: 0 <= j < |lhs| ==> lhs[j] == rhs[j];
  }

  /** The snapshots of the first n snakes. */
  ghost function SnapsUpTo(items: seq<Snake>, n: nat): (r: seq<SnakeState>)
    requires n <= |items|
    reads ObjectsOf(items)
    ensures |r| == n
  {
    if n == 0 then []
    else
      assert items[n - 1] in items;
      SnapsUpTo(items, n - 1) + [items[n - 1].Snap()]
  }

  /** The snapshots of all the snakes, in roster order. */
  ghost function SnapsOf(items: seq<Snake>): (r: seq<SnakeState>)
    reads ObjectsOf(items)
    ensures |r| == |items|
  {
    SnapsUpTo(items, |items|)
  }

  lemma {:induction false} SnapsUpToAt(items: seq<Snake>, n: nat, i: nat)
    requires i < n <= |items|
    ensures SnapsUpTo(items, n)[i] == items[i].Snap()
  {
    if i < n - 1 {
      SnapsUpToAt(items, n - 1, i);
    }
  }

  lemma SnapsOfAt(items: seq<Snake>)
    ensures forall i :: 0 <= i < |items| ==> SnapsOf(items)[i] == items[i].Snap()
  {
    forall i | 0 <= i < |items|
      ensures SnapsOf(items)[i] == items[i].Snap()
    {
      SnapsUpToAt(items, |items|, i);
    }
  }

  lemma ValidFromSnaps(items: seq<Snake>)
    requires AllWellFormed(SnapsOf(items))
    ensures forall j :: 0 <= j < |items| ==> items[j].Valid()
  {
    SnapsOfAt(items);
  }

  lemma SnapsFromValid(items: seq<Snake>)
    requires forall j :: 0 <= j < |items| ==> items[j].Valid()
    ensures AllWellFormed(SnapsOf(items))
  {
    SnapsOfAt(items);
  }

  /** The package-level counters the snakes share: the frame counter
      (of game/game.go and game/main.go) and the hunger period (of
      game/score.go). */
  class Globals {
    var frame: int
    var hungerPeriod: Uint16

    constructor (frame: int, hungerPeriod: Uint16)
      ensures this.frame == frame && this.hungerPeriod == hungerPeriod
    {
      this.frame, this.hungerPeriod := frame, hungerPeriod;
    }
  }

  /** The counters are neither a snake nor a score. */
  lemma OutsideRosterGlobals(items: seq<Snake>, g: Globals)
    ensures g !in ObjectsOf(items)
  {
  }

  /** One snake's turn, carried out on the snake, its score, the apple and
      the package-level counters. */
  method TakeTurn(snake: Snake, apple: Apple, globals: Globals, input: SnakeInput) returns (eliminated: bool)
    requires snake.Valid()
    modifies snake, snake.score, apple, globals
    ensures snake.Valid()
    ensures (snake.Snap(), apple.pos, globals.frame, globals.hungerPeriod, eliminated) ==
      SnakeTurn(old(snake.Snap()), old(apple.pos), old(globals.frame), old(globals.hungerPeriod), input)
  {
    var f;
    f, eliminated := snake.Update(globals.frame, globals.hungerPeriod, input);
    globals.frame := f;
    var p := snake.TryEat(apple, globals.hungerPeriod, input.appleDrawX, input.appleDrawY);
    globals.hungerPeriod := p;
  }

  /** No snake, and no score object, appears twice. */
  ghost predicate Distinct(items: seq<Snake>) {
    forall i, j :: 0 <= i < |items| && 0 <= j < |items| && i != j ==>
      items[i] != items[j] && items[i].score != items[j].score
  }

  /** Snake i of the roster takes its turn; the other snakes are untouched. */
  method TurnAt(items: seq<Snake>, i: nat, apple: Apple, globals: Globals, input: SnakeInput) returns (eliminated: bool)
    requires i < |items| && Distinct(items) && WellFormed(SnapsOf(items)[i])
    modifies items[i], items[i].score, apple, globals
    ensures var turn := SnakeTurn(old(SnapsOf(items))[i], old(apple.pos), old(globals.frame), old(globals.hungerPeriod), input);
      SnapsOf(items) == old(SnapsOf(items))[i := turn.0] &&
      (apple.pos, globals.frame, globals.hungerPeriod, eliminated) == (turn.1, turn.2, turn.3, turn.4)
  {
    ghost var was := SnapsOf(items);
    SnapsOfAt(items);
    assert forall j :: 0 <= j < |items| && j != i ==> items[j] != items[i] && items[j].score != items[i].score;
    eliminated := TakeTurn(items[i], apple, globals, input);
    SnapsOfAt(items);
    assert forall j :: 0 <= j < |items| ==> SnapsOf(items)[j] == was[i := items[i].Snap()][j];
  }

  class Snakes {
    var items: seq<Snake>

    /** Every snake is well formed, and no snake or score object appears
        twice in the roster. */
    ghost predicate Valid()
      reads this, ObjectsOf(items)
    {
      Distinct(items) && AllWellFormed(SnapsOf(items))
    }

    /** The snakes and their scores. */
    ghost function Objects(): set<object>
      reads this
    {
      ObjectsOf(items)
    }

    /** newSnakes: one snake per peer, in peer order. */
    constructor (peers: seq<Peer>, me: Peer, hungerPeriod: Uint16)
      ensures Valid() && |items| == |peers| && fresh(Objects())
      ensures forall i :: 0 <= i < |peers| ==>
        items[i].peer == peers[i] && items[i].Snap() == NewSnakeState(peers[i], me, hungerPeriod)
    {
      var built := NewRoster(peers, me, hungerPeriod);
      assert forall s :: s in built ==> fresh(s) && fresh(s.score);
      items := built;
      new;
      NewRosterWellFormed(items, peers, me, hungerPeriod);
    }
  }

  /** The loop of newSnakes: a fresh snake for each peer. */
  method NewRoster(peers: seq<Peer>, me: Peer, hungerPeriod: Uint16) returns (built: seq<Snake>)
    ensures |built| == |peers| && Distinct(built)
    ensures forall j :: 0 <= j < |built| ==> fresh(built[j]) && fresh(built[j].score)
    ensures forall j :: 0 <= j < |built| ==>
      built[j].peer == peers[j] && built[j].Snap() == NewSnakeState(peers[j], me, hungerPeriod)
  {
    built := [];
    var i := 0;
    while i < |peers|
      invariant 0 <= i <= |peers| && |built| == i && Distinct(built)
      invariant forall j :: 0 <= j < i ==> fresh(built[j]) && fresh(built[j].score)
      invariant forall j :: 0 <= j < i ==>
        built[j].peer == peers[j] && built[j].Snap() == NewSnakeState(peers[j], me, hungerPeriod)
    {
      var snake := new Snake(peers[i], me, hungerPeriod);
      built := built + [snake];
      i := i + 1;
    }
  }

  lemma NewRosterWellFormed(items: seq<Snake>, peers: seq<Peer>, me: Peer, hungerPeriod: Uint16)
    requires |items| == |peers|
    requires forall j :: 0 <= j < |items| ==> items[j].Snap() == NewSnakeState(peers[j], me, hungerPeriod)
    ensures AllWellFormed(SnapsOf(items))
  {
    SnapsOfAt(items);
    forall j | 0 <= j < |items|
      ensures WellFormed(SnapsOf(items)[j])
    {
      NewSnakeShape(peers[j], me, hungerPeriod);
    }
  }

  /** The snakes and their scores, as a set of objects. */
  ghost function ObjectsOf(items: seq<Snake>): set<object> {
    (set s | s in items :: s as object) + (set s | s in items :: s.score as object)
  }

  /** The state of the loop of Snakes.update after i snakes: the first i
      snakes, the apple, the frame counter, the hunger period and the
      signals are the fold over those i snakes, and the others are as the
      loop found them. */
  ghost predicate RosterAfter(items: seq<Snake>, applePos: Point, frame: int, hungerPeriod: Uint16, eliminated: seq<bool>,
                              i: nat, before: seq<SnakeState>, inputs: seq<SnakeInput>, prog: Progress,
                              apple0: Point, frame0: int, period0: Uint16)
    reads ObjectsOf(items)
  {
    i <= |items| == |before| == |inputs| && KeepsShape(SnakeTurn) && AllWellFormed(before) &&
    prog == Processed(SnakeTurn, before, inputs, i, apple0, frame0, period0) &&
    SnapsOf(items) == prog.snakes + before[i..] &&
    applePos == prog.apple && frame == prog.frame && hungerPeriod == prog.hungerPeriod && eliminated == prog.eliminated
  }

  /** One pass of the loop of Snakes.update: snake i's turn, on the shared
      state the snakes before it left. */
  method RosterStep(items: seq<Snake>, i: nat, apple: Apple, globals: Globals, eliminated: seq<bool>,
                    inputs: seq<SnakeInput>, ghost before: seq<SnakeState>, ghost prog: Progress,
                    ghost apple0: Point, ghost frame0: int, ghost period0: Uint16)
    returns (newEliminated: seq<bool>, ghost next: Progress)
    requires i < |items| && Distinct(items)
    requires RosterAfter(items, apple.pos, globals.frame, globals.hungerPeriod, eliminated, i, before, inputs, prog, apple0, frame0, period0)
    modifies items[i], items[i].score, apple, globals
    ensures RosterAfter(items, apple.pos, globals.frame, globals.hungerPeriod, newEliminated, i + 1, before, inputs, next, apple0, frame0, period0)
  {
    ghost var turn := SnakeTurn(before[i], prog.apple, prog.frame, prog.hungerPeriod, inputs[i]);
    SpliceStep(prog.snakes, before, i, turn.0);
    var e;
    e := TurnAt(items, i, apple, globals, inputs[i]);
    newEliminated := eliminated + [e];
    next := Progress(prog.snakes + [turn.0], turn.1, turn.2, turn.3, prog.eliminated + [turn.4]);
  }

  /** The roster update over the first n snakes, starting from the snakes
      `before`, the apple, the frame counter and the hunger period. */
  ghost function RosterUpdated(before: seq<SnakeState>, inputs: seq<SnakeInput>, apple: Point, frame: int,
                               hungerPeriod: Uint16, n: nat): Progress
    requires |inputs| == |before| && AllWellFormed(before) && n <= |before|
  {
    SnakeTurnKeepsShape();
    Processed(SnakeTurn, before, inputs, n, apple, frame, hungerPeriod)
  }

  /** The loop of Snakes.update over the roster's snakes. */
  method RunRoster(items: seq<Snake>, apple: Apple, globals: Globals, inputs: seq<SnakeInput>) returns (eliminated: seq<bool>)
    requires Distinct(items) && AllWellFormed(SnapsOf(items)) && |inputs| == |items|
    modifies ObjectsOf(items), apple, globals
    ensures Progress(SnapsOf(items), apple.pos, globals.frame, globals.hungerPeriod, eliminated) ==
      RosterUpdated(old(SnapsOf(items)), inputs, old(apple.pos), old(globals.frame), old(globals.hungerPeriod), |inputs|)
  {
    SnakeTurnKeepsShape();
    ghost var before := SnapsOf(items);
    ghost var apple0, frame0, period0 := apple.pos, globals.frame, globals.hungerPeriod;
    ghost var prog := Processed(SnakeTurn, before, inputs, 0, apple0, frame0, period0);
    assert before[0..] == before;
    eliminated := [];
    var i := 0;
    while i < |items|
      invariant RosterAfter(items, apple.pos, globals.frame, globals.hungerPeriod, eliminated, i, before, inputs, prog, apple0, frame0, period0)
    {
      assert items[i] in items;
      assert items[i] in ObjectsOf(items) && items[i].score in ObjectsOf(items);
      eliminated, prog := RosterStep(items, i, apple, globals, eliminated, inputs, before, prog, apple0, frame0, period0);
      i := i + 1;
    }
    assert before[i..] == [];
  }

  /** Snakes.update; a nil roster does nothing. `inputs` holds each snake's
      inputs for this frame, in roster order. */
  method UpdateSnakes(ss: Snakes?, apple: Apple, globals: Globals, inputs: seq<SnakeInput>) returns (eliminated: seq<bool>)
    requires ss != null ==> ss.Valid() && |inputs| == |ss.items|
    modifies if ss == null then {} else ObjectsOf(ss.items)
    modifies apple, globals
    ensures ss == null ==> eliminated == [] && unchanged(apple, globals)
    ensures ss != null ==> (ss.Valid() &&
      Progress(SnapsOf(ss.items), apple.pos, globals.frame, globals.hungerPeriod, eliminated) ==
      RosterUpdated(old(SnapsOf(ss.items)), inputs, old(apple.pos), old(globals.frame), old(globals.hungerPeriod), |inputs|))
  {
    if ss == null {
      return [];
    }
    eliminated := RunRoster(ss.items, apple, globals, inputs);
  }

  /** Snakes.appleInside; `collides` stands for Snake.collides. */
  method AppleInside(ss: Snakes?, pos: Point, collides: (Snake, Point) -> bool) returns (r: bool)
    ensures r <==> ss != null && exists i :: 0 <= i < |ss.items| && collides(ss.items[i], pos)
  {
    if ss == null {
      return false;
    }
    var i := 0;
    while i < |ss.items|
      invariant 0 <= i <= |ss.items|
      invariant forall j :: 0 <= j < i ==> !collides(ss.items[j], pos)
    {
      if collides(ss.items[i], pos) {
        return true;
      }
      i := i + 1;
    }
    return false;
  }

  /** What the whole roster update does to the shared counters: with at
      least one snake the frame counter ends reduced modulo the period, with
      none it is untouched; the hunger period falls by at most one per snake
      and never below the floor once at it. */
  lemma RosterCounters(before: seq<SnakeState>, inputs: seq<SnakeInput>, apple: Point, frame: int, hungerPeriod: Uint16)
    requires |inputs| == |before| && AllWellFormed(before)
    ensures var after := RosterUpdated(before, inputs, apple, frame, hungerPeriod, |before|);
      |after.snakes| == |before| && |after.eliminated| == |before| && AllWellFormed(after.snakes) &&
      (|before| == 0 ==> after.frame == frame) &&
      (|before| > 0 ==> after.frame == GoRem(frame, GameTypes.Period)) &&
      after.hungerPeriod <= hungerPeriod && hungerPeriod as int - after.hungerPeriod as int <= |before| &&
      (hungerPeriod >= HungerFloor ==> after.hungerPeriod >= HungerFloor)
  {
    SnakeTurnProperties();
    ProcessedFrame(SnakeTurn, before, inputs, |inputs|, apple, frame, hungerPeriod);
    ProcessedHungerPeriod(SnakeTurn, before, inputs, |inputs|, apple, frame, hungerPeriod);
  }

  /** Snake i of the roster ends as its own turn left it, taken on the
      apple, frame counter and hunger period the snakes before it left. */
  lemma RosterInOrder(before: seq<SnakeState>, inputs: seq<SnakeInput>, apple: Point, frame: int, hungerPeriod: Uint16, i: nat)
    requires |inputs| == |before| && AllWellFormed(before) && i < |before|
    ensures var after := RosterUpdated(before, inputs, apple, frame, hungerPeriod, |before|);
      var prev := RosterUpdated(before, inputs, apple, frame, hungerPeriod, i);
      var t := SnakeTurn(before[i], prev.apple, prev.frame, prev.hungerPeriod, inputs[i]);
      after.snakes[i] == t.0 && after.eliminated[i] == t.4
  {
    SnakeTurnKeepsShape();
    ProcessedInOrder(SnakeTurn, before, inputs, |inputs|, apple, frame, hungerPeriod, i);
  }
}
