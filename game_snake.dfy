/** game/snake.go: the body chain of a snake, its movement state machine,
    eating, apple/body containment and bite detection.

    The chain of Segment nodes is held as the sequence of the nodes' points,
    neck first (`body[k]` is node k), and the hurt flag of each node beside
    it (`spanHurt[k]`). Node k has a successor, and so a span, when
    k + 1 < |body|. The floating-point steps (the cos/sin step of a shift,
    the mouth interpolation, the gaze offset) come in as integer inputs. */
module GameSnake {
  import opened Platform
  import opened GameMath
  import opened GameTypes
  import opened GameBBox
  import opened GameSegment
  import opened GameScore
  import opened GameApple
  import opened GameEye

  /** What one frame of one snake reads from outside the model: the integer
      shift step (int(cos(dir)*segmentLen), int(sin(dir)*segmentLen)), the
      mouth step for this frame, the gaze offset, and the random draws of
      the blink timer and of an apple move. */
  datatype SnakeInput = SnakeInput(
    step: Point, mouthStep: Point, gaze: Point,
    blinkDraw: Uint32, blinkMaxDraw: Uint32,
    appleDrawX: Uint32, appleDrawY: Uint32)

  /** The value of a Snake's fields, with its score's. */
  datatype SnakeState = SnakeState(
    body: seq<Point>, spanHurt: seq<bool>,
    mouth: Point, eye: Point,
    blinkCounter: int, blinkMaxTime: int,
    state: State, youTTL: Uint8, score: ScoreState)

  /** A chain has a neck node and at least one more, and one hurt flag per
      node. */
  predicate WellFormed(s: SnakeState) {
    |s.body| >= 2 && |s.spanHurt| == |s.body|
  }

  /** Frames the "you" label is shown above the local player's snake. */
  const YouTTL: Uint8 := 180

  function StartRow(peer: Peer): int {
    10 + SnakeWidth + peer * 20
  }

  /** newSnake. */
  function NewSnakeState(peer: Peer, me: Peer, hungerPeriod: Uint16): (r: SnakeState)
    ensures WellFormed(r) && r.state == Moving && r.score == NewScoreState(hungerPeriod)
    ensures r.body[0].X - r.body[1].X == SegmentLen && r.body[0].Y == r.body[1].Y
    ensures r.youTTL > 0 <==> peer == me
  {
    SnakeState(
      [Point(SegmentLen * 2, StartRow(peer)), Point(SegmentLen, StartRow(peer))], [false, false],
      Point(0, 0), Point(0, 0), 0, 0, Moving,
      if peer == me then YouTTL else 0, NewScoreState(hungerPeriod))
  }

  /** A new snake is a well-formed two-node chain, lying on its own row,
      with the "you" label only for the local player. */
  lemma NewSnakeShape(peer: Peer, me: Peer, hungerPeriod: Uint16)
    ensures var s := NewSnakeState(peer, me, hungerPeriod);
      WellFormed(s) && |s.body| == 2 && s.state == Moving &&
      s.body[0] == Point(2 * SegmentLen, 10 + SnakeWidth + 20 * peer) &&
      s.body[1] == Point(SegmentLen, 10 + SnakeWidth + 20 * peer) &&
      (s.youTTL == 180 <==> peer == me) && (peer != me ==> s.youTTL == 0)
  {
  }

  /** The neck moved by an integer step and wrapped onto the screen (the
      step's Y is subtracted, as the screen's Y grows downwards): where
      shift puts the new head and where updateMouth puts the mouth. */
  function Stepped(neck: Point, step: Point): (r: Point)
    ensures (r.X - (neck.X + step.X)) % Width == 0 && (r.Y - (neck.Y - step.Y)) % Height == 0
    ensures 0 <= neck.X < Width && -Width <= step.X < Width ==> 0 <= r.X < Width
    ensures 0 <= neck.Y < Height && -Height < step.Y <= Height ==> 0 <= r.Y < Height
  {
    Point(NormalizeX(neck.X + step.X), NormalizeY(neck.Y - step.Y))
  }

  /** shift: a growing snake gains a node at the front holding the new head;
      otherwise every point moves one node toward the tail, the new head
      goes into the neck node and the old tail point is dropped. */
  function Shifted(s: SnakeState, step: Point): (r: SnakeState)
    requires WellFormed(s)
    ensures WellFormed(r)
    ensures r.body[0] == Stepped(s.body[0], step)
    ensures s.state == Growing ==>
      |r.body| == |s.body| + 1 && r.body[1..] == s.body &&
      r.spanHurt == [false] + s.spanHurt && r.state == Moving
    ensures s.state != Growing ==>
      |r.body| == |s.body| && r.spanHurt == s.spanHurt &&
      (forall k :: 0 <= k < |s.body| - 1 ==> r.body[k + 1] == s.body[k])
    ensures s.state == Eating ==> r.state == Growing
    ensures s.state == Moving ==> r.state == Moving
    ensures r == s.(body := r.body, spanHurt := r.spanHurt, state := r.state)
  {
    var head := Stepped(s.body[0], step);
    if s.state == Growing then
      s.(body := [head] + s.body, spanHurt := [false] + s.spanHurt, state := Moving)
    else
      s.(body := [head] + s.body[..|s.body| - 1], state := if s.state == Eating then Growing else s.state)
  }

  /** The movement state steps moving -> moving, eating -> growing,
      growing -> moving, and only a growing shift changes the length. */
  lemma ShiftCycle(s: SnakeState, step: Point)
    requires WellFormed(s)
    ensures var r := Shifted(s, step);
      (r.state == Growing <==> s.state == Eating) &&
      (|r.body| == |s.body| + 1 <==> s.state == Growing) &&
      (|r.body| == |s.body| <==> s.state != Growing)
  {
  }

  /** The part of update that moves the snake itself on frame counter f
      (already reduced): count down the "you" label, shift on the first
      frame of a period, place the mouth and the eye, and advance the blink
      timer. The score is left alone. */
  function Advanced(s: SnakeState, f: int, input: SnakeInput): (r: SnakeState)
    requires WellFormed(s)
    ensures WellFormed(r) && r.score == s.score
  {
    Placed(Moved(s, f, input.step), input)
  }

  /** The first half of the movement: the "you" label counts down and, on
      the first frame of a period, the chain shifts. */
  function Moved(s: SnakeState, f: int, step: Point): (r: SnakeState)
    requires WellFormed(s)
    ensures WellFormed(r) && r.score == s.score
    ensures r.mouth == s.mouth && r.eye == s.eye
    ensures r.blinkCounter == s.blinkCounter && r.blinkMaxTime == s.blinkMaxTime
  {
    var ttl := if s.youTTL > 0 then s.youTTL - 1 else s.youTTL;
    if f == 0 then Shifted(s.(youTTL := ttl), step) else s.(youTTL := ttl)
  }

  /** The second half of the movement: the mouth and the eye follow the
      neck and the blink timer advances; nothing else changes. */
  function Placed(m: SnakeState, input: SnakeInput): (r: SnakeState)
    requires WellFormed(m)
    ensures WellFormed(r)
    ensures r == m.(mouth := r.mouth, eye := r.eye, blinkCounter := r.blinkCounter, blinkMaxTime := r.blinkMaxTime)
  {
    var mouth := Stepped(m.body[0], input.mouthStep);
    var eye := Point(mouth.X + input.gaze.X, mouth.Y + input.gaze.Y);
    var (counter, maxTime) := BlinkStep(m.blinkCounter, m.blinkMaxTime, input.blinkDraw, input.blinkMaxDraw);
    m.(mouth := mouth, eye := eye, blinkCounter := counter, blinkMaxTime := maxTime)
  }

  /** What the movement does: the "you" label counts down to zero and
      stays there, the chain shifts exactly on the first frame of a period
      and is otherwise untouched, the mouth sits next to the (new) neck and
      the blink timer advances and stays below its maximum. */
  lemma AdvancedSpec(s: SnakeState, f: int, input: SnakeInput)
    requires WellFormed(s)
    ensures var r := Advanced(s, f, input);
      (s.youTTL > 0 ==> r.youTTL == s.youTTL - 1) &&
      (s.youTTL == 0 ==> r.youTTL == 0) &&
      (f == 0 ==> (r.body == Shifted(s, input.step).body && r.spanHurt == Shifted(s, input.step).spanHurt &&
        r.state == Shifted(s, input.step).state)) &&
      (f != 0 ==> r.body == s.body && r.spanHurt == s.spanHurt && r.state == s.state) &&
      r.mouth == Stepped(r.body[0], input.mouthStep) &&
      (r.blinkCounter, r.blinkMaxTime) == BlinkStep(s.blinkCounter, s.blinkMaxTime, input.blinkDraw, input.blinkMaxDraw) &&
      r.blinkCounter <= r.blinkMaxTime
  {
  }

  /** update: reduce the frame counter modulo the period (Go's `%`), move
      the snake (Advanced) and tick the score; the movement and the score
      are independent of each other. The second component is the new frame
      counter, the third is the score's elimination signal. */
  function Updated(s: SnakeState, frame: int, hungerPeriod: Uint16, input: SnakeInput): (r: (SnakeState, int, bool))
    requires WellFormed(s)
    ensures WellFormed(r.0)
  {
    var f := GoRem(frame, Period);
    var (score, eliminated) := Ticked(s.score, hungerPeriod);
    (Advanced(s, f, input).(score := score), f, eliminated)
  }

  /** The frame counter ends in [0, Period) for a non-negative one, the
      score and the signal are the score's tick, and the rest is the
      movement. */
  lemma UpdatedParts(s: SnakeState, frame: int, hungerPeriod: Uint16, input: SnakeInput)
    requires WellFormed(s)
    ensures var r := Updated(s, frame, hungerPeriod, input);
      r.1 == GoRem(frame, Period) && (frame >= 0 ==> 0 <= r.1 < Period) &&
      (r.0.score, r.2) == Ticked(s.score, hungerPeriod) &&
      r.0.(score := s.score) == Advanced(s, r.1, input)
  {
  }

  /** tryEat's threshold: minDist = (appleRadius + snakeWidth + 2) / 2. */
  const MinDist: int := (AppleRadius + SnakeWidth + 2) / 2
  const MinDist2: int := MinDist * MinDist

  /** The mouth is within eating distance of the apple (the squared distance
      in integers). */
  predicate CanEat(mouth: Point, apple: Point): (r: bool)
    ensures r ==> -7 <= apple.X - mouth.X <= 7 && -7 <= apple.Y - mouth.Y <= 7
    ensures apple == mouth ==> r
  {
    var dx, dy := apple.X - mouth.X, apple.Y - mouth.Y;
    dx * dx + dy * dy <= MinDist2
  }

  /** tryEat: out of reach nothing changes; in reach the snake starts eating,
      the apple moves once and the score is incremented once. The result
      is the snake, the apple position and the hunger period. */
  function TryEaten(s: SnakeState, apple: Point, hungerPeriod: Uint16, drawX: Uint32, drawY: Uint32): (r: (SnakeState, Point, Uint16))
    ensures !CanEat(s.mouth, apple) ==> r == (s, apple, hungerPeriod)
    ensures CanEat(s.mouth, apple) ==>
      r.0 == s.(state := Eating, score := Incremented(s.score, hungerPeriod).0) &&
      r.1 == MovedPos(drawX, drawY) && r.2 == Incremented(s.score, hungerPeriod).1
  {
    if !CanEat(s.mouth, apple) then (s, apple, hungerPeriod)
    else
      var (score, period) := Incremented(s.score, hungerPeriod);
      (s.(state := Eating, score := score), MovedPos(drawX, drawY), period)
  }

  /** The eating radius is 7, so the squared threshold is 49: an apple on the
      mouth's row 7 pixels away is eaten and one 8 pixels away is not. */
  lemma EatingRadius(mouth: Point)
    ensures MinDist2 == 49
    ensures CanEat(mouth, Point(mouth.X + 7, mouth.Y))
    ensures !CanEat(mouth, Point(mouth.X + 8, mouth.Y))
    ensures !CanEat(mouth, Point(mouth.X + 5, mouth.Y + 5))
  {
  }

  /** The box newBBox builds for node k's span, with margin snakeWidth/2,
      contains p. As written that box is centred on the componentwise
      minimum of the span's ends (GameBBox.NewBBox). */
  predicate SpanCovers(body: seq<Point>, k: nat, p: Point): (r: bool)
    requires k + 1 < |body|
    ensures r ==> SpanCoversIntended(body, k, p)
  {
    var l := SpanLine(body, k);
    Contains(NewBBox(l.h, l.t, SnakeWidth / 2), p)
  }

  /** appleCollides as written: p lies in the box of some span after the
      neck span. */
  predicate BodyCovers(body: seq<Point>, p: Point): (r: bool)
    ensures r ==> |body| >= 3
  {
    exists k :: 1 <= k && k + 1 < |body| && SpanCovers(body, k, p)
  }

  /** The intended span test, on the box spanning both ends (GameBBox.SpanBox). */
  predicate SpanCoversIntended(body: seq<Point>, k: nat, p: Point)
    requires k + 1 < |body|
  {
    var l := SpanLine(body, k);
    Contains(SpanBox(l.h, l.t, SnakeWidth / 2), p)
  }

  /** The intended appleCollides, with the corrected box. */
  predicate BodyCoversIntended(body: seq<Point>, p: Point) {
    exists k :: 1 <= k && k + 1 < |body| && SpanCoversIntended(body, k, p)
  }

  /** The neck point takes no part in the body test. */
  lemma BodyCoversIgnoresNeck(body: seq<Point>, neck: Point, p: Point)
    requires |body| >= 1
    ensures BodyCovers(body, p) == BodyCovers([neck] + body[1..], p)
  {
    var other := [neck] + body[1..];
    assert forall k :: 1 <= k < |body| ==> other[k] == body[k];
    if BodyCovers(body, p) {
      var k :| 1 <= k && k + 1 < |body| && SpanCovers(body, k, p);
      assert SpanLine(other, k) == SpanLine(body, k);
      assert SpanCovers(other, k, p);
    }
    if BodyCovers(other, p) {
      var k :| 1 <= k && k + 1 < |other| && SpanCovers(other, k, p);
      assert SpanLine(other, k) == SpanLine(body, k);
      assert SpanCovers(body, k, p);
    }
  }

  /** With the intended box, both ends of every span after the neck span, as
      unwrapped, are inside the body. */
  lemma BodyCoversIntendedSpanEnds(body: seq<Point>, k: nat)
    requires 1 <= k && k + 1 < |body|
    ensures BodyCoversIntended(body, SpanLine(body, k).h) && BodyCoversIntended(body, SpanLine(body, k).t)
  {
    var l := SpanLine(body, k);
    SpanBoxCoversEnds(l.h, l.t, SnakeWidth / 2);
    assert SpanCoversIntended(body, k, l.h) && SpanCoversIntended(body, k, l.t);
  }

  /** Every point the as-written test finds is found by the intended one:
      the as-written box lies inside the intended box. */
  lemma BodyCoversWithinIntended(body: seq<Point>, p: Point)
    ensures BodyCovers(body, p) ==> BodyCoversIntended(body, p)
  {
    if BodyCovers(body, p) {
      var k :| 1 <= k && k + 1 < |body| && SpanCovers(body, k, p);
      assert SpanCoversIntended(body, k, p);
    }
  }

  /** As written, a point in the middle of a straight span is missed: with
      nodes at x = 28, 14 and 0 on one row, the point at x = 7 on the span
      from 14 to 0 does not collide, though the intended test finds it. */
  lemma BodyCoversMissesMidSpan()
    ensures var body := [Point(28, 17), Point(14, 17), Point(0, 17)];
      !BodyCovers(body, Point(7, 17)) && BodyCoversIntended(body, Point(7, 17))
  {
    var body := [Point(28, 17), Point(14, 17), Point(0, 17)];
    assert SpanLine(body, 1) == Line(Point(14, 17), Point(0, 17));
    assert SpanCoversIntended(body, 1, Point(7, 17));
  }

  /** A fresh two-node snake has only the neck span, so no apple collides. */
  lemma NewSnakeCollidesNowhere(peer: Peer, me: Peer, hungerPeriod: Uint16, p: Point)
    ensures !BodyCovers(NewSnakeState(peer, me, hungerPeriod).body, p)
  {
  }

  /** Where bites starts on the other snake: the node after the neck, or the
      one after that when the snake tests itself. */
  function BiteStart(n: nat, me: bool): nat {
    if 1 < n && me then 2 else 1
  }

  /** The synthetic neck line from the mouth to the neck node. */
  function NeckLine(s: SnakeState): Line
    requires |s.body| >= 1
  {
    LineOf(s.mouth, s.body[0])
  }

  /** The first span at or after `from` that the neck line crosses, or
      |body| if there is none. */
  function FirstHit(body: seq<Point>, from: nat, neck: Line): (k: nat)
    requires from <= |body|
    ensures from <= k <= |body|
    ensures k < |body| ==> k + 1 < |body| && Intersect(SpanLine(body, k), neck)
    ensures forall j :: from <= j < k && j + 1 < |body| ==> !Intersect(SpanLine(body, j), neck)
    decreases |body| - from
  {
    if from + 1 >= |body| then |body|
    else if Intersect(SpanLine(body, from), neck) then from
    else FirstHit(body, from + 1, neck)
  }

  /** The hurt flags once bites has examined the spans from `from` up to
      (not including) node `upto` without a hit: those spans are cleared. */
  function Cleared(hurt: seq<bool>, from: nat, upto: nat): (r: seq<bool>)
    ensures |r| == |hurt|
  {
    seq(|hurt|, j requires 0 <= j < |hurt| => if from <= j < upto && j + 1 < |hurt| then false else hurt[j])
  }

  /** The hurt flags after bites: the spans examined before node k are
      cleared and the hit span k (if k names a node) is flagged. */
  function HurtAfterBite(hurt: seq<bool>, from: nat, k: nat): (r: seq<bool>)
    requires from <= k
    ensures |r| == |hurt|
    ensures k < |hurt| ==> r[k]
    ensures forall j :: from <= j < k && j + 1 < |hurt| ==> !r[j]
    ensures forall j :: 0 <= j < |hurt| && j != k && (j < from || j > k || j + 1 == |hurt|) ==> r[j] == hurt[j]
  {
    if k < |hurt| then Cleared(hurt, from, k)[k := true] else Cleared(hurt, from, k)
  }

  /** One more examined node extends the cleared range. */
  lemma ClearedStep(hurt: seq<bool>, from: nat, seg: nat)
    requires from <= seg < |hurt|
    ensures seg + 1 < |hurt| ==> Cleared(hurt, from, seg)[seg := false] == Cleared(hurt, from, seg + 1)
    ensures seg + 1 == |hurt| ==> Cleared(hurt, from, seg) == Cleared(hurt, from, seg + 1)
  {
    if seg + 1 < |hurt| {
      var a, b := Cleared(hurt, from, seg)[seg := false], Cleared(hurt, from, seg + 1);
      assert forall j :: 0 <= j < |hurt| ==> a[j] == b[j];
    } else {
      var a, b := Cleared(hurt, from, seg), Cleared(hurt, from, seg + 1);
      assert forall j :: 0 <= j < |hurt| ==> a[j] == b[j];
    }
  }

  /** bites: does the neck line of `biter` cross a span of `other` (skipping
      its neck span, and also the next one when it bites itself)? The
      result is `other` with its hurt flags updated, and the verdict. */
  function Bitten(biter: SnakeState, me: bool, other: SnakeState): (r: (SnakeState, bool))
    requires |biter.body| >= 1 && WellFormed(other)
    ensures WellFormed(r.0) && r.0 == other.(spanHurt := r.0.spanHurt)
    ensures r.1 <==> exists k :: BiteStart(|other.body|, me) <= k && k + 1 < |other.body| &&
                                 Intersect(SpanLine(other.body, k), NeckLine(biter))
    ensures r.0.spanHurt == HurtAfterBite(other.spanHurt, BiteStart(|other.body|, me),
                                          FirstHit(other.body, BiteStart(|other.body|, me), NeckLine(biter)))
  {
    var from := BiteStart(|other.body|, me);
    var k := FirstHit(other.body, from, NeckLine(biter));
    (other.(spanHurt := HurtAfterBite(other.spanHurt, from, k)), k < |other.body|)
  }

  class Snake {
    const peer: Peer
    const score: Score
    var body: seq<Point>
    var spanHurt: seq<bool>
    var mouth: Point
    var eye: Point
    var blinkCounter: int
    var blinkMaxTime: int
    var state: State
    var youTTL: Uint8

    ghost predicate Valid()
      reads this
    {
      |body| >= 2 && |spanHurt| == |body|
    }

    function Snap(): SnakeState
      reads this, score
    {
      SnakeState(body, spanHurt, mouth, eye, blinkCounter, blinkMaxTime, state, youTTL, score.State())
    }

    /** newSnake; `me` is the local peer and `hungerPeriod` the global
        period newScore reads. newSnake calls newScore without arguments,
        which matches no signature of newScore in game/score.go; the score
        is built as newScore(peer), for the snake's own peer. */
    constructor (peer: Peer, me: Peer, hungerPeriod: Uint16)
      ensures Valid() && fresh(score)
      ensures this.peer == peer && score.peer == peer
      ensures Snap() == NewSnakeState(peer, me, hungerPeriod)
    {
      var row := 10 + SnakeWidth + peer * 20;
      this.peer := peer;
      score := new Score(peer, hungerPeriod);
      youTTL := if peer == me then YouTTL else 0;
      body := [Point(SegmentLen * 2, row), Point(SegmentLen, row)];
      spanHurt := [false, false];
      mouth, eye := Point(0, 0), Point(0, 0);
      blinkCounter, blinkMaxTime := 0, 0;
      state := Moving;
    }

    method Update(frame: int, hungerPeriod: Uint16, input: SnakeInput) returns (newFrame: int, eliminated: bool)
      requires Valid()
      modifies this, score
      ensures Valid()
      ensures (Snap(), newFrame, eliminated) == Updated(old(Snap()), frame, hungerPeriod, input)
    {
      newFrame := GoRem(frame, Period);
      Advance(newFrame, input);
      eliminated := score.Update(hungerPeriod);
    }

    /** The snake-moving half of update, on the reduced frame counter. */
    method Advance(f: int, input: SnakeInput)
      requires Valid()
      modifies this
      ensures Valid()
      ensures Snap() == Advanced(old(Snap()), f, input)
    {
      Move(f, input.step);
      Place(input);
    }

    /** The label countdown and the shift of update. */
    method Move(f: int, step: Point)
      requires Valid()
      modifies this
      ensures Valid()
      ensures Snap() == Moved(old(Snap()), f, step)
    {
      if youTTL > 0 {
        youTTL := youTTL - 1;
      }
      if f == 0 {
        Shift(step);
      }
    }

    /** updateMouth, updateEye and the blink timer of update. */
    method Place(input: SnakeInput)
      requires Valid()
      modifies this
      ensures Valid()
      ensures Snap() == Placed(old(Snap()), input)
    {
      mouth := Point(NormalizeX(body[0].X + input.mouthStep.X), NormalizeY(body[0].Y - input.mouthStep.Y));
      eye := Point(mouth.X + input.gaze.X, mouth.Y + input.gaze.Y);
      blinkCounter := blinkCounter + input.blinkDraw % 5;
      if blinkCounter > blinkMaxTime {
        blinkCounter := 0;
        blinkMaxTime := 100 + input.blinkMaxDraw % 100;
      }
    }

    method Shift(step: Point)
      requires Valid()
      modifies this
      ensures Valid()
      ensures Snap() == Shifted(old(Snap()), step)
    {
      var head := Point(NormalizeX(body[0].X + step.X), NormalizeY(body[0].Y - step.Y));
      if state == Growing {
        body := [head] + body;
        spanHurt := [false] + spanHurt;
        state := Moving;
        assert Snap() == Shifted(old(Snap()), step);
        return;
      }
      if state == Eating {
        state := Growing;
      }
      PushHead(head);
    }

    /** The moving case of shift: each node takes the position of the one
        in front of it, the neck takes the new head, and the tail's old
        position is dropped. Nothing else changes. */
    method PushHead(head: Point)
      requires |body| >= 1
      modifies this
      ensures body == [head] + old(body)[..|old(body)| - 1]
      ensures Snap() == old(Snap()).(body := body)
    {
      ghost var was := body;
      ghost var pushed := [head] + was;
      var carried := head;
      var i := 0;
      while i < |body|
        invariant 0 <= i <= |body| == |was|
        invariant forall k :: 0 <= k < i ==> body[k] == pushed[k]
        invariant forall k :: i <= k < |body| ==> body[k] == was[k]
        invariant carried == pushed[i]
        invariant Snap() == old(Snap()).(body := body)
      {
        var displaced := body[i];
        body := body[i := carried];
        carried := displaced;
        i := i + 1;
      }
      assert body == pushed[..|was|];
      assert pushed[..|was|] == [pushed[0]] + was[..|was| - 1];
    }

    method TryEat(apple: Apple, hungerPeriod: Uint16, drawX: Uint32, drawY: Uint32) returns (newPeriod: Uint16)
      requires Valid()
      modifies this, score, apple
      ensures Valid()
      ensures (Snap(), apple.pos, newPeriod) == TryEaten(old(Snap()), old(apple.pos), hungerPeriod, drawX, drawY)
    {
      var x := apple.pos.X - mouth.X;
      var y := apple.pos.Y - mouth.Y;
      var dist2 := x * x + y * y;
      newPeriod := hungerPeriod;
      if dist2 > MinDist2 {
        return;
      }
      state := Eating;
      apple.Move(drawX, drawY);
      newPeriod := score.Inc(hungerPeriod);
    }

    method AppleCollides(p: Point) returns (r: bool)
      requires Valid()
      ensures r == BodyCovers(body, p)
    {
      var seg := 1;
      while seg < |body|
        invariant 1 <= seg <= |body|
        invariant forall k :: 1 <= k < seg && k + 1 < |body| ==> !SpanCovers(body, k, p)
      {
        if seg + 1 < |body| {
          var (hx, tx) := DenormalizeX(body[seg].X, body[seg + 1].X);
          var (hy, ty) := DenormalizeY(body[seg].Y, body[seg + 1].Y);
          var box := NewBBox(Point(hx, hy), Point(tx, ty), SnakeWidth / 2);
          if Contains(box, p) {
            assert SpanCovers(body, seg, p);
            return true;
          }
        }
        seg := seg + 1;
      }
      return false;
    }

    /** `me` says that `other` is this snake itself. */
    method Bites(me: bool, other: Snake) returns (bit: bool)
      requires Valid() && other.Valid()
      modifies other
      ensures other.Valid()
      ensures (other.Snap(), bit) == Bitten(old(Snap()), me, old(other.Snap()))
    {
      ghost var target := other.Snap();
      ghost var biter := Snap();
      var neckLine := LineOf(mouth, body[0]);
      assert neckLine == NeckLine(biter);
      ghost var from := BiteStart(|other.body|, me);
      ghost var hit := FirstHit(target.body, from, neckLine);
      ghost var result := Bitten(biter, me, target);
      assert result == (target.(spanHurt := HurtAfterBite(target.spanHurt, from, hit)), hit < |target.body|);
      var seg := 1;
      if seg < |other.body| && me {
        seg := 2;
      }
      while seg < |other.body|
        invariant from <= seg <= |target.body| && seg <= hit
        invariant other.Snap() == target.(spanHurt := Cleared(target.spanHurt, from, seg))
      {
        if seg + 1 < |other.body| {
          ClearedStep(target.spanHurt, from, seg);
          other.spanHurt := other.spanHurt[seg := false];
          if Intersect(SpanLine(other.body, seg), neckLine) {
            other.spanHurt := other.spanHurt[seg := true];
            assert seg == hit;
            assert other.Snap() == result.0;
            return true;
          }
        } else {
          ClearedStep(target.spanHurt, from, seg);
        }
        seg := seg + 1;
      }
      assert hit == |target.body|;
      assert other.Snap() == result.0;
      return false;
    }
  }
}
