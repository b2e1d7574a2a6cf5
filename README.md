# snek: the game logic of a multiplayer Snake, in Dafny

A model of the integer game logic of snek, a multiplayer Snake for the
Firefly Zero handheld whose screen wraps around at its edges. It covers two
snapshots of the code:

- the `game` package (the later design), which has these parts:
  - the body chain of each snake and its moving/eating/growing cycle;
  - eating apples;
  - apple/body containment and bite detection;
  - the score with its invulnerability, hunger and feedback counters, and the shared hunger period that shrinks as apples are eaten;
  - segment geometry on the wrapping screen;
  - the title overlay that ends a round;
  - the roster of snakes and its per-frame update;
  - the two drivers `game/game.go` and `game/main.go`, with their frame counters and cheat codes;
- the root package (the earlier snapshot), which has its own score, bounding box and apple.

Each source file becomes one module:

| source | module |
|---|---|
| platform types | `Platform` (platform.dfy) |
| game/math.go | `GameMath` (game_math.dfy) |
| game/bbox.go | `GameBBox` (game_bbox.dfy) |
| game/segment.go | `GameSegment` (game_segment.dfy) |
| shared constants | `GameTypes` (game_types.dfy) |
| game/score.go | `GameScore` (game_score.dfy) |
| game/apple.go | `GameApple` (game_apple.dfy) |
| game/eye.go | `GameEye` (game_eye.dfy) |
| game/snake.go | `GameSnake` (game_snake.dfy) |
| game/snakes.go | `GameSnakes` (game_snakes.dfy) |
| game/title.go | `GameTitle` (game_title.dfy) |
| game/game.go | `GameDriver` (game_game.dfy) |
| game/main.go | `GameMainDriver` (game_main.dfy) |
| score.go | `RootScore` (score.dfy) |
| bbox.go | `RootBBox` (bbox.dfy) |
| apple.go | `RootApple` (apple.dfy) |

**How the state is modelled.**
- An object whose fields the source updates in place is a `class`. The classes are Score, Snake, Apple, Eye, Title and the roster `Snakes`.
- Each such class has a snapshot datatype and a pure transition function. Its methods are proved to move the snapshot exactly as the function does, for example `Snap() == Shifted(old(Snap()), step)`. The lemmas are stated about the functions.
- Points are unbounded integers.
- Go's fixed widths are subset types: `val` is an int16, `iframes` and `ttl` are uint8, and `hunger` and the hunger period are uint16.
- The int16 wrap of `inc` is written out in `Wrap16`.
- Go's truncating `/` and `%` are `GoDiv` and `GoRem`.
- The linked chain of `Segment` nodes is a sequence of node points, neck first, with one hurt flag per node. `shift` walks it in place with a loop.
- The package-level variables go into objects:
  - `Globals` holds the frame counter and the hunger period;
  - `World` and `MainWorld` hold the roster, the apple, the title and the local peer.
- Random draws, pad and button reads, the peer list and the local peer are parameters. So are the integer results of the floating-point code: the shift step, the mouth step and the gaze offset.

## Model

| member | source | states |
|---|---|---|
| Platform.ComponentMin | game/bbox.go:11 | each coordinate of the result is one of the two inputs' and no larger than either |
| Platform.ComponentMax | bbox.go:11-16 | each coordinate of the result is one of the two inputs' and no smaller than either |
| Platform.GoDiv | game/segment.go:30-31 | truncating division: q*b is at most a for a >= 0 and at least a for a < 0, within one b |
| Platform.GoRem | game/snake.go:83 | a == GoDiv(a, b) * b + r, with r in [0, b) for a >= 0 and in (-b, 0] for a < 0 |
| Platform.Wrap16 | game/score.go:88 | the int16 two's-complement wrap: the identity on the int16 range, and congruent to its input modulo 2^16 |
| Platform.Wrap16Add | game/score.go:88 | wrapping after every step of a sum gives the same int16 as wrapping once at the end |
| GameMath.Ccw | game/math.go:22-24 | a counter-clockwise triple consists of three distinct points |
| GameMath.Intersect | game/math.go:17-19 | two lines are reported as crossing only when neither has zero length |
| GameMath.CcwIsPositiveCross | game/math.go:22-24 | ccw holds iff the cross product of the triple is positive |
| GameMath.CrossRotate | game/math.go:22-24 | the cross product is invariant under cyclic rotation of the three points |
| GameMath.CcwRotate | game/math.go:22-24 | ccw is invariant under cyclic rotation of its points |
| GameMath.CcwStrict | game/math.go:22-24 | collinear points are never ccw, in either order; swapping two points of a ccw triple makes it not ccw |
| GameMath.IntersectSymmetric | game/math.go:17-19 | intersect(a, b) == intersect(b, a) |
| GameMath.DegenerateLineNeverIntersects | game/math.go:17-24 | a zero-length line intersects nothing, on either side |
| GameMath.Normalize | game/math.go:27-44 | the identity on [0, W); +W on [-W, 0); -W on [W, 2W); lands in [0, W) for inputs in [-W, 2W); never changes the value modulo W |
| GameMath.NormalizeX | game/math.go:27-34 | lands in [0, Width) for inputs in [-Width, 2*Width), is the identity on the screen, and keeps the value modulo Width |
| GameMath.NormalizeY | game/math.go:37-44 | lands in [0, Height) for inputs in [-Height, 2*Height), is the identity on the screen, and keeps the value modulo Height |
| GameMath.Denormalize | game/math.go:48-66 | unchanged when the ends are at most 30 apart; otherwise exactly the smaller end gains the screen size and the other is kept |
| GameMath.DenormalizeX | game/math.go:48-55 | at most one end moves, and for on-screen ends normalizeX of each result gives that end back |
| GameMath.DenormalizeY | game/math.go:59-66 | at most one end moves, and for on-screen ends normalizeY of each result gives that end back |
| GameMath.DenormalizeRoundTrip | game/math.go:27-66 | normalising a denormalised pair of on-screen coordinates gives the pair back |
| GameMath.FormatInt | game/math.go:68-71 | always two bytes; for 0..99 both are decimal digits |
| GameMath.FormatIntRoundTrip | game/math.go:68-71 | for 0..99 the two bytes read back as the number, with a leading '0' below 10 |
| GameMath.FormatIntHundred | game/math.go:69 | 100 is shown as ":0", so the digit property stops at 99 |
| GameBBox.NewBBox | game/bbox.go:10-18 | as written: both corners come from the componentwise minimum, and each side is 2*margin long |
| GameBBox.Contains | game/bbox.go:20-28 | the point is inside, inclusive on all four edges |
| GameBBox.NewBBoxSymmetric | game/bbox.go:11-12 | the box does not depend on the order of the two points |
| GameBBox.ContainsIffNearMin | game/bbox.go:10-28 | as written, the box holds exactly the points within margin of the componentwise minimum |
| GameBBox.ContainsMinCorner | game/bbox.go:10-28 | with margin >= 0 the box contains the componentwise minimum |
| GameBBox.FarEndOutside | game/bbox.go:11-12 | as written, the far end (14, 0) of the segment from (0, 0) with margin 3 is outside its box |
| GameBBox.SpanBox | game/bbox.go:10-18 | the intended box: from the componentwise minimum minus margin to the componentwise maximum plus margin |
| GameBBox.SpanBoxCoversEnds | game/bbox.go:10-28 | with margin >= 0 the intended box holds both end points, including the far end that NewBBox misses |
| GameBBox.SpanBoxContains | game/bbox.go:10-28 | the intended box holds exactly the points within margin of the rectangle the two ends span, in either order |
| GameSegment.LineOf | game/segment.go:11-17 | both axes are denormalised: each pair of coordinates is Denormalize of the stored pair (Width for X, Height for Y), so each coordinate is the stored one or that plus the screen size, and at most one end moves per axis |
| GameSegment.Shorten | game/segment.go:29-32 | the shortened end is the true end at frame 0, the start at frame = period, and lies between them for frames in [0, period] |
| GameSegment.ShortenBounds | game/segment.go:30-31 | the truncated fraction (period - frame)/period of a delta keeps the delta's sign and does not exceed it |
| GameSegment.SpanToDraw | game/segment.go:20-32 | nothing is drawn for the last node; the span is drawn from its head; when the successor is the last node and the snake is not growing, the end is exactly the Shorten of each axis toward the head; otherwise the span is drawn whole; a shortened end stays within the span |
| GameApple.MovedPos | game/apple.go:24-29 | X lies in [appleRadius, Width - appleRadius) and Y in [appleRadius, Height - appleRadius) |
| GameApple.MovedPosOnto | game/apple.go:24-29 | every position within those bounds comes from some pair of draws |
| GameApple.Apple.constructor | game/apple.go:17-21 | newApple places the apple at the position the draws give |
| GameApple.Apple.Move | game/apple.go:24-29 | pos is the position the two draws give, X first; nothing else changes |
| RootApple.MovedPos | apple.go:24-29 | X lies in [appleRadius, Width - appleRadius) and Y in [appleRadius, Height - appleRadius) |
| RootApple.MovedPosOnto | apple.go:24-29 | every position within those bounds comes from some pair of draws |
| RootApple.Apple.constructor | apple.go:17-21 | NewApple places the apple at the position the draws give |
| RootApple.Apple.Move | apple.go:24-29 | Pos is the position the two draws give, X first |
| RootBBox.NewBBox | bbox.go:10-22 | left is the componentwise minimum minus margin; right is the componentwise maximum plus margin |
| RootBBox.Contains | bbox.go:24-32 | the point is inside, inclusive on all four edges |
| RootBBox.NewBBoxSymmetric | bbox.go:11-16 | the box does not depend on the order of the two points |
| RootBBox.NewBBoxCoversEnds | bbox.go:10-32 | with margin >= 0, left <= right on both axes and both points are inside |
| RootBBox.OutsideOnOneAxis | bbox.go:25-30 | a point out of range on either axis is not contained |
| GameEye.BlinkStep | game/eye.go:34-38 | the counter stays at or below the maximum; without a reset it grows by draw mod 5; a reset sets it to 0 with a new maximum in [100, 200); the maximum changes only on a reset |
| GameEye.BlinkRises | game/eye.go:34 | without a reset the counter rises by 0 to 4 and the maximum is kept |
| GameEye.Eye.constructor | game/eye.go:8-19 | the zero value of Eye |
| GameEye.Eye.Update | game/eye.go:21-39 | lookingAt is mouth plus gaze; the blink fields take one BlinkStep; hurt is kept |
| GameEye.Eye.Render | game/eye.go:41-108 | reports the hurt highlight and clears it; the eyelid is drawn closed iff blinkCounter < 20; nothing else changes |
| GameScore.NewScoreState | game/score.go:39-45 | val 0, hunger equal to the hunger period, iframes 60 |
| GameScore.Decremented | game/score.go:97-107 | no change while invulnerable; otherwise iframes 60, ttl 60, red, a positive val loses val/5 + 1; val never goes negative and reaches 0 only from 1 |
| GameScore.Incremented | game/score.go:83-92 | the period drops by one only above 10; hunger becomes the new period; val + 1 with the int16 wrap; ttl 60, green, iframes kept |
| GameScore.Ticked | game/score.go:50-78 | hunger != 0: val kept and hunger - 1; hunger 0 and val 0: inert; hunger 0 and val != 0: the result is dec of the score after the iframes tick, with hunger refilled to the period and the feedback ttl ticked, and elimination iff val became 0; in every other case iframes and ttl each count down by one while positive and the colour is kept |
| GameScore.Countdown | game/score.go:51-53 | a uint8 countdown: one less while positive, and 0 stays 0 |
| GameScore.IncrementedTimes | game/game.go:54-56 | n incs lower the hunger period by at most n, never raise it, and for n >= 1 leave hunger equal to the new period with the green feedback shown |
| GameScore.IncrementedTimesVal | game/score.go:83-92 | n incs raise val by n (int16 wrap), keep iframes, and keep the period at or above the floor |
| GameScore.DecrementedTimes | game/game.go:60-62 | n decs keep the hunger and never take a non-negative score below 0 or above its old value |
| GameScore.DecrementedTimesOnce | game/score.go:97-107 | n >= 1 decs in a row have the effect of exactly one |
| GameScore.Score.constructor | game/score.go:39-45 | newScore's fields, for the given peer |
| GameScore.Score.Update | game/score.go:50-78 | the new fields and the elimination signal are Ticked of the old fields |
| GameScore.Score.Inc | game/score.go:83-92 | the new fields and the new hunger period are Incremented of the old ones |
| GameScore.Score.Dec | game/score.go:97-107 | the new fields are Decremented of the old |
| RootScore.NewScoreState | score.go:31-36 | val 0, hunger 300 (5*60), iframes 60 |
| RootScore.Decremented | score.go:68-76 | no change while invulnerable; otherwise iframes 60 and a positive val loses val/5 + 1, never below 0 |
| RootScore.DecrementedTwice | score.go:68-76 | a dec right after another has no further effect |
| RootScore.Incremented | score.go:60-63 | hunger 300 and val + 1 |
| RootScore.Ticked | score.go:41-51 | iframes tick down while positive; hunger 0: the result is dec of the ticked score, whatever val is, with hunger back to 300, so with at most one iframe left a positive val loses val/5 + 1; otherwise hunger - 1 with val and the ticked iframes kept; hunger stays in [0, 300] |
| RootScore.TickedKeepsScoreWhileInvulnerable | score.go:41-51 | with more than one invulnerability frame left, Update keeps the score |
| RootScore.Score.constructor | score.go:31-36 | NewScore's fields |
| RootScore.Score.Update | score.go:41-55 | the receiver takes Ticked; the collision's dec hits the package-level score, which may or may not be the receiver; the invariant val >= 0 and hunger in [0, 300] is kept |
| RootScore.Score.Inc | score.go:60-63 | the new fields are Incremented of the old, and the invariant is kept |
| RootScore.Score.Dec | score.go:68-76 | the new fields are Decremented of the old |
| GameSnake.NewSnakeState | game/snake.go:61-79 | a well-formed moving chain whose neck lies one segment to the right of its tail on the same row, with a fresh score; the "you" label is set iff the peer is the local one |
| GameSnake.NewSnakeShape | game/snake.go:61-79 | a two-node chain (2*segmentLen, k), (segmentLen, k) with k = 10 + snakeWidth + 20*peer; state moving; youTTL is 180 iff peer == me, else 0 |
| GameSnake.Stepped | game/snake.go:157-160 | the new head of shift (and, at game/snake.go:189-191, the mouth of updateMouth) is the neck moved by the step (Y upwards), modulo the screen; it is on screen when the neck is and the step is less than one screen |
| GameSnake.Shifted | game/snake.go:154-181 | the new head goes into node 0; growing: one node prepended, old points kept, state moving; otherwise same length, each old point moves one node down, the tail point is dropped, eating -> growing, moving stays |
| GameSnake.ShiftCycle | game/snake.go:162-172 | the state after a shift is growing iff it was eating; the chain grows by one iff the state was growing, and otherwise keeps its length |
| GameSnake.Advanced | game/snake.go:84-95 | the movement keeps the chain well formed and leaves the score alone |
| GameSnake.Moved | game/snake.go:84-93 | the label countdown and the shift keep the chain well formed and touch neither mouth, eye, blink timer nor score |
| GameSnake.Placed | game/snake.go:94-95 | placing the mouth and the eye changes only mouth, eye and the blink timer |
| GameSnake.AdvancedSpec | game/snake.go:82-95 | youTTL drops by one only when positive; the chain shifts iff the reduced frame is 0 and is untouched otherwise; the mouth follows the new neck; the blink counter stays at or below its maximum |
| GameSnake.Updated | game/snake.go:82-97 | update keeps the snake well formed |
| GameSnake.UpdatedParts | game/snake.go:82-97 | the frame counter ends as frame % period (in [0, period) for frame >= 0); the score and the signal are the score's tick; the rest is the movement on the reduced frame |
| GameSnake.CanEat | game/snake.go:198-203 | eating needs the apple within 7 pixels of the mouth on each axis, and an apple on the mouth is always eaten |
| GameSnake.TryEaten | game/snake.go:197-209 | out of reach nothing changes; in reach the state becomes eating, the apple moves once and the score is incremented once |
| GameSnake.EatingRadius | game/snake.go:198-203 | minDist2 is 49: 7 pixels away is eaten, 8 pixels away or (5, 5) away is not |
| GameSnake.SpanCovers | game/snake.go:216-225 | the as-written box of a span (newBBox of its unwrapped ends, margin snakeWidth/2) contains the point; such a point is also inside the intended box |
| GameSnake.BodyCovers | game/snake.go:212-228 | the as-written appleCollides; only a chain of three or more nodes can collide with anything |
| GameSnake.BodyCoversIgnoresNeck | game/snake.go:212-228 | whether a point collides does not depend on the neck point |
| GameSnake.BodyCoversWithinIntended | game/snake.go:212-228 | every point the as-written appleCollides finds is found with the intended box |
| GameSnake.BodyCoversMissesMidSpan | game/snake.go:212-228 | as written, the point (7, 17) in the middle of the span from (14, 17) to (0, 17) does not collide, though the intended test finds it |
| GameSnake.BodyCoversIntendedSpanEnds | game/snake.go:212-228 | with the intended box, both unwrapped ends of every span after the neck span collide |
| GameSnake.NewSnakeCollidesNowhere | game/snake.go:212-228 | a fresh two-node snake collides nowhere |
| GameSnake.FirstHit | game/snake.go:241-250 | the first span from the given node on that the neck line crosses; no earlier span is crossed |
| GameSnake.HurtAfterBite | game/snake.go:241-250 | the hit span is flagged, the spans examined before it are cleared, every other flag is kept |
| GameSnake.Bitten | game/snake.go:234-252 | the verdict holds iff some span from other.head.tail on (one node later when biting itself) crosses the mouth-to-neck line; the hurt flags are HurtAfterBite of the first hit; only flags change |
| GameSnake.Snake.constructor | game/snake.go:61-79 | newSnake's fields, with a fresh score for the peer |
| GameSnake.Snake.Update | game/snake.go:82-97 | the new snake, frame counter and elimination signal are Updated of the old snapshot |
| GameSnake.Snake.Advance | game/snake.go:84-95 | the new snapshot is Advanced of the old |
| GameSnake.Snake.Move | game/snake.go:84-93 | the new snapshot is Moved of the old |
| GameSnake.Snake.Place | game/snake.go:94-95 | the new snapshot is Placed of the old |
| GameSnake.Snake.Shift | game/snake.go:154-181 | the new snapshot is Shifted of the old |
| GameSnake.Snake.PushHead | game/snake.go:174-180 | the in-place cascade leaves body == [head] + old body minus its last point, and changes nothing else |
| GameSnake.Snake.TryEat | game/snake.go:197-209 | the new snake, apple position and hunger period are TryEaten of the old ones |
| GameSnake.Snake.AppleCollides | game/snake.go:212-228 | true iff some node after the neck has a successor and the box newBBox builds (as written) for its unwrapped span, with margin snakeWidth/2, contains the point |
| GameSnake.Snake.Bites | game/snake.go:234-252 | the other snake's new snapshot and the verdict are Bitten of the old snapshots |
| GameSnakes.SnakeTurn | game/snakes.go:22-23 | one snake's turn keeps it well formed |
| GameSnakes.Processed | game/snakes.go:21-25 | the fold over the first n snakes in roster order yields n snakes and n signals, all well formed |
| GameSnakes.ProcessedInOrder | game/snakes.go:21-25 | snake i ends as its own turn left it, taken on the shared state the snakes before it left; later snakes do not change it |
| GameSnakes.ProcessedFrame | game/snakes.go:21-25 | with at least one snake the frame ends reduced modulo the period; with none it is untouched |
| GameSnakes.ProcessedHungerPeriod | game/snakes.go:21-25 | the hunger period falls by at most one per snake and never below the floor once at it |
| GameSnakes.SnakeTurnProperties | game/snakes.go:22-23 | the snake's turn keeps snakes well formed, reduces the frame modulo the period, and lowers the period by at most one, never below the floor |
| GameSnakes.TakeTurn | game/snakes.go:22-23 | the snake, apple and counters after update then tryEat are SnakeTurn of the old ones |
| GameSnakes.TurnAt | game/snakes.go:22-23 | snake i takes its turn and every other snake's snapshot is unchanged |
| GameSnakes.Snakes.constructor | game/snakes.go:9-16 | newSnakes: one fresh well-formed snake per peer, in peer order, with no snake or score shared |
| GameSnakes.NewRoster | game/snakes.go:11-14 | the loop builds one fresh snake per peer, in peer order |
| GameSnakes.NewRosterWellFormed | game/snakes.go:9-16 | the new roster is well formed |
| GameSnakes.RosterStep | game/snakes.go:21-25 | one pass of the loop extends the fold by one snake |
| GameSnakes.RunRoster | game/snakes.go:21-25 | the roster, apple and counters after the loop are the fold RosterUpdated over all snakes |
| GameSnakes.UpdateSnakes | game/snakes.go:17-26 | a nil roster does nothing; otherwise the roster stays valid and the result is the fold RosterUpdated over all snakes in roster order |
| GameSnakes.AppleInside | game/snakes.go:40-50 | true iff the roster is not nil and some snake collides with the point; so false for nil and for an empty roster |
| GameSnakes.RosterCounters | game/snakes.go:17-26 | after the whole update: one snake and one signal per snake; the frame is reduced modulo the period when there is a snake; the period falls by at most the number of snakes and not below the floor |
| GameSnakes.RosterInOrder | game/snakes.go:21-25 | in the whole update, snake i's result is its turn on the state left by the snakes before it |
| GameTitle.TitleSet | game/title.go:24-52 | no title: msg installed with ttl 240 and the flag; an existing title keeps its msg; blocking sets ttl 240 and blocking; non-blocking changes nothing; a blocking title stays blocking |
| GameTitle.TitleTicked | game/title.go:54-62 | msg and flag kept; ttl drops by one only while >= 0, so it never goes below -1; a reset is due iff blocking and (a button or ttl <= 0) |
| GameTitle.IdleTicksKeep | game/title.go:54-62 | no number of updates without buttons changes the text or the blocking flag |
| GameTitle.TicksKeep | game/title.go:54-62 | no number of updates changes the text or the blocking flag, whatever the button read on each |
| GameTitle.IdleTicksCount | game/title.go:55-57 | without buttons the countdown drops by one per frame and stops at -1 |
| GameTitle.BlockingResetsAfterTTL | game/title.go:54-62 | left alone, a blocking title with ttl >= 1 asks for the reset on its ttl-th update and on none before |
| GameTitle.NonBlockingNeverResets | game/title.go:58-61 | a non-blocking title never asks for a reset, after any number of updates with any button read on each, whatever the button on the next one |
| GameTitle.Title.constructor | game/title.go:47-51 | the new title's msg, ttl 240 and flag |
| GameTitle.Title.Update | game/title.go:54-62 | the new fields and the reset decision are TitleTicked of the old fields |
| GameTitle.SetTitle | game/title.go:24-52 | the existing title object is kept, or a fresh one is made; its fields are TitleSet of the old title |
| GameDriver.FirstOf | game/game.go:69-76 | the first index from the start whose snake is the local peer's, with no earlier match |
| GameDriver.MySnakeIndex | game/game.go:69-76 | the first snake of the local peer, or index 0 when it has none |
| GameDriver.Iterations | game/game.go:54 | the number of iterations of the cheat loop: v for v >= 0, 0 otherwise |
| GameDriver.IncTimes | game/game.go:54-56 | the score and period after the loop are IncrementedTimes over max(v, 0) incs |
| GameDriver.DecTimes | game/game.go:60-62 | the score after the loop is DecrementedTimes over max(v, 0) decs |
| GameDriver.World.constructor | game/game.go:15-19 | Boot: the first round, with frame 0, no title, a fresh roster and apple, and hunger period 0 |
| GameDriver.World.ResetGame | game/game.go:21-26 | frame 0, no title, a fresh roster from the peers, a newly placed apple; the hunger period is kept |
| GameDriver.World.Update | game/game.go:28-35 | with a title only the title updates (and resets the round when due), and the hunger period is kept either way; without a reset frame, roster and apple are untouched; without a title the frame goes up by one and then the roster update runs |
| GameDriver.World.UpdateTitle | game/game.go:29-32 | the title ticks and, when due, the round is reset |
| GameDriver.World.UpdateRoster | game/game.go:33-34 | the roster update runs on the frame counter raised by one |
| GameDriver.World.GetMySnake | game/game.go:69-76 | the snake at MySnakeIndex |
| GameDriver.World.Cheat | game/game.go:47-67 | 1: apple moved, answer 1; 2: max(v, 0) incs on my snake's score, answer its val; 3: max(v, 0) decs, answer its val; others: 0 and nothing changes |
| GameMainDriver.MainWorld.constructor | game/main.go:13-18 | Boot: a fresh roster, apple and package-level score, frame 0 |
| GameMainDriver.MainWorld.Update | game/main.go:20-23 | the frame goes up by one and then the roster update runs; the package-level score is untouched |
| GameMainDriver.MainWorld.Cheat | game/main.go:32-50 | 1: apple moved, answer 1; 2: max(v, 0) incs on the package-level score, answer its val; 3: max(v, 0) decs, answer its val; others: 0 and nothing changes |

## Left out

- Floating point is not modelled. This covers:
  - `setDir` (game/snake.go:100-130);
  - the cos/sin step of `shift`;
  - the mouth interpolation of `updateMouth`;
  - the `Hypot` gaze of `updateEye` and `Eye.update`.
  Their integer results are the inputs `step`, `mouthStep` and `gaze`. The float32 squared distance of `tryEat` is the exact integer `dx*dx + dy*dy`.
- Drawing is not modelled: every `render`, `renderHead`, `renderEye`, `renderYou`, `renderScore`, `drawSegment`, `drawSegmentExactlyAt` and `Title.render`, and the stripe colour choice of `Segment.render`. Only the integer parts of `Segment.render` (which span is drawn, and the tail shortening) and of `Eye.render` (the hurt reset and the eyelid test) are modelled.
- Platform calls become parameters, or are dropped when they only have side effects. The parameters come from `ReadPad`, `ReadButtons`, `GetRandom`, `GetPeers` and `GetMe`. The dropped calls are `LoadFile`, fonts, `AddProgress` and the `AddScore` submission of `setTitle`.
- The elimination branch of `game/score.go:63-70` is an output flag. It calls `snakes.deletePeer` and a one-argument `setTitle`, neither of which is defined in the modelled files.
- `game/snakes.go:23-24` calls `tryEat(&apple, &score)` and `score.update(snake)`, which match no signature in game/snake.go. The model runs the snake's own `update` and then its one-argument `tryEat`, and leaves `score.update(snake)` out.
- `s.collides` and `snake.Collides` are defined outside the modelled files. In `AppleInside` and `RootScore.Score.Update` they are a predicate parameter or a boolean input.
- `newScore()` in game/main.go takes no arguments, which matches no signature of `newScore` in game/score.go (that one takes the peer). The package-level score is a Score for peer 0.
- GameSnake.Snake.constructor: `newSnake` (game/snake.go:69) also calls `newScore()` without arguments. The model builds the score as `newScore(peer)`, for the snake's own peer, with the current hunger period.
- GameDriver.World.constructor and GameMainDriver.MainWorld.constructor start the hunger period at 0, the zero value of its Go type. No code in the modelled files sets it before the first `inc`.
- `newApple()` in `resetGame` builds a new value. The model moves the one apple object to the new position, which has the same effect on the game state.
- game/boards.go, the root snake.go and the root main.go are not part of this model.
- Re-sampling the apple when it lands on a snake is not modelled: `appleInside` (game/snakes.go:40-50) is modelled, but no code in the modelled files calls it.
- Aliasing is not modelled. The linked chain is a sequence of points, so no two snakes can share a node.
- Overflow of Go's 64-bit `int` is not modelled. Frame counters, blink timers and points are unbounded integers.
- Title.update's call of `resetGame` goes through `World.UpdateTitle`, because the title has no access to the world.

## Findings

| source | as written | input that shows it | evidently intended | confidence | as-written member | corrected member |
|---|---|---|---|---|---|---|
| game/bbox.go:12 | `right := start.ComponentMin(end)`, so both corners of the box come from the componentwise minimum; appleCollides (game/snake.go:220) uses this box | the segment from (0, 0) to (14, 0) with margin 3: its own far end (14, 0) is outside its box; for appleCollides, the point (7, 17) in the middle of the span from (14, 17) to (0, 17) does not collide | `ComponentMax` for the right corner, so the box spans both points (as in bbox.go of the root package) | high; not executed | GameBBox.FarEndOutside, GameSnake.BodyCoversMissesMidSpan | GameBBox.SpanBoxCoversEnds, GameSnake.BodyCoversIntendedSpanEnds |

GameSnake.Snake.AppleCollides computes the test as written, with `GameBBox.NewBBox`. The intended test, `GameSnake.BodyCoversIntended` on `GameBBox.SpanBox`, finds every point the as-written test finds (`GameSnake.BodyCoversWithinIntended`), and it also finds points the as-written test misses.
