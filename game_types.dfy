/** Constants of game/snake.go and game/apple.go, and the movement state of
    a snake (game/snake.go:15-27), shared by the segment, snake and apple
    code. */
module GameTypes {

  /** Frames between two shifts of the body. */
  const Period: int := 10
  const SnakeWidth: int := 7
  const SegmentLen: int := 14
  const AppleRadius: int := 5

  /** moving: stable length; eating: ate an apple and waits to grow;
      growing: the next shift adds a node instead of moving the tail. */
  datatype State = Moving | Eating | Growing
}
