/** game/title.go: the title overlay shown when a snake dies or the round is
    over. A non-blocking title stays until a blocking one replaces it; a
    blocking title counts down and, on a button press or at the end of the
    countdown, asks for a new round. Submitting the scores to the boards
    and drawing the text are not part of this model. */
module GameTitle {
  import opened Platform

  /** How long a blocking title is shown, in frames. */
  const DefaultTTL: int := 240

  /** The value of a Title's fields. */
  datatype TitleState = TitleState(msg: string, ttl: int, blocking: bool)

  /** setTitle on the global title (None when no title is shown): an existing
      title keeps its text and can only turn blocking (with a fresh
      countdown); otherwise a new title is installed. */
  function TitleSet(current: Option<TitleState>, msg: string, blocking: bool): (r: TitleState)
    ensures current.None? ==> r == TitleState(msg, DefaultTTL, blocking)
    ensures current.Some? ==> r.msg == current.value.msg
    ensures current.Some? && blocking ==> r.ttl == DefaultTTL && r.blocking
    ensures current.Some? && !blocking ==> r == current.value
    ensures current.Some? && current.value.blocking ==> r.blocking
  {
    match current
    case None => TitleState(msg, DefaultTTL, blocking)
    case Some(t) => if blocking then t.(ttl := DefaultTTL, blocking := true) else t
  }

  /** Title.update: the countdown runs while it is not below zero; the
      second component says a reset is due, which only a blocking title
      asks for, on a button press or once the countdown is over. */
  function TitleTicked(t: TitleState, anyButton: bool): (r: (TitleState, bool))
    ensures r.0.msg == t.msg && r.0.blocking == t.blocking
    ensures t.ttl >= 0 ==> r.0.ttl == t.ttl - 1
    ensures t.ttl < 0 ==> r.0.ttl == t.ttl
    ensures t.ttl >= -1 ==> r.0.ttl >= -1
    ensures r.1 <==> t.blocking && (anyButton || r.0.ttl <= 0)
  {
    var ttl := if t.ttl >= 0 then t.ttl - 1 else t.ttl;
    (t.(ttl := ttl), t.blocking && (anyButton || ttl <= 0))
  }

  /** The title after `n` updates without a button press. */
  function IdleTicks(t: TitleState, n: nat): TitleState
    decreases n
  {
    if n == 0 then t else IdleTicks(TitleTicked(t, false).0, n - 1)
  }

  /** Updates never change the text or the blocking flag. */
  lemma {:induction false} IdleTicksKeep(t: TitleState, n: nat)
    ensures IdleTicks(t, n).msg == t.msg && IdleTicks(t, n).blocking == t.blocking
    decreases n
  {
    if n > 0 {
      IdleTicksKeep(TitleTicked(t, false).0, n - 1);
    }
  }

  /** Without button presses the countdown falls by one per frame and stops
      at -1. */
  lemma {:induction false} IdleTicksCount(t: TitleState, n: nat)
    requires t.ttl >= -1
    ensures IdleTicks(t, n).ttl == if t.ttl - n >= -1 then t.ttl - n else -1
    decreases n
  {
    if n > 0 {
      IdleTicksCount(TitleTicked(t, false).0, n - 1);
    }
  }

  /** A blocking title left alone asks for the reset on exactly its ttl-th
      update and on none before it: a fresh blocking title is shown for
      DefaultTTL frames. */
  lemma BlockingResetsAfterTTL(t: TitleState)
    requires t.blocking && t.ttl >= 1
    ensures forall j: nat {:trigger IdleTicks(t, j)} :: j < t.ttl - 1 ==> !TitleTicked(IdleTicks(t, j), false).1
    ensures TitleTicked(IdleTicks(t, t.ttl - 1), false).1
  {
    forall j: nat | j <= t.ttl - 1
      ensures IdleTicks(t, j).ttl == t.ttl - j && IdleTicks(t, j).blocking
    {
      IdleTicksCount(t, j);
      IdleTicksKeep(t, j);
    }
  }

  /** The title after one update per entry of `buttons`, each entry being
      that frame's button read. */
  function Ticks(t: TitleState, buttons: seq<bool>): TitleState
    decreases |buttons|
  {
    if buttons == [] then t else Ticks(TitleTicked(t, buttons[0]).0, buttons[1..])
  }

  /** Whatever the buttons, updates never change the text or the blocking
      flag. */
  lemma {:induction false} TicksKeep(t: TitleState, buttons: seq<bool>)
    ensures Ticks(t, buttons).msg == t.msg && Ticks(t, buttons).blocking == t.blocking
    decreases |buttons|
  {
    if buttons != [] {
      TicksKeep(TitleTicked(t, buttons[0]).0, buttons[1..]);
    }
  }

  /** A non-blocking title never asks for a reset, whatever the button read
      on each of any number of updates. */
  lemma NonBlockingNeverResets(t: TitleState, buttons: seq<bool>, anyButton: bool)
    requires !t.blocking
    ensures !TitleTicked(Ticks(t, buttons), anyButton).1
  {
    TicksKeep(t, buttons);
  }

  class Title {
    /** The text to display. */
    var msg: string
    /** The countdown of a blocking title. */
    var ttl: int
    /** Whether the title covers the screen and ends the round. */
    var blocking: bool

    function State(): TitleState
      reads this
    {
      TitleState(msg, ttl, blocking)
    }

    constructor (msg: string, blocking: bool)
      ensures State() == TitleState(msg, DefaultTTL, blocking)
    {
      this.msg, ttl, this.blocking := msg, DefaultTTL, blocking;
    }

    /** Title.update; `anyButton` is the combined button read. The result
        says the game is to be reset. */
    method Update(anyButton: bool) returns (reset: bool)
      modifies this
      ensures (State(), reset) == TitleTicked(old(State()), anyButton)
    {
      if ttl >= 0 {
        ttl := ttl - 1;
      }
      reset := blocking && (anyButton || ttl <= 0);
    }
  }

  /** setTitle; `current` is the global title and the result its new value. */
  method SetTitle(current: Title?, msg: string, blocking: bool) returns (title: Title)
    modifies current
    ensures current != null ==> title == current
    ensures current == null ==> fresh(title)
    ensures title.State() == TitleSet(if current == null then None else Some(old(current.State())), msg, blocking)
  {
    if current != null {
      if blocking {
        current.ttl := DefaultTTL;
        current.blocking := true;
      }
      return current;
    }
    title := new Title(msg, blocking);
  }
}
