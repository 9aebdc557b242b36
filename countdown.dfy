/** The client's reveal countdown: a once-a-second interval that decrements the countdown while
    positions are not being revealed and clears itself once the countdown reaches zero. The
    `revealEnd` event leaves reveal mode and restarts the countdown from seven. */
module Countdown {

  const RevealPeriod: int := 7

  /** `isRevealing`, `revealCountdown`, and whether `revealCountdownInterval` is set. */
  datatype Timer = Timer(revealing: bool, count: int, active: bool)

  /** One firing of the interval callback. A cleared interval never fires, which is the same
      as a firing that changes nothing. */
  function Tick(t: Timer): Timer {
    if !t.active || t.revealing then t
    else Timer(t.revealing, t.count - 1, !(t.count - 1 <= 0))
  }

  /** `revealEnd`: leave reveal mode, reset the countdown, start a fresh interval. */
  function RevealEnd(t: Timer): Timer {
    Timer(false, RevealPeriod, true)
  }

  /** `revealStart` as far as the countdown is concerned. */
  function RevealStart(t: Timer): Timer {
    t.(revealing := true)
  }

  /** `n` consecutive firings. */
  function Ticks(t: Timer, n: nat): Timer
    decreases n
  {
    if n == 0 then t else Ticks(Tick(t), n - 1)
  }

  /** One firing: paused while revealing; otherwise down by exactly one, stopping at zero. */
  lemma TickStep(t: Timer)
    ensures t.revealing || !t.active ==> Tick(t) == t
    ensures !t.revealing && t.active ==>
              Tick(t).count == t.count - 1 && (Tick(t).active <==> Tick(t).count > 0) && !Tick(t).revealing
  {
  }

  /** However many seconds pass while revealing, the countdown does not move. */
  lemma {:induction false} PausedWhileRevealing(t: Timer, n: nat)
    requires t.revealing
    ensures Ticks(t, n) == t
    decreases n
  {
    if n > 0 {
      PausedWhileRevealing(Tick(t), n - 1);
    }
  }

  /** A running countdown goes down one per firing and keeps running until it reaches zero. */
  lemma {:induction false} CountsDown(t: Timer, n: nat)
    requires t.active && !t.revealing && n < t.count
    ensures Ticks(t, n) == Timer(false, t.count - n, true)
    decreases n
  {
    if n > 0 {
      CountsDown(Tick(t), n - 1);
    }
  }

  /** A stopped interval stays stopped. */
  lemma {:induction false} StoppedStaysStopped(t: Timer, n: nat)
    requires !t.active
    ensures Ticks(t, n) == t
    decreases n
  {
    if n > 0 {
      StoppedStaysStopped(Tick(t), n - 1);
    }
  }

  lemma {:induction false} TicksAdd(t: Timer, m: nat, n: nat)
    ensures Ticks(t, m + n) == Ticks(Ticks(t, m), n)
    decreases m
  {
    if m > 0 {
      TicksAdd(Tick(t), m - 1, n);
    }
  }

  /** After `revealEnd`, seven uninterrupted firings bring the countdown to zero and clear the
      interval; later firings change nothing. */
  lemma CycleAfterRevealEnd(t: Timer, extra: nat)
    ensures Ticks(RevealEnd(t), RevealPeriod) == Timer(false, 0, false)
    ensures Ticks(RevealEnd(t), RevealPeriod + extra) == Timer(false, 0, false)
  {
    var r := RevealEnd(t);
    CountsDown(r, RevealPeriod - 1);
    TicksAdd(r, RevealPeriod - 1, 1);
    TicksAdd(r, RevealPeriod, extra);
    StoppedStaysStopped(Timer(false, 0, false), extra);
  }
}
