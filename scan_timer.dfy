/** The scan countdown hook `useScanTimer` (src/hooks/useScanTimer.ts).

    The hook keeps two pieces of state, `timeLeft` and `isActive`. Wall-clock
    time enters only as tick events: a tick is the one-second interval
    callback, which exists only while `isActive && timeLeft > 0`. After every
    state change the hook's effect runs and deactivates the timer once
    `timeLeft` is 0; each event below includes that settling step. */
module ScanTimer {

  /** `useScanTimer(initialSeconds: number = 30)`. */
  const DefaultSeconds: int := 30

  datatype Countdown = Countdown(timeLeft: int, isActive: bool)

  /** The effect at lines 14-16: a zero count switches the timer off. */
  function Settle(c: Countdown): Countdown {
    if c.timeLeft == 0 then Countdown(0, false) else c
  }

  /** `useState(0)` and `useState(false)`. */
  const Initial: Countdown := Countdown(0, false)

  /** State after `startTimer` with a duration of `seconds`. */
  function Started(seconds: int): Countdown {
    Settle(Countdown(seconds, true))
  }

  /** State after `resetTimer`. */
  const Cleared: Countdown := Countdown(0, false)

  /** Whether the interval of lines 10-13 is running. */
  predicate Running(c: Countdown) {
    c.isActive && c.timeLeft > 0
  }

  /** State one second later: the interval decrements the count if it is
      running; otherwise no callback fires. */
  function Ticked(c: Countdown): Countdown {
    if Running(c) then Settle(Countdown(c.timeLeft - 1, true)) else c
  }

  /** State after `k` further seconds. */
  function TickedTimes(c: Countdown, k: nat): Countdown
    decreases k
  {
    if k == 0 then c else TickedTimes(Ticked(c), k - 1)
  }

  /** The invariant of every reachable state for a non-negative duration:
      the count is never negative and a zero count is inactive. */
  predicate Valid(c: Countdown) {
    c.timeLeft >= 0 && (c.timeLeft == 0 ==> !c.isActive)
  }

  /** The hook's state, one object per `useScanTimer` call. */
  class Timer {
    var timeLeft: int
    var isActive: bool
    const initialSeconds: int

    function State(): Countdown
      reads this
    {
      Countdown(timeLeft, isActive)
    }

    constructor(initialSeconds: int)
      ensures this.initialSeconds == initialSeconds
      ensures State() == Initial
    {
      this.initialSeconds := initialSeconds;
      timeLeft := 0;
      isActive := false;
    }

    /** `startTimer`: lines 23-26, then the effect. */
    method StartTimer()
      modifies this
      ensures State() == Started(initialSeconds)
    {
      timeLeft := initialSeconds;
      isActive := true;
      if timeLeft == 0 {
        isActive := false;
      }
    }

    /** `resetTimer`: lines 28-31. */
    method ResetTimer()
      modifies this
      ensures State() == Cleared
    {
      timeLeft := 0;
      isActive := false;
    }

    /** One second of wall-clock time. */
    method Tick()
      modifies this
      ensures State() == Ticked(old(State()))
    {
      if isActive && timeLeft > 0 {
        timeLeft := timeLeft - 1;
        if timeLeft == 0 {
          isActive := false;
        }
      }
    }
  }

  // ---------------------------------------------------------------------
  // Properties of the events

  /** A start with a positive duration runs at that duration; a start with
      duration 0 ends inactive at once. */
  lemma StartedRuns(seconds: int)
    ensures seconds != 0 ==> Started(seconds) == Countdown(seconds, true)
    ensures seconds == 0 ==> Started(seconds) == Countdown(0, false)
  {
  }

  /** `resetTimer` gives (0, false) from any state, so resetting twice is
      resetting once, and a reset timer ignores ticks. */
  lemma ResetIsIdle(k: nat)
    ensures Cleared == Countdown(0, false) && !Running(Cleared)
    ensures TickedTimes(Cleared, k) == Cleared
  {
    IdleTicksChangeNothing(Cleared, k);
  }

  /** A tick decrements a running count by exactly one and leaves the
      timer active unless the count reached zero. */
  lemma TickDecrements(c: Countdown)
    requires Running(c)
    ensures Ticked(c).timeLeft == c.timeLeft - 1
    ensures Ticked(c).isActive <==> c.timeLeft > 1
  {
  }

  /** Ticks while the interval is stopped change nothing. */
  lemma {:induction false} IdleTicksChangeNothing(c: Countdown, k: nat)
    requires !Running(c)
    ensures TickedTimes(c, k) == c
  {
    if k > 0 {
      IdleTicksChangeNothing(c, k - 1);
    }
  }

  /** Every event keeps the invariant, for non-negative durations. */
  lemma EventsKeepValid(c: Countdown, seconds: int)
    requires Valid(c) && seconds >= 0
    ensures Valid(Initial) && Valid(Cleared) && Valid(Started(seconds))
    ensures Valid(Ticked(c))
  {
  }

  lemma {:induction false} TicksKeepValid(c: Countdown, k: nat)
    requires Valid(c)
    ensures Valid(TickedTimes(c, k))
    decreases k
  {
    if k > 0 {
      EventsKeepValid(c, 0);
      TicksKeepValid(Ticked(c), k - 1);
    }
  }

  /** After a start with `n > 0`, fewer than `n` ticks leave `(n - k, true)`. */
  lemma {:induction false} CountingDown(n: int, k: nat)
    requires 0 < n && k < n
    ensures TickedTimes(Started(n), k) == Countdown(n - k, true)
  {
    if k > 0 {
      CountingDown(n, k - 1);
      TickedTimesLast(Started(n), k - 1);
    }
  }

  /** Exactly `n` ticks after a start with `n > 0` the timer is at (0, false),
      and it stays there. */
  lemma CountdownExpires(n: int, extra: nat)
    requires 0 < n
    ensures TickedTimes(Started(n), n) == Countdown(0, false)
    ensures TickedTimes(Started(n), n + extra) == Countdown(0, false)
  {
    CountingDown(n, n - 1);
    TickedTimesLast(Started(n), n - 1);
    TickedTimesAdd(Started(n), n, extra);
    IdleTicksChangeNothing(Countdown(0, false), extra);
  }

  lemma {:induction false} TickedTimesLast(c: Countdown, k: nat)
    ensures TickedTimes(c, k + 1) == Ticked(TickedTimes(c, k))
    decreases k
  {
    if k > 0 {
      TickedTimesLast(Ticked(c), k - 1);
    }
  }

  lemma {:induction false} TickedTimesAdd(c: Countdown, j: nat, k: nat)
    ensures TickedTimes(c, j + k) == TickedTimes(TickedTimes(c, j), k)
    decreases j
  {
    if j > 0 {
      TickedTimesAdd(Ticked(c), j - 1, k);
    }
  }

  /** A negative duration is never settled: the interval does not start and
      the effect only reacts to exactly 0, so the timer stays active with
      its negative count for ever. */
  lemma NegativeDurationNeverExpires(seconds: int, k: nat)
    requires seconds < 0
    ensures TickedTimes(Started(seconds), k) == Countdown(seconds, true)
  {
    IdleTicksChangeNothing(Started(seconds), k);
  }
}
