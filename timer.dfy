/**
 * The stopwatch of the system services (Timer.hpp, Timer.cpp).
 *
 * The steady clock is a parameter: every operation that reads the clock
 * takes its reading `now`, in seconds.  The clock is steady, so successive
 * readings never decrease; the ghost field `clock` holds the latest reading.
 * The transitions and the queries are first given as functions of a
 * `TimerState` value, which the lemmas are about; the class `Timer` updates
 * its fields exactly as those functions say.
 */
module Timers {

  datatype TimerState = TimerState(start: real, running: bool, passed: real)

  /** A timer state is sane at clock reading `now` when it started no later and its frozen value is not negative. */
  predicate Sane(s: TimerState, now: real)
  {
    s.start <= now && s.passed >= 0.0
  }

  /** Timer(): stopped, with nothing elapsed. */
  function Fresh(now: real): TimerState
  {
    TimerState(now, false, 0.0)
  }

  /** start(): a running timer is left alone; a stopped one restarts from `now`. */
  function AfterStart(s: TimerState, now: real): TimerState
  {
    if s.running then s else s.(start := now, running := true)
  }

  /** reset(): restarts from `now` whether running or not. */
  function AfterReset(s: TimerState, now: real): TimerState
  {
    s.(start := now, running := true)
  }

  /** stop(): freezes the time passed so far. */
  function AfterStop(s: TimerState, now: real): TimerState
  {
    s.(passed := Elapsed(s, now), running := false)
  }

  /** timePassed(): the running time since the start, or the value frozen by stop(). */
  function Elapsed(s: TimerState, now: real): (r: real)
    ensures Sane(s, now) ==> r >= 0.0
  {
    if s.running then now - s.start else s.passed
  }

  /** timeUntil(t): how far `t` is ahead of the time passed. */
  function Until(s: TimerState, now: real, t: real): real
  {
    t - Elapsed(s, now)
  }

  /** timeReached(t): running, and strictly past `t`. */
  predicate Reached(s: TimerState, now: real, t: real)
  {
    s.running && Elapsed(s, now) > t
  }

  /** Truncation toward zero, as a conversion from double to long performs it. */
  function Truncate(x: real): (r: int)
    ensures x >= 0.0 ==> r as real <= x < r as real + 1.0
    ensures x < 0.0 ==> r as real - 1.0 < x <= r as real
  {
    if x >= 0.0 then x.Floor else -((-x).Floor)
  }

  /** sleepUntil(t): the number of microseconds it asks to sleep. */
  function SleepMicroseconds(s: TimerState, now: real, t: real): int
  {
    Truncate(Until(s, now, t) * 1000000.0)
  }

  // ----------------------------------------------------------------------------
  // Properties of the stopwatch
  // ----------------------------------------------------------------------------

  /** A fresh timer is stopped, reports zero, and never reaches any time. */
  lemma FreshIsIdle(t0: real, now: real, t: real)
    ensures Elapsed(Fresh(t0), now) == 0.0 && !Reached(Fresh(t0), now, t)
  {
  }

  /** Every transition keeps the state sane at any later clock reading. */
  lemma TransitionsStaySane(s: TimerState, now: real, later: real)
    requires Sane(s, now) && now <= later
    ensures Sane(AfterStart(s, now), later) && Sane(AfterReset(s, now), later) && Sane(AfterStop(s, now), later)
  {
  }

  /** start() on a running timer changes nothing. */
  lemma StartWhileRunning(s: TimerState, now: real)
    requires s.running
    ensures AfterStart(s, now) == s
  {
  }

  /**
   * After stop(), timePassed() returns the value reached at the stop, however
   * the clock moves on, and timeReached() holds for no time at all.
   */
  lemma StopFreezes(s: TimerState, stoppedAt: real, later: real, t: real)
    ensures Elapsed(AfterStop(s, stoppedAt), later) == Elapsed(s, stoppedAt)
    ensures !Reached(AfterStop(s, stoppedAt), later, t)
  {
  }

  /** start() after stop() counts from zero again rather than resuming. */
  lemma RestartCountsFromZero(s: TimerState, stoppedAt: real, restartedAt: real, now: real)
    ensures Elapsed(AfterStart(AfterStop(s, stoppedAt), restartedAt), now) == now - restartedAt
  {
  }

  /** reset() counts from zero whether or not the timer was running. */
  lemma ResetCountsFromZero(s: TimerState, resetAt: real, now: real)
    ensures Elapsed(AfterReset(s, resetAt), now) == now - resetAt
    ensures Reached(AfterReset(s, resetAt), now, 0.0) <==> now > resetAt
  {
  }

  /** A time is reached exactly when the timer runs and there is no time left until it. */
  lemma ReachedIffNoTimeLeft(s: TimerState, now: real, t: real)
    ensures Reached(s, now, t) <==> s.running && Until(s, now, t) < 0.0
  {
  }

  /**
   * While the timer runs, sleeping the microseconds that sleepUntil(t) asks
   * for (when it asks for any) wakes up less than a microsecond before `t`
   * is passed, and never after.
   */
  lemma {:induction false} SleepUntilWakesAtTarget(s: TimerState, now: real, t: real)
    requires s.running && Elapsed(s, now) <= t
    ensures var wake := now + SleepMicroseconds(s, now, t) as real / 1000000.0;
      t - 0.000001 < Elapsed(s, wake) <= t
  {
    var x := Until(s, now, t) * 1000000.0;
    var m := SleepMicroseconds(s, now, t);
    assert x >= 0.0;
    assert m as real <= x < m as real + 1.0;
    var wake := now + m as real / 1000000.0;
    assert Elapsed(s, wake) == Elapsed(s, now) + m as real / 1000000.0;
    assert Elapsed(s, now) + x / 1000000.0 == t;
  }

  // ----------------------------------------------------------------------------
  // The timer object
  // ----------------------------------------------------------------------------

  class Timer {
    var start: real
    var running: bool
    var passed: real
    /** The latest steady-clock reading the timer has seen. */
    ghost var clock: real

    function State(): TimerState
      reads this
    {
      TimerState(start, running, passed)
    }

    ghost predicate Valid()
      reads this
    {
      Sane(State(), clock)
    }

    constructor (now: real)
      ensures Valid() && State() == Fresh(now) && clock == now
    {
      start := now;
      running := false;
      passed := 0.0;
      clock := now;
    }

    method Start(now: real)
      requires Valid() && clock <= now
      modifies this
      ensures Valid() && clock == now
      ensures State() == AfterStart(old(State()), now)
    {
      if !running {
        start := now;
        running := true;
      }
      clock := now;
    }

    method Reset(now: real)
      requires Valid() && clock <= now
      modifies this
      ensures Valid() && clock == now
      ensures State() == AfterReset(old(State()), now)
    {
      start := now;
      running := true;
      clock := now;
    }

    method Stop(now: real)
      requires Valid() && clock <= now
      modifies this
      ensures Valid() && clock == now
      ensures State() == AfterStop(old(State()), now)
    {
      passed := TimePassed(now);
      running := false;
      clock := now;
    }

    /** timePassed(): never negative. */
    function TimePassed(now: real): (r: real)
      requires Valid() && clock <= now
      reads this
      ensures r >= 0.0
      ensures r == Elapsed(State(), now)
    {
      if running then now - start else passed
    }

    function TimeUntil(now: real, t: real): (r: real)
      requires Valid() && clock <= now
      reads this
      ensures r == Until(State(), now, t)
    {
      t - TimePassed(now)
    }

    /** The duration sleepUntil(t) asks the thread to sleep, in microseconds; the sleep itself is not modelled. */
    function SleepUntil(now: real, t: real): (micros: int)
      requires Valid() && clock <= now
      reads this
      ensures micros == SleepMicroseconds(State(), now, t)
    {
      Truncate(TimeUntil(now, t) * 1000000.0)
    }

    function TimeReached(now: real, t: real): (r: bool)
      requires Valid() && clock <= now
      reads this
      ensures r <==> Reached(State(), now, t)
    {
      running && TimePassed(now) > t
    }

    /** started(): exactly the running flag. */
    function Started(): (r: bool)
      reads this
      ensures r == State().running
    {
      running
    }
  }
}
