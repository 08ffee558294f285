/** Deadlines of raising and lowering across pauses. Both controllers keep them the same way. */
module Deadlines {
  import opened RaisingInfo

  /** The start time cached when the operation began, the time budget, and the published deadline. */
  datatype Clock = Clock(start: real, remaining: real, deadline: Deadline)

  function Started(now: real, timeout: int): Clock {
    Clock(now, timeout as real, At(now + timeout as real))
  }

  /** Pausing charges the time since the start of the operation, not since the last resume. */
  function Paused(c: Clock, now: real): Clock {
    c.(remaining := c.remaining - (now - c.start), deadline := Unset)
  }

  function Resumed(c: Clock, now: real): Clock {
    c.(deadline := At(now + c.remaining))
  }

  predicate Expired(d: Deadline, now: real) {
    d.At? && now >= d.time
  }

  /** A pause and the resume that ends it. */
  datatype Break = Break(pause: real, resume: real)

  /** Breaks after `start`, in order. */
  ghost predicate Ordered(start: real, breaks: seq<Break>) {
    && (forall k :: 0 <= k < |breaks| ==> start <= breaks[k].pause <= breaks[k].resume)
    && (forall k :: 0 < k < |breaks| ==> breaks[k - 1].resume <= breaks[k].pause)
  }

  function ClockAfter(start: real, timeout: int, breaks: seq<Break>): Clock
    decreases |breaks|
  {
    if breaks == [] then Started(start, timeout)
    else
      var b := breaks[|breaks| - 1];
      Resumed(Paused(ClockAfter(start, timeout, breaks[..|breaks| - 1]), b.pause), b.resume)
  }

  /** Time since the start that was not spent in a break. */
  function Running(start: real, breaks: seq<Break>, now: real): real
    decreases |breaks|
  {
    if breaks == [] then now - start
    else
      var b := breaks[|breaks| - 1];
      Running(start, breaks[..|breaks| - 1], now) - (b.resume - b.pause)
  }

  /** Time charged more than once: for every pause but the first, the time from the start to the resume
      before it. */
  function Overcharge(start: real, breaks: seq<Break>): real
    decreases |breaks|
  {
    if |breaks| < 2 then 0.0
    else Overcharge(start, breaks[..|breaks| - 1]) + (breaks[|breaks| - 2].resume - start)
  }

  lemma {:induction false} RemainingIs(start: real, timeout: int, breaks: seq<Break>)
    ensures var c := ClockAfter(start, timeout, breaks);
            && c.start == start && c.deadline.At?
            && (breaks != [] ==> c.deadline == At(breaks[|breaks| - 1].resume + c.remaining))
    ensures breaks != [] ==>
              Running(start, breaks, 0.0) + Overcharge(start, breaks)
              == timeout as real - ClockAfter(start, timeout, breaks).remaining - breaks[|breaks| - 1].resume
    decreases |breaks|
  {
    if breaks != [] {
      var front := breaks[..|breaks| - 1];
      RemainingIs(start, timeout, front);
      if front != [] {
        assert front[|front| - 1] == breaks[|breaks| - 2];
      }
    }
  }

  lemma {:induction false} RunningShift(start: real, breaks: seq<Break>, now: real)
    ensures Running(start, breaks, now) == Running(start, breaks, 0.0) + now
    decreases |breaks|
  {
    if breaks != [] { RunningShift(start, breaks[..|breaks| - 1], now); }
  }

  /** When a resumed operation times out, exactly: once its running time and what was overcharged reach the
      configured timeout. */
  lemma TimesOutExactly(start: real, timeout: int, breaks: seq<Break>, now: real)
    ensures Expired(ClockAfter(start, timeout, breaks).deadline, now)
       <==> Running(start, breaks, now) + Overcharge(start, breaks) >= timeout as real
  {
    RemainingIs(start, timeout, breaks);
    RunningShift(start, breaks, now);
  }

  lemma {:induction false} OverchargeSign(start: real, breaks: seq<Break>)
    requires Ordered(start, breaks)
    ensures Overcharge(start, breaks) >= 0.0
    ensures |breaks| >= 2 && breaks[|breaks| - 2].resume > start ==> Overcharge(start, breaks) > 0.0
    decreases |breaks|
  {
    if |breaks| >= 2 { OverchargeSign(start, breaks[..|breaks| - 1]); }
  }

  /** Pausing never extends the allowed running time. */
  lemma PausingNeverExtends(start: real, timeout: int, breaks: seq<Break>, now: real)
    requires Ordered(start, breaks) && Running(start, breaks, now) >= timeout as real
    ensures Expired(ClockAfter(start, timeout, breaks).deadline, now)
  {
    TimesOutExactly(start, timeout, breaks, now);
    OverchargeSign(start, breaks);
  }

  /** Paused time is left out of the budget, to the instant, if and only if there was at most one break or
      every break before the last ended at the very start. */
  lemma PausedTimeNotCounted(start: real, timeout: int, breaks: seq<Break>)
    requires Ordered(start, breaks)
    ensures (forall now ::
               Expired(ClockAfter(start, timeout, breaks).deadline, now)
               <==> Running(start, breaks, now) >= timeout as real)
       <==> |breaks| <= 1 || breaks[|breaks| - 2].resume == start
  {
    var o := Overcharge(start, breaks);
    OverchargeSign(start, breaks);
    OverchargeNone(start, breaks);
    // the running time is exactly the timeout less the overcharge at this instant
    var edge := timeout as real - o - Running(start, breaks, 0.0);
    forall now
      ensures Expired(ClockAfter(start, timeout, breaks).deadline, now)
         <==> Running(start, breaks, now) + o >= timeout as real
    {
      TimesOutExactly(start, timeout, breaks, now);
    }
    RunningShift(start, breaks, edge);
    assert Running(start, breaks, edge) + o == timeout as real;
    assert Expired(ClockAfter(start, timeout, breaks).deadline, edge);
  }

  lemma {:induction false} OverchargeNone(start: real, breaks: seq<Break>)
    requires Ordered(start, breaks)
    ensures |breaks| <= 1 || breaks[|breaks| - 2].resume == start ==> Overcharge(start, breaks) == 0.0
    decreases |breaks|
  {
    if |breaks| >= 2 && breaks[|breaks| - 2].resume == start {
      var front := breaks[..|breaks| - 1];
      if |front| >= 2 {
        assert front[|front| - 2].resume <= front[|front| - 1].pause <= front[|front| - 1].resume == start;
        assert front[|front| - 2].resume >= start;
      }
      OverchargeNone(start, front);
    }
  }

  /** Two one-second breaks already make a 15 second budget run out after ten seconds of running. */
  lemma SecondPauseOvercharges()
    ensures var breaks := [Break(4.0, 5.0), Break(9.0, 10.0)];
            && Ordered(0.0, breaks) && Running(0.0, breaks, 12.0) == 10.0
            && Expired(ClockAfter(0.0, 15, breaks).deadline, 12.0)
  {
    var breaks := [Break(4.0, 5.0), Break(9.0, 10.0)];
    assert breaks[..1] == [Break(4.0, 5.0)];
    assert [Break(4.0, 5.0)][..0] == [];
    assert Running(0.0, [], 12.0) == 12.0;
    assert Running(0.0, [Break(4.0, 5.0)], 12.0) == 11.0;
    assert Overcharge(0.0, breaks) == Overcharge(0.0, [Break(4.0, 5.0)]) + 5.0;
    TimesOutExactly(0.0, 15, breaks, 12.0);
  }
}
