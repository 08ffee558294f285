/** HpInRangeCounter: has a hardpoint force settled after raising, or is there no point in waiting longer? */
module Settling {

  const HpCount := 6

  /** `loops`, `timeoutLoops` and `tolerance` are inRangeAfterRaiseLoops, inRangeAfterRaiseTimeoutLoops
      and inRangeAfterRaiseForce. */
  datatype Settings = Settings(loops: int, timeoutLoops: nat, tolerance: real)

  datatype Counter = Counter(middle: real, counter: int, timeout: int)

  /** The midpoint is not a number after a reset; it is not read before it is set. */
  function Fresh(middle: real): Counter { Counter(middle, -1, -1) }

  function Distance(a: real, b: real): real { if a < b then b - a else a - b }

  function Check(st: Settings, c: Counter, force: real): (Counter, bool) {
    if c.counter < 0 then (Counter(force, 0, 0), false)
    else if c.timeout > st.timeoutLoops then (c, true)
    else if Distance(force, c.middle) > st.tolerance then
      (Counter((force + c.middle) / 2.0, 0, c.timeout + 1), false)
    else if c.counter > st.loops then (c.(timeout := c.timeout + 1), true)
    else (c.(counter := c.counter + 1, timeout := c.timeout + 1), false)
  }

  predicate TimedOut(st: Settings, c: Counter) { c.timeout > st.timeoutLoops }

  class HpInRangeCounter {
    const st: Settings
    var c: Counter

    constructor (st: Settings)
      ensures this.st == st && c == Fresh(0.0)
    {
      this.st, c := st, Fresh(0.0);
    }

    method Reset()
      modifies this
      ensures c == Fresh(old(c).middle)
    {
      c := c.(counter := -1, timeout := -1);
    }

    method CheckForce(force: real) returns (ready: bool)
      modifies this
      ensures (c, ready) == Check(st, old(c), force)
    {
      if c.counter < 0 {
        c := Counter(force, 0, 0);
        return false;
      }
      if c.timeout > st.timeoutLoops {
        return true;
      }
      c := c.(timeout := c.timeout + 1);
      if Distance(force, c.middle) > st.tolerance {
        c := c.(counter := 0, middle := (force + c.middle) / 2.0);
        return false;
      }
      if c.counter > st.loops {
        return true;
      }
      c := c.(counter := c.counter + 1);
      return false;
    }
  }

  // ----- polling six counters in order --------------------------------------------------------------------------

  type Counters = c: seq<Counter> | |c| == HpCount witness seq(HpCount, _ => Fresh(0.0))
  type Forces = f: seq<real> | |f| == HpCount witness seq(HpCount, _ => 0.0)

  /** Polls counters from `i` on until one is not ready. */
  function Poll(st: Settings, cs: Counters, fs: Forces, i: nat): (Counters, bool)
    requires i <= HpCount
    decreases HpCount - i
  {
    if i == HpCount then (cs, true)
    else
      var checked := Check(st, cs[i], fs[i]);
      if checked.1 then Poll(st, cs[i := checked.0], fs, i + 1) else (cs[i := checked.0], false)
  }

  /** The counters after calls of _check_hp_ready. */
  function After(st: Settings, cs: Counters, calls: seq<Forces>): Counters
    decreases |calls|
  {
    if calls == [] then cs
    else Poll(st, After(st, cs, calls[..|calls| - 1]), calls[|calls| - 1], 0).0
  }

  /** Polls a counter may still change it. */
  function Budget(st: Settings, c: Counter): nat {
    if c.counter < 0 then st.timeoutLoops + 2
    else if c.timeout > st.timeoutLoops then 0
    else if c.timeout < 0 then st.timeoutLoops + 1 else st.timeoutLoops + 1 - c.timeout
  }

  function TotalBudget(st: Settings, cs: Counters, i: nat): nat
    requires i <= HpCount
  {
    if i == 0 then 0 else TotalBudget(st, cs, i - 1) + Budget(st, cs[i - 1])
  }

  ghost predicate CounterOk(c: Counter) {
    c.counter >= 0 ==> c.timeout >= 0
  }

  ghost predicate CountersOk(cs: Counters) { forall i :: 0 <= i < HpCount ==> CounterOk(cs[i]) }

  /** A poll either uses up budget or finds none left and says ready. */
  lemma CheckSpends(st: Settings, c: Counter, force: real)
    requires CounterOk(c)
    ensures CounterOk(Check(st, c, force).0)
    ensures Budget(st, c) == 0 ==> Check(st, c, force) == (c, true)
    ensures Budget(st, c) > 0 ==> Budget(st, Check(st, c, force).0) == Budget(st, c) - 1
  {
    hide Distance;
  }

  lemma {:induction false} BudgetUpdate(st: Settings, cs: Counters, k: nat, c: Counter, i: nat)
    requires k < HpCount && i <= HpCount
    ensures TotalBudget(st, cs[k := c], i)
         == TotalBudget(st, cs, i) + if k < i then Budget(st, c) - Budget(st, cs[k]) else 0
  {
    hide Budget;
    if i > 0 { BudgetUpdate(st, cs, k, c, i - 1); }
  }

  lemma {:induction false} BudgetGone(st: Settings, cs: Counters, i: nat, k: nat)
    requires k < i <= HpCount && TotalBudget(st, cs, i) == 0
    ensures Budget(st, cs[k]) == 0
  {
    hide Budget;
    if k < i - 1 { BudgetGone(st, cs, i - 1, k); }
  }

  /** Polling from `i` on uses up budget as soon as one of the counters polled has some left. */
  lemma {:induction false} PollSpends(st: Settings, cs: Counters, fs: Forces, i: nat)
    requires i <= HpCount && CountersOk(cs)
    ensures CountersOk(Poll(st, cs, fs, i).0)
    ensures TotalBudget(st, Poll(st, cs, fs, i).0, HpCount) <= TotalBudget(st, cs, HpCount)
    ensures (exists k :: i <= k < HpCount && Budget(st, cs[k]) > 0) ==>
              TotalBudget(st, Poll(st, cs, fs, i).0, HpCount) < TotalBudget(st, cs, HpCount)
    ensures (forall k :: i <= k < HpCount ==> Budget(st, cs[k]) == 0) ==> Poll(st, cs, fs, i) == (cs, true)
    decreases HpCount - i
  {
    hide Budget, Check, TotalBudget, CounterOk;
    if i < HpCount {
      var checked := Check(st, cs[i], fs[i]);
      CheckSpends(st, cs[i], fs[i]);
      BudgetUpdate(st, cs, i, checked.0, HpCount);
      var cs' := cs[i := checked.0];
      assert Budget(st, cs[i]) == 0 ==> cs' == cs;
      assert forall k :: i + 1 <= k < HpCount ==> Budget(st, cs'[k]) == Budget(st, cs[k]);
      if checked.1 {
        PollSpends(st, cs', fs, i + 1);
      }
    }
  }

  lemma {:induction false} BudgetAfter(st: Settings, cs: Counters, calls: seq<Forces>)
    requires CountersOk(cs)
    ensures CountersOk(After(st, cs, calls))
    ensures TotalBudget(st, After(st, cs, calls), HpCount) == 0
         || TotalBudget(st, After(st, cs, calls), HpCount) + |calls| <= TotalBudget(st, cs, HpCount)
    decreases |calls|
  {
    hide Budget, Poll, CounterOk;
    if calls != [] {
      var front := calls[..|calls| - 1];
      var before := After(st, cs, front);
      BudgetAfter(st, cs, front);
      PollSpends(st, before, calls[|calls| - 1], 0);
      if TotalBudget(st, before, HpCount) > 0 {
        SomeBudget(st, before, HpCount);
      }
    }
  }

  lemma {:induction false} SomeBudget(st: Settings, cs: Counters, i: nat)
    requires i <= HpCount && TotalBudget(st, cs, i) > 0
    ensures exists k :: 0 <= k < i && Budget(st, cs[k]) > 0
  {
    hide Budget;
    if Budget(st, cs[i - 1]) == 0 { SomeBudget(st, cs, i - 1); }
  }

  ghost predicate AllFresh(cs: Counters) { forall i :: 0 <= i < HpCount ==> cs[i].counter == -1 && cs[i].timeout == -1 }

  lemma {:induction false} FreshBudget(st: Settings, cs: Counters, i: nat)
    requires i <= HpCount && AllFresh(cs)
    ensures TotalBudget(st, cs, i) == i * (st.timeoutLoops + 2)
  {
    if i > 0 {
      FreshBudget(st, cs, i - 1);
      assert (i - 1) * (st.timeoutLoops + 2) + (st.timeoutLoops + 2) == i * (st.timeoutLoops + 2);
    }
  }

  /** Settling always ends: from 6 (T + 2) calls after a reset on, whatever forces are measured, every
      further call finds the hardpoints ready, although later ones are polled only while earlier ones pass. */
  lemma SettlingEnds(st: Settings, cs: Counters, calls: seq<Forces>, fs: Forces)
    requires AllFresh(cs) && |calls| >= 6 * (st.timeoutLoops + 2)
    ensures Poll(st, After(st, cs, calls), fs, 0).1
  {
    hide Budget, Poll;
    FreshBudget(st, cs, HpCount);
    assert CountersOk(cs);
    BudgetAfter(st, cs, calls);
    var end := After(st, cs, calls);
    forall k | 0 <= k < HpCount
      ensures Budget(st, end[k]) == 0
    {
      BudgetGone(st, end, HpCount, k);
    }
    PollSpends(st, end, fs, 0);
  }

  /** Forces that no counter accepts. */
  function Outlying(st: Settings, cs: Counters): Forces {
    seq(HpCount, i requires 0 <= i < HpCount =>
      cs[i].middle + (if st.tolerance < 0.0 then 0.0 else st.tolerance) + 1.0)
  }

  lemma OutlierRefused(st: Settings, c: Counter, force: real)
    requires CounterOk(c) && Budget(st, c) > 0
    requires force == c.middle + (if st.tolerance < 0.0 then 0.0 else st.tolerance) + 1.0
    ensures !Check(st, c, force).1
  {
  }

  lemma {:induction false} OutliersRefused(st: Settings, cs: Counters, fs: Forces, i: nat)
    requires i <= HpCount && CountersOk(cs) && forall k :: i <= k < HpCount ==> fs[k] == Outlying(st, cs)[k]
    requires exists k :: i <= k < HpCount && Budget(st, cs[k]) > 0
    ensures !Poll(st, cs, fs, i).1
    ensures TotalBudget(st, Poll(st, cs, fs, i).0, HpCount) == TotalBudget(st, cs, HpCount) - 1
    decreases HpCount - i
  {
    hide Budget, Check, TotalBudget, CounterOk;
    var checked := Check(st, cs[i], fs[i]);
    CheckSpends(st, cs[i], fs[i]);
    BudgetUpdate(st, cs, i, checked.0, HpCount);
    if Budget(st, cs[i]) > 0 {
      OutlierRefused(st, cs[i], fs[i]);
    } else {
      assert cs[i := checked.0] == cs;
      OutliersRefused(st, cs, fs, i + 1);
    }
  }

  /** The bound is sharp: some forces keep the hardpoints unready for all of the first 6 (T + 2) calls. */
  lemma SettlingBoundSharp(st: Settings, cs: Counters) returns (calls: seq<Forces>)
    requires AllFresh(cs)
    ensures |calls| == 6 * (st.timeoutLoops + 2)
    ensures forall k :: 0 <= k < |calls| ==> !Poll(st, After(st, cs, calls[..k]), calls[k], 0).1
  {
    FreshBudget(st, cs, HpCount);
    assert CountersOk(cs);
    calls := Unsettled(st, cs, 6 * (st.timeoutLoops + 2));
  }

  lemma {:induction false} Unsettled(st: Settings, cs: Counters, n: nat) returns (calls: seq<Forces>)
    requires CountersOk(cs) && n <= TotalBudget(st, cs, HpCount)
    ensures |calls| == n && CountersOk(After(st, cs, calls))
    ensures TotalBudget(st, After(st, cs, calls), HpCount) == TotalBudget(st, cs, HpCount) - n
    ensures forall k :: 0 <= k < n ==> !Poll(st, After(st, cs, calls[..k]), calls[k], 0).1
  {
    hide Budget, Poll, Outlying, CounterOk;
    if n == 0 {
      calls := [];
    } else {
      var front := Unsettled(st, cs, n - 1);
      var now := After(st, cs, front);
      SomeBudget(st, now, HpCount);
      OutliersRefused(st, now, Outlying(st, now), 0);
      PollSpends(st, now, Outlying(st, now), 0);
      calls := front + [Outlying(st, now)];
      assert calls[..n - 1] == front;
      assert forall k :: 0 <= k < n - 1 ==> calls[..k] == front[..k];
    }
  }

  // ----- what ready means ---------------------------------------------------------------------------------------

  /** One counter through a sequence of forces. */
  function Through(st: Settings, c: Counter, forces: seq<real>): Counter
    decreases |forces|
  {
    if forces == [] then c
    else Check(st, Through(st, c, forces[..|forces| - 1]), forces[|forces| - 1]).0
  }

  /** The last `n` forces all lie within the tolerance of `middle`. */
  ghost predicate Within(st: Settings, forces: seq<real>, n: int, middle: real) {
    n <= |forces| && forall k :: |forces| - n <= k < |forces| && 0 <= k ==> Distance(forces[k], middle) <= st.tolerance
  }

  /** A running counter has seen that many in-range forces in a row around its midpoint. */
  lemma {:induction false} CounterWindow(st: Settings, c: Counter, forces: seq<real>)
    requires c.counter == -1 && c.timeout == -1
    requires !TimedOut(st, Through(st, c, forces))
    ensures var e := Through(st, c, forces);
            && (forces != [] ==> e.counter >= 0) && e.timeout >= -1
            && Within(st, forces, e.counter, e.middle)
    decreases |forces|
  {
    if forces != [] {
      var front, force := forces[..|forces| - 1], forces[|forces| - 1];
      var before := Through(st, c, front);
      if !TimedOut(st, before) {
        CounterWindow(st, c, front);
      }
    }
  }

  /** Settled: a counter that says ready without having timed out has seen its last L + 2 forces within the
      tolerance of one and the same midpoint. */
  lemma SettledWindow(st: Settings, c: Counter, forces: seq<real>, force: real)
    requires c.counter == -1 && c.timeout == -1
    requires Check(st, Through(st, c, forces), force).1 && !TimedOut(st, Check(st, Through(st, c, forces), force).0)
    ensures Within(st, forces + [force], st.loops + 2, Through(st, c, forces).middle)
    ensures Check(st, Through(st, c, forces), force).0.middle == Through(st, c, forces).middle
  {
    CounterWindow(st, c, forces);
  }

  predicate Near(st: Settings, middle: real, force: real) { -st.tolerance <= force - middle <= st.tolerance }

  /** The first force is taken for the midpoint; one farther from it than the tolerance moves it half way, and is
      refused, as long as the counter has not timed out. */
  lemma MidpointMoves(st: Settings, c: Counter, f: real, force: real)
    requires c.counter == -1 && c.timeout == -1
    ensures Through(st, c, [f]).middle == f && !Check(st, c, f).1
    ensures forall d: Counter :: d.counter >= 0 && d.timeout <= st.timeoutLoops && !Near(st, d.middle, force) ==>
              !Check(st, d, force).1 && Check(st, d, force).0.middle == (d.middle + force) / 2.0
  {
    assert [f][..0] == [];
    assert Through(st, c, []) == c;
  }

  /** From poll `k` on all forces, and `force` too, are within the tolerance of the midpoint held then. */
  ghost predicate HeldSince(st: Settings, c: Counter, forces: seq<real>, force: real, k: nat) {
    && 1 <= k <= |forces|
    && var middle := Through(st, c, forces[..k]).middle;
       && Near(st, middle, force)
       && forall j :: k <= j < |forces| ==> Near(st, middle, forces[j])
  }

  /** While forces stay within the tolerance the midpoint stays and the counter goes up to one more than L. */
  lemma {:induction false} CounterClimbs(st: Settings, c: Counter, forces: seq<real>)
    requires c.counter >= 0 && c.timeout + |forces| <= st.timeoutLoops + 1
    requires forall j :: 0 <= j < |forces| ==> Near(st, c.middle, forces[j])
    ensures var e := Through(st, c, forces);
            && e.middle == c.middle && e.timeout == c.timeout + |forces|
            && e.counter >= c.counter
            && (e.counter == c.counter + |forces| || e.counter > st.loops)
    decreases |forces|
  {
    if forces != [] {
      CounterClimbs(st, c, forces[..|forces| - 1]);
    }
  }

  lemma {:induction false} ThroughConcat(st: Settings, c: Counter, a: seq<real>, b: seq<real>)
    ensures Through(st, c, a + b) == Through(st, Through(st, c, a), b)
    decreases |b|
  {
    hide Check;
    if b == [] {
      assert a + b == a;
    } else {
      assert (a + b)[..|a + b| - 1] == a + b[..|b| - 1];
      ThroughConcat(st, c, a, b[..|b| - 1]);
    }
  }

  /** A running counter has held its midpoint for as many polls as it counts. */
  lemma {:induction false} MidpointHeld(st: Settings, c: Counter, forces: seq<real>, k: nat)
    requires c.counter == -1 && c.timeout == -1 && forces != []
    requires !TimedOut(st, Through(st, c, forces))
    requires 1 <= k <= |forces| && k >= |forces| - Through(st, c, forces).counter
    ensures Through(st, c, forces[..k]).middle == Through(st, c, forces).middle
    ensures Through(st, c, forces).counter <= |forces| - 1
    decreases |forces|
  {
    hide Distance;
    TimedOutExactly(st, c, forces);
    var n := |forces| - 1;
    TimedOutExactly(st, c, forces[..n]);
    assert forces[..|forces|] == forces;
    if n > 0 {
      MidpointHeld(st, c, forces[..n], n);
      if k <= n {
        assert forces[..n][..k] == forces[..k];
        MidpointHeld(st, c, forces[..n], if k >= n - Through(st, c, forces[..n]).counter then k else n);
      }
    }
  }

  /** Ready, exactly: a counter not timed out says so if and only if this and at least L + 1 forces right before it,
      after the first one, were within the tolerance of one midpoint held all the while. */
  lemma ReadyExactly(st: Settings, c: Counter, forces: seq<real>, force: real)
    requires c.counter == -1 && c.timeout == -1 && |forces| <= st.timeoutLoops + 1
    ensures Check(st, Through(st, c, forces), force).1
       <==> exists k :: HeldSince(st, c, forces, force, k) && |forces| - k >= st.loops + 1
  {
    hide Through;
    TimedOutExactly(st, c, forces);
    var e := Through(st, c, forces);
    if k: nat :| HeldSince(st, c, forces, force, k) && |forces| - k >= st.loops + 1 {
      TimedOutExactly(st, c, forces[..k]);
      assert forces == forces[..k] + forces[k..];
      ThroughConcat(st, c, forces[..k], forces[k..]);
      CounterClimbs(st, Through(st, c, forces[..k]), forces[k..]);
    }
    if Check(st, e, force).1 {
      NeverReadyAtOnce(st, c, forces, force);
      MidpointHeld(st, c, forces, |forces|);
      var k := |forces| - e.counter;
      MidpointHeld(st, c, forces, k);
      CounterWindow(st, c, forces);
      assert HeldSince(st, c, forces, force, k);
    }
  }

  lemma NeverReadyAtOnce(st: Settings, c: Counter, forces: seq<real>, force: real)
    requires c.counter == -1 && Check(st, Through(st, c, forces), force).1
    ensures forces != []
  {
  }

  /** A steady force is ready at poll L + 3 and on every later one, and on none before unless the counter has timed
      out, which it has from poll T + 3 on. */
  lemma SteadyReady(st: Settings, c: Counter, f: real, n: nat)
    requires c.counter == -1 && c.timeout == -1 && st.loops >= -1 && st.tolerance >= 0.0
    ensures Check(st, Through(st, c, seq(n, _ => f)), f).1 <==> n + 1 >= st.loops + 3 || n + 1 >= st.timeoutLoops + 3
  {
    hide Through;
    var forces := seq(n, _ => f);
    TimedOutExactly(st, c, forces);
    if n >= 1 {
      FirstIs(st, c, f);
      assert forces[..1] == [f];
      if n <= st.timeoutLoops + 1 {
        ReadyExactly(st, c, forces, f);
        assert HeldSince(st, c, forces, f, 1);
      }
    } else {
      assert forces == [];
      NoneIs(st, c);
    }
  }

  lemma FirstIs(st: Settings, c: Counter, f: real)
    requires c.counter == -1
    ensures Through(st, c, [f]).middle == f
  {
    assert [f][..0] == [];
    assert Through(st, c, []) == c;
  }

  lemma NoneIs(st: Settings, c: Counter)
    ensures Through(st, c, []) == c
  {
  }

  /** The timeout counts polls whatever the forces are: a counter has timed out exactly when it has been
      polled T + 2 times, settled or not. */
  lemma {:induction false} TimedOutExactly(st: Settings, c: Counter, forces: seq<real>)
    requires c.counter == -1 && c.timeout == -1
    ensures TimedOut(st, Through(st, c, forces)) <==> |forces| >= st.timeoutLoops + 2
    ensures Through(st, c, forces).timeout
         == if |forces| >= st.timeoutLoops + 2 then st.timeoutLoops + 1 else |forces| - 1
    ensures forces != [] ==> Through(st, c, forces).counter >= 0
    decreases |forces|
  {
    hide Distance;
    if forces != [] { TimedOutExactly(st, c, forces[..|forces| - 1]); }
  }

  /** So having timed out does not mean never having settled: with L = 0 and T = 4 a steady force is settled
      at the third poll and timed out at the sixth. */
  lemma TimedOutAfterSettling(c: Counter, f: real)
    requires c.counter == -1 && c.timeout == -1
    ensures var st := Settings(0, 4, 50.0);
            && Check(st, Through(st, c, [f, f]), f).1 && !TimedOut(st, Check(st, Through(st, c, [f, f]), f).0)
            && TimedOut(st, Through(st, c, [f, f, f, f, f, f]))
  {
    var st := Settings(0, 4, 50.0);
    assert [f, f][..1] == [f] && [f][..0] == [];
    assert Through(st, c, []) == c;
    assert Through(st, c, [f]) == Counter(f, 0, 0);
    TimedOutExactly(st, c, [f, f, f, f, f, f]);
  }

  // ----- all six together -------------------------------------------------------------------------------------------

  /** Whether a call gets as far as polling counter `k`. */
  ghost predicate Reached(st: Settings, cs: Counters, fs: Forces, k: nat)
    requires k <= HpCount
  {
    forall j :: 0 <= j < k ==> Check(st, cs[j], fs[j]).1
  }

  /** Polling in closed form. */
  lemma PollIs(st: Settings, cs: Counters, fs: Forces, i: nat)
    requires i <= HpCount
    ensures Poll(st, cs, fs, i).1 == forall j :: i <= j < HpCount ==> Check(st, cs[j], fs[j]).1
    ensures forall k :: 0 <= k < HpCount ==>
              Poll(st, cs, fs, i).0[k]
              == if k >= i && (forall j :: i <= j < k ==> Check(st, cs[j], fs[j]).1) then Check(st, cs[k], fs[k]).0
                 else cs[k]
  {
    hide Check, Poll;
    PollReady(st, cs, fs, i);
    forall k | 0 <= k < HpCount
      ensures Poll(st, cs, fs, i).0[k] == PolledAt(st, cs, fs, i, k)
    {
      PollAt(st, cs, fs, i, k);
    }
  }

  ghost function PolledAt(st: Settings, cs: Counters, fs: Forces, i: nat, k: nat): Counter
    requires k < HpCount
  {
    if k >= i && (forall j :: i <= j < k ==> Check(st, cs[j], fs[j]).1) then Check(st, cs[k], fs[k]).0 else cs[k]
  }

  lemma {:induction false} PollReady(st: Settings, cs: Counters, fs: Forces, i: nat)
    requires i <= HpCount
    ensures Poll(st, cs, fs, i).1 == forall j :: i <= j < HpCount ==> Check(st, cs[j], fs[j]).1
    decreases HpCount - i
  {
    hide Check;
    if i < HpCount {
      PollReady(st, cs[i := Check(st, cs[i], fs[i]).0], fs, i + 1);
    }
  }

  lemma {:induction false} PollAt(st: Settings, cs: Counters, fs: Forces, i: nat, k: nat)
    requires i <= HpCount && k < HpCount
    ensures Poll(st, cs, fs, i).0[k] == PolledAt(st, cs, fs, i, k)
    decreases HpCount - i
  {
    hide Check;
    if i < HpCount {
      PollAt(st, cs[i := Check(st, cs[i], fs[i]).0], fs, i + 1, k);
    }
  }

  /** The forces that have reached counter `k`. */
  ghost function History(st: Settings, cs: Counters, calls: seq<Forces>, k: nat): seq<real>
    requires k < HpCount
    decreases |calls|
  {
    if calls == [] then []
    else
      var n := |calls| - 1;
      History(st, cs, calls[..n], k) + if Reached(st, After(st, cs, calls[..n]), calls[n], k) then [calls[n][k]] else []
  }

  lemma {:induction false} HistoryDrives(st: Settings, cs: Counters, calls: seq<Forces>, k: nat)
    requires k < HpCount
    ensures After(st, cs, calls)[k] == Through(st, cs[k], History(st, cs, calls, k))
    decreases |calls|
  {
    hide Check, Poll;
    if calls != [] {
      var n := |calls| - 1;
      var h := History(st, cs, calls[..n], k);
      HistoryDrives(st, cs, calls[..n], k);
      PollIs(st, After(st, cs, calls[..n]), calls[n], 0);
      if Reached(st, After(st, cs, calls[..n]), calls[n], k) {
        assert (h + [calls[n][k]])[..|h|] == h;
      } else {
        assert h + [] == h;
      }
    }
  }

  /** When the hardpoints are found ready and none has timed out, each of them has settled: the last L + 2
      forces that reached its counter lie within the tolerance of its midpoint. */
  lemma ReadyMeansSettled(st: Settings, cs: Counters, calls: seq<Forces>, fs: Forces, k: nat)
    requires AllFresh(cs) && k < HpCount && Poll(st, After(st, cs, calls), fs, 0).1
    requires !TimedOut(st, Poll(st, After(st, cs, calls), fs, 0).0[k])
    ensures Within(st, History(st, cs, calls, k) + [fs[k]], st.loops + 2,
                   Poll(st, After(st, cs, calls), fs, 0).0[k].middle)
  {
    hide Check, Poll, Through;
    PollIs(st, After(st, cs, calls), fs, 0);
    HistoryDrives(st, cs, calls, k);
    SettledWindow(st, cs[k], History(st, cs, calls, k), fs[k]);
  }

  /** The values of six counter objects. */
  ghost function Values(counters: seq<HpInRangeCounter>): Counters
    requires |counters| == HpCount
    reads counters
  {
    seq(HpCount, i requires 0 <= i < HpCount reads counters => counters[i].c)
  }

  /** _check_hp_ready. */
  method CheckHpReady(st: Settings, counters: seq<HpInRangeCounter>, fs: Forces) returns (ready: bool)
    requires |counters| == HpCount && forall i :: 0 <= i < HpCount ==> counters[i].st == st
    requires forall i, j :: 0 <= i < j < HpCount ==> counters[i] != counters[j]
    modifies counters
    ensures (Values(counters), ready) == Poll(st, old(Values(counters)), fs, 0)
  {
    hide Check;
    ghost var was := Values(counters);
    for i := 0 to HpCount
      invariant forall k :: 0 <= k < i ==> Check(st, was[k], fs[k]).1 && counters[k].c == Check(st, was[k], fs[k]).0
      invariant forall k :: i <= k < HpCount ==> counters[k].c == was[k]
    {
      var ok := counters[i].CheckForce(fs[i]);
      if !ok {
        PollIs(st, was, fs, 0);
        assert Values(counters) == Poll(st, was, fs, 0).0;
        return false;
      }
    }
    PollIs(st, was, fs, 0);
    assert Values(counters) == Poll(st, was, fs, 0).0;
    return true;
  }
}
