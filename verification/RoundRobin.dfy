/** The round-robin server status query and the LVDT sampling clock of the bus lists. */
module RoundRobin {
  import opened Sequences
  import opened BusLayout

  function Inc(index: nat, limit: nat): nat {
    if index + 1 < limit then index + 1 else 0
  }

  function BroadcastCounter(counter: nat): nat {
    if counter + 1 < 16 then counter + 1 else 0
  }

  predicate IsEnabled(fas: seq<Ilc>, i: nat) {
    i < |fas| && !fas[i].disabled
  }

  ghost predicate SomeEnabled(fas: seq<Ilc>) {
    exists i :: IsEnabled(fas, i)
  }

  /** First enabled index from `i` up, or the length when there is none. */
  function NextUp(fas: seq<Ilc>, i: nat): (u: nat)
    requires i <= |fas|
    ensures i <= u <= |fas|
    ensures u < |fas| ==> IsEnabled(fas, u)
    ensures forall k :: i <= k < u ==> !IsEnabled(fas, k)
    decreases |fas| - i
  {
    if i == |fas| || !fas[i].disabled then i else NextUp(fas, i + 1)
  }

  /** First enabled index from `i` on, wrapping around once. */
  function Skip(fas: seq<Ilc>, i: nat): (u: nat)
    requires i < |fas| && SomeEnabled(fas)
    ensures IsEnabled(fas, u)
  {
    if NextUp(fas, i) < |fas| then NextUp(fas, i) else NextUp(fas, 0)
  }

  /** Steps of the skip loop started at `i`. */
  function SkipSteps(fas: seq<Ilc>, i: nat): (n: nat)
    requires i < |fas| && SomeEnabled(fas)
    ensures n < |fas|
  {
    if NextUp(fas, i) < |fas| then NextUp(fas, i) - i
    else
      assert NextUp(fas, 0) < i;
      |fas| - i + NextUp(fas, 0)
  }

  /** `i` advanced `k` times. */
  function Advance(i: nat, k: nat, n: nat): (r: nat)
    requires i < n
    ensures r < n
  {
    if k == 0 then i else Inc(Advance(i, k - 1, n), n)
  }

  /** The source's skip loop: it stops, after fewer iterations than there are actuators, at the
      first enabled actuator met. */
  method SkipDisabled(fas: seq<Ilc>, start: nat) returns (index: nat, steps: nat)
    requires start < |fas| && SomeEnabled(fas)
    ensures index == Skip(fas, start)
    ensures steps < |fas| && index == Advance(start, steps, |fas|)
    ensures forall k :: 0 <= k < steps ==> fas[Advance(start, k, |fas|)].disabled
  {
    index, steps := start, 0;
    while fas[index].disabled
      invariant index < |fas| && Skip(fas, index) == Skip(fas, start)
      invariant steps + SkipSteps(fas, index) == SkipSteps(fas, start)
      invariant index == Advance(start, steps, |fas|)
      invariant forall k :: 0 <= k < steps ==> fas[Advance(start, k, |fas|)].disabled
      decreases SkipSteps(fas, index)
    {
      index := Inc(index, |fas|);
      steps := steps + 1;
    }
  }

  function Next(fas: seq<Ilc>, i: nat): (u: nat)
    requires i < |fas| && SomeEnabled(fas)
    ensures IsEnabled(fas, u)
  {
    Skip(fas, Inc(i, |fas|))
  }

  /** The status target after `n` updates. */
  function Target(fas: seq<Ilc>, first: nat, n: nat): (u: nat)
    requires IsEnabled(fas, first)
    ensures IsEnabled(fas, u)
  {
    if n == 0 then first else Next(fas, Target(fas, first, n - 1))
  }

  /** Enabled actuators below index `i`: the place of `i` among the enabled ones. */
  function Rank(fas: seq<Ilc>, i: nat): nat
    requires i <= |fas|
  {
    EnabledCount(fas[..i])
  }

  lemma RankStep(fas: seq<Ilc>, i: nat)
    requires i < |fas|
    ensures Rank(fas, i + 1) == Rank(fas, i) + if fas[i].disabled then 0 else 1
  {
    assert fas[..i + 1][..i] == fas[..i];
  }

  /** Ranks do not change over a run of disabled actuators. */
  lemma {:induction false} RankFlat(fas: seq<Ilc>, i: nat, j: nat)
    requires i <= j <= |fas| && forall k :: i <= k < j ==> !IsEnabled(fas, k)
    ensures Rank(fas, i) == Rank(fas, j)
    decreases j - i
  {
    if i < j {
      RankStep(fas, i);
      assert !IsEnabled(fas, i);
      RankFlat(fas, i + 1, j);
    }
  }

  lemma {:induction false} RankMonotone(fas: seq<Ilc>, i: nat, j: nat)
    requires i <= j <= |fas|
    ensures Rank(fas, i) <= Rank(fas, j)
    decreases j - i
  {
    if i < j {
      RankStep(fas, i);
      RankMonotone(fas, i + 1, j);
    }
  }

  /** Distinct enabled actuators have distinct ranks, all below the number of enabled ones. */
  lemma RankInjective(fas: seq<Ilc>, i: nat, j: nat)
    requires IsEnabled(fas, i) && IsEnabled(fas, j)
    ensures Rank(fas, i) == Rank(fas, j) ==> i == j
    ensures Rank(fas, i) < EnabledCount(fas)
  {
    RankStep(fas, i);
    RankStep(fas, j);
    assert fas[..|fas|] == fas;
    RankMonotone(fas, i + 1, |fas|);
    if i < j { RankMonotone(fas, i + 1, j); }
    if j < i { RankMonotone(fas, j + 1, i); }
  }

  lemma RankEnds(fas: seq<Ilc>)
    ensures Rank(fas, 0) == 0 && Rank(fas, |fas|) == EnabledCount(fas)
  {
    assert fas[..|fas|] == fas;
  }

  /** The next target is the next enabled actuator up, or the first one of all. */
  lemma NextIs(fas: seq<Ilc>, i: nat)
    requires IsEnabled(fas, i)
    ensures Next(fas, i) == if NextUp(fas, i + 1) < |fas| then NextUp(fas, i + 1) else NextUp(fas, 0)
    ensures NextUp(fas, 0) < |fas|
  {
  }

  /** One update moves the target to the next rank, cyclically. */
  lemma NextRank(fas: seq<Ilc>, i: nat)
    requires IsEnabled(fas, i)
    ensures Rank(fas, Next(fas, i)) == Inc(Rank(fas, i), EnabledCount(fas))
  {
    hide Rank, Next, NextUp, EnabledCount;
    NextIs(fas, i);
    RankEnds(fas);
    RankStep(fas, i);
    var up := NextUp(fas, i + 1);
    RankFlat(fas, i + 1, up);
    if up < |fas| {
      RankInjective(fas, up, up);
    } else {
      RankFlat(fas, 0, NextUp(fas, 0));
    }
  }

  /** Ranks of successive targets, over at most one turn. */
  lemma {:induction false} TargetRank(fas: seq<Ilc>, first: nat, start: nat, k: nat)
    requires IsEnabled(fas, first) && k < EnabledCount(fas)
    ensures var r := Rank(fas, Target(fas, first, start)) + k;
            Rank(fas, Target(fas, first, start + k)) == if r < EnabledCount(fas) then r else r - EnabledCount(fas)
  {
    hide Rank, Next, EnabledCount;
    var t := Target(fas, first, start);
    RankInjective(fas, t, t);
    if k > 0 {
      TargetRank(fas, first, start, k - 1);
      NextRank(fas, Target(fas, first, start + k - 1));
    }
  }

  /** The targets of `count` updates in a row. */
  function Targets(fas: seq<Ilc>, first: nat, start: nat, count: nat): (ts: seq<int>)
    requires IsEnabled(fas, first)
    ensures |ts| == count
  {
    seq(count, k requires 0 <= k < count => Target(fas, first, start + k))
  }

  lemma {:induction false} CountUnique(s: seq<int>, x: int, k: nat)
    requires k < |s| && s[k] == x && forall i :: 0 <= i < |s| && s[i] == x ==> i == k
    ensures Count(s, x) == 1
  {
    assert s == s[..k] + ([x] + s[k + 1..]);
    CountConcat(s[..k], [x] + s[k + 1..], x);
    CountAbsent(s[..k], x);
    CountAbsent(s[k + 1..], x);
  }

  /** The one update of a turn in which enabled actuator `j` is the target. */
  lemma TurnOf(fas: seq<Ilc>, first: nat, start: nat, j: nat) returns (k: nat)
    requires IsEnabled(fas, first) && IsEnabled(fas, j)
    ensures k < EnabledCount(fas)
    ensures forall i :: 0 <= i < EnabledCount(fas) ==>
              (Targets(fas, first, start, EnabledCount(fas))[i] == j <==> i == k)
  {
    hide Rank, Target, EnabledCount;
    var e, t := EnabledCount(fas), Target(fas, first, start);
    RankInjective(fas, j, t);
    RankInjective(fas, t, j);
    k := if Rank(fas, j) >= Rank(fas, t) then Rank(fas, j) - Rank(fas, t) else Rank(fas, j) + e - Rank(fas, t);
    var ts := Targets(fas, first, start, e);
    forall i | 0 <= i < e
      ensures ts[i] == j <==> i == k
    {
      assert ts[i] == Target(fas, first, start + i);
      TargetRank(fas, first, start, i);
      RankInjective(fas, Target(fas, first, start + i), j);
    }
  }

  /** Fairness: whenever one looks, in as many updates as there are enabled actuators each enabled
      one is the server status target exactly once, and a disabled one never. */
  lemma FairRotation(fas: seq<Ilc>, first: nat, start: nat, j: nat)
    requires IsEnabled(fas, first) && j < |fas|
    ensures Count(Targets(fas, first, start, EnabledCount(fas)), j) == if fas[j].disabled then 0 else 1
  {
    hide Target, EnabledCount;
    var ts := Targets(fas, first, start, EnabledCount(fas));
    assert forall i :: 0 <= i < |ts| ==> ts[i] == Target(fas, first, start + i);
    if fas[j].disabled {
      CountAbsent(ts, j);
    } else {
      var k := TurnOf(fas, first, start, j);
      CountUnique(ts, j, k);
    }
  }

  // ----- LVDT sampling -----------------------------------------------------------------------

  function Tick(clock: int): int {
    if clock - 1 < 0 then 4 else clock - 1
  }

  /** Subnets with monitors among the first `s`. */
  function MonitorSubnets(nets: seq<Subnet>, s: nat): nat
    requires s <= |nets|
  {
    if s == 0 then 0 else MonitorSubnets(nets, s - 1) + if nets[s - 1].hms == [] then 0 else 1
  }

  /** The clock when an update reaches subnet `s`, having started at `clock`. */
  function ClockAt(nets: seq<Subnet>, clock: int, s: nat): int
    requires s <= |nets|
  {
    if s == 0 then clock
    else if nets[s - 1].hms == [] then ClockAt(nets, clock, s - 1)
    else Tick(ClockAt(nets, clock, s - 1))
  }

  /** The clock before update number `u`, counted from 0 after buildBuffer. */
  function ClockBefore(nets: seq<Subnet>, u: nat): int {
    if u == 0 then 0 else ClockAt(nets, ClockBefore(nets, u - 1), |nets|)
  }

  function Ticks(n: nat): int { if n % 5 == 0 then 0 else 5 - n % 5 }

  lemma TickTicks(n: nat)
    ensures Tick(Ticks(n)) == Ticks(n + 1)
  {
  }

  lemma {:induction false} ClockCounts(nets: seq<Subnet>, n: nat, s: nat)
    requires s <= |nets|
    ensures ClockAt(nets, Ticks(n), s) == Ticks(n + MonitorSubnets(nets, s))
  {
    if s > 0 {
      ClockCounts(nets, n, s - 1);
      TickTicks(n + MonitorSubnets(nets, s - 1));
    }
  }

  /** The clock is shared by all monitor subnets: at update `u` a monitor subnet is sampled exactly
      when the number of monitor subnets visited before is a multiple of five. */
  lemma {:induction false} SamplingSchedule(nets: seq<Subnet>, u: nat, s: nat)
    requires s <= |nets|
    ensures ClockAt(nets, ClockBefore(nets, u), s) == 0
       <==> (u * MonitorSubnets(nets, |nets|) + MonitorSubnets(nets, s)) % 5 == 0
  {
    ClockBeforeCounts(nets, u);
    VisitsAre(nets, u);
    ClockCounts(nets, Visits(nets, u), s);
  }

  /** Monitor subnets visited by the first `u` updates. */
  function Visits(nets: seq<Subnet>, u: nat): nat {
    if u == 0 then 0 else Visits(nets, u - 1) + MonitorSubnets(nets, |nets|)
  }

  lemma {:induction false} VisitsAre(nets: seq<Subnet>, u: nat)
    ensures Visits(nets, u) == u * MonitorSubnets(nets, |nets|)
  {
    if u > 0 { VisitsAre(nets, u - 1); }
  }

  lemma {:induction false} ClockBeforeCounts(nets: seq<Subnet>, u: nat)
    ensures ClockBefore(nets, u) == Ticks(Visits(nets, u))
  {
    if u > 0 {
      ClockBeforeCounts(nets, u - 1);
      ClockCounts(nets, Visits(nets, u - 1), |nets|);
    }
  }

  lemma {:induction false} NoMonitorsBetween(nets: seq<Subnet>, s: nat)
    requires s <= |nets| && forall i :: 0 <= i < s ==> nets[i].hms == []
    ensures MonitorSubnets(nets, s) == 0
  {
    if s > 0 { NoMonitorsBetween(nets, s - 1); }
  }

  /** With a single monitor subnet, LVDTs are sampled by the first update and every fifth after. */
  lemma SampledEveryFifth(nets: seq<Subnet>, u: nat, s: nat)
    requires s < |nets| && nets[s].hms != [] && forall i :: 0 <= i < |nets| && i != s ==> nets[i].hms == []
    ensures ClockAt(nets, ClockBefore(nets, u), s) == 0 <==> u % 5 == 0
  {
    NoMonitorsBetween(nets, s);
    OnlyMonitor(nets, s, |nets|);
    SamplingSchedule(nets, u, s);
  }

  lemma {:induction false} OnlyMonitor(nets: seq<Subnet>, s: nat, n: nat)
    requires s < n <= |nets| && nets[s].hms != [] && forall i :: 0 <= i < |nets| && i != s ==> nets[i].hms == []
    ensures MonitorSubnets(nets, n) == 1
  {
    if n == s + 1 { NoMonitorsBetween(nets, s); } else { OnlyMonitor(nets, s, n - 1); }
  }
}
