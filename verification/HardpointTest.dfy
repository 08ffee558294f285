/** HardpointTestController: driving a hardpoint from one limit switch to the other and back. */
module HardpointTests {
  import opened Arithmetic
  import opened Hardpoints
  import opened HardpointMeaning
  import opened PositionControl

  datatype TestState =
    | NotTested | MovingNegative | TestingPositive | TestingNegative | MovingReference | Passed | Failed

  const FullTravel := 999999999

  predicate Tested(t: TestState) { !t.NotTested? && !t.Passed? && !t.Failed? }

  type Tests = t: seq<TestState> | |t| == HpCount witness seq(HpCount, _ => NotTested)

  /** The tests and the hardpoints they move. */
  datatype Rig = Rig(tests: Tests, hps: Hexapod)

  /** Position settings, and the scales that give the length of the move to the reference position. */
  datatype TestSettings = TestSettings(st: Settings, perEncoder: real, perStep: real)

  predicate TestSettingsOk(ts: TestSettings) { SettingsOk(ts.st) && ts.perStep != 0.0 }

  function ReferenceSteps(ts: TestSettings): int
    requires TestSettingsOk(ts)
  {
    Trunc(10001.0 * ts.perEncoder / ts.perStep)
  }

  /** A move, and the state it leads to; an empty move fails the test. */
  function Turn(ts: TestSettings, s: Rig, i: nat, steps: int, next: TestState): Rig
    requires TestSettingsOk(ts) && i < HpCount
  {
    if steps == 0 then s.(tests := s.tests[i := Failed])
    else Rig(s.tests[i := next], MovedOne(ts.st, s.hps, steps, i))
  }

  /** _runHardpointLoop. */
  function StepOne(ts: TestSettings, s: Rig, i: nat, r: Reading): Rig
    requires TestSettingsOk(ts) && i < HpCount
  {
    match s.tests[i]
    case MovingNegative =>
      if r.lowSwitch then Turn(ts, s, i, FullTravel, TestingPositive)
      else if s.hps[i].motion != Stepping then Turn(ts, s, i, -FullTravel, MovingNegative)
      else s
    case TestingPositive => if r.highSwitch then Turn(ts, s, i, -FullTravel, TestingNegative) else s
    case TestingNegative => if r.lowSwitch then Turn(ts, s, i, ReferenceSteps(ts), MovingReference) else s
    case MovingReference => if s.hps[i].motion == Standby then s.(tests := s.tests[i := Passed]) else s
    case _ => s
  }

  function Looped(ts: TestSettings, s: Rig, rs: Readings, n: nat): Rig
    requires TestSettingsOk(ts) && n <= HpCount
  {
    if n == 0 then s else StepOne(ts, Looped(ts, s, rs, n - 1), n - 1, rs[n - 1])
  }

  function Started(s: Rig, i: nat): Rig
    requires i < HpCount
  {
    if Tested(s.tests[i]) then s else s.(tests := s.tests[i := MovingNegative])
  }

  function Killed(s: Rig, i: nat): Rig
    requires i < HpCount
  {
    if Tested(s.tests[i]) then Rig(s.tests[i := NotTested], s.hps[i := StoppedOne(s.hps[i])]) else s
  }

  datatype Event = Start(hp: nat) | Kill(hp: nat) | Loop(readings: Readings) | Position(call: Call)

  predicate EventOk(e: Event) {
    match e
    case Start(i) => i < HpCount
    case Kill(i) => i < HpCount
    case Loop(_) => true
    case Position(c) => CallOk(c)
  }

  function React(ts: TestSettings, s: Rig, e: Event): Rig
    requires TestSettingsOk(ts) && EventOk(e)
  {
    match e
    case Start(i) => Started(s, i)
    case Kill(i) => Killed(s, i)
    case Loop(rs) => Looped(ts, s, rs, HpCount)
    case Position(c) => s.(hps := Apply(ts.st, s.hps, c))
  }

  function Play(ts: TestSettings, s: Rig, es: seq<Event>): Rig
    requires TestSettingsOk(ts) && forall k :: 0 <= k < |es| ==> EventOk(es[k])
    decreases |es|
  {
    if es == [] then s else React(ts, Play(ts, s, es[..|es| - 1]), es[|es| - 1])
  }

  /** What the tests look at does not change when another hardpoint is moved. */
  lemma MovedOthers(st: Settings, s: Hexapod, steps: int, hp: nat, i: nat)
    requires SettingsOk(st) && hp < HpCount && i < HpCount
    ensures var h := MovedOne(st, s, steps, hp)[i];
            if hp != i || steps == 0 then h.motion == s[i].motion && h.queued == s[i].queued
            else h.motion == Stepping && h.queued == steps
  {
    hide Scaled;
  }

  predicate SameAt(s: Rig, s': Rig, i: nat)
    requires i < HpCount
  {
    s.tests[i] == s'.tests[i] && s.hps[i].motion == s'.hps[i].motion && s.hps[i].queued == s'.hps[i].queued
  }

  lemma StepOthers(ts: TestSettings, s: Rig, n: nat, i: nat, r: Reading)
    requires TestSettingsOk(ts) && n < HpCount && i < HpCount && n != i
    ensures SameAt(s, StepOne(ts, s, n, r), i)
  {
    hide MovedOne, ReferenceSteps;
    MovedOthers(ts.st, s.hps, FullTravel, n, i);
    MovedOthers(ts.st, s.hps, -FullTravel, n, i);
    MovedOthers(ts.st, s.hps, ReferenceSteps(ts), n, i);
  }

  /** The steps of the other hardpoints in the same loop do not touch the test of this one. */
  lemma {:induction false} LoopedAt(ts: TestSettings, s: Rig, rs: Readings, n: nat, i: nat)
    requires TestSettingsOk(ts) && n <= HpCount && i < HpCount
    ensures var before := Looped(ts, s, rs, i);
            && SameAt(before, s, i)
            && SameAt(Looped(ts, s, rs, n), if i < n then StepOne(ts, before, i, rs[i]) else s, i)
    decreases n, i
  {
    hide StepOne;
    if 0 < i { LoopedBelow(ts, s, rs, i, i); }
    if n > 0 {
      if i != n - 1 {
        LoopedAt(ts, s, rs, n - 1, i);
        StepOthers(ts, Looped(ts, s, rs, n - 1), n - 1, i, rs[n - 1]);
      }
    }
  }

  lemma {:induction false} LoopedBelow(ts: TestSettings, s: Rig, rs: Readings, n: nat, i: nat)
    requires TestSettingsOk(ts) && n <= i < HpCount
    ensures SameAt(Looped(ts, s, rs, n), s, i)
  {
    hide StepOne;
    if n > 0 {
      LoopedBelow(ts, s, rs, n - 1, i);
      StepOthers(ts, Looped(ts, s, rs, n - 1), n - 1, i, rs[n - 1]);
    }
  }

  /** What one loop does to the test of a hardpoint. */
  function Next(ts: TestSettings, t: TestState, motion: Motion, r: Reading): TestState
    requires TestSettingsOk(ts)
  {
    match t
    case MovingNegative => if r.lowSwitch then TestingPositive else MovingNegative
    case TestingPositive => if r.highSwitch then TestingNegative else TestingPositive
    case TestingNegative =>
      if !r.lowSwitch then TestingNegative else if ReferenceSteps(ts) == 0 then Failed else MovingReference
    case MovingReference => if motion == Standby then Passed else MovingReference
    case _ => t
  }

  /** Where a changed test sends its hardpoint. */
  function Sent(ts: TestSettings, t: TestState): int
    requires TestSettingsOk(ts)
  {
    match t
    case TestingPositive => FullTravel
    case TestingNegative => -FullTravel
    case _ => ReferenceSteps(ts)
  }

  lemma LoopedMeans(ts: TestSettings, s: Rig, rs: Readings, i: nat)
    requires TestSettingsOk(ts) && i < HpCount
    ensures var s' := Looped(ts, s, rs, HpCount);
            var t := s'.tests[i];
            && t == Next(ts, s.tests[i], s.hps[i].motion, rs[i])
            && (t != s.tests[i] && Tested(t) ==> s'.hps[i].motion == Stepping && s'.hps[i].queued == Sent(ts, t))
  {
    hide ReferenceSteps, MovedOne, Looped;
    LoopedAt(ts, s, rs, HpCount, i);
    var before := Looped(ts, s, rs, i);
    MovedOthers(ts.st, before.hps, FullTravel, i, i);
    MovedOthers(ts.st, before.hps, -FullTravel, i, i);
    MovedOthers(ts.st, before.hps, ReferenceSteps(ts), i, i);
  }

  /** One loop and one hardpoint, exactly. It is driven down until switch 2 operates, then up until switch 1 does, down
      again until switch 2 does, and then to the reference position: 10001 encoder counts in steps, without the
      fraction, where it passes once idle. No move is a failure. */
  lemma LoopedExactly(ts: TestSettings, s: Rig, rs: Readings, i: nat)
    requires TestSettingsOk(ts) && i < HpCount
    ensures var s' := Looped(ts, s, rs, HpCount);
            var t, t', h, h' := s.tests[i], s'.tests[i], s.hps[i], s'.hps[i];
            var low, high := rs[i].lowSwitch, rs[i].highSwitch;
            match t
            case MovingNegative =>
              && t' == (if low then TestingPositive else MovingNegative) && h'.motion.Stepping?
              && h'.queued == if low then 999999999 else if h.motion.Stepping? then h.queued else -999999999
            case TestingPositive =>
              if high then t' == TestingNegative && h'.motion.Stepping? && h'.queued == -999999999
              else t' == t && h'.motion == h.motion && h'.queued == h.queued
            case TestingNegative =>
              if !low then t' == t && h'.motion == h.motion && h'.queued == h.queued
              else if t' == Failed then
                Truncates(0, 10001.0 * ts.perEncoder / ts.perStep) && h'.motion == h.motion && h'.queued == h.queued
              else
                && t' == MovingReference && h'.motion.Stepping?
                && h'.queued != 0 && Truncates(h'.queued, 10001.0 * ts.perEncoder / ts.perStep)
            case MovingReference =>
              t' == (if h.motion.Standby? then Passed else t) && h'.motion == h.motion && h'.queued == h.queued
            case _ => t' == t && h'.motion == h.motion && h'.queued == h.queued
  {
    hide ReferenceSteps, MovedOne, Looped, Truncates;
    LoopedAt(ts, s, rs, HpCount, i);
    var before := Looped(ts, s, rs, i);
    ReferenceIs(ts);
    MovedOthers(ts.st, before.hps, FullTravel, i, i);
    MovedOthers(ts.st, before.hps, -FullTravel, i, i);
    MovedOthers(ts.st, before.hps, ReferenceSteps(ts), i, i);
  }

  lemma ReferenceIs(ts: TestSettings)
    requires TestSettingsOk(ts)
    ensures Truncates(ReferenceSteps(ts), 10001.0 * ts.perEncoder / ts.perStep)
  {
    TruncIs(10001.0 * ts.perEncoder / ts.perStep);
  }

  // ----- what a passed test has seen ------------------------------------------------------------------------

  /** The events that carried a test through its states. */
  datatype Evidence = Evidence(start: nat, low: nat, high: nat, lowAgain: nat, idle: nat)

  function Rank(t: TestState): nat {
    match t
    case MovingNegative => 1
    case TestingPositive => 2
    case TestingNegative => 3
    case MovingReference => 4
    case Passed => 5
    case _ => 0
  }

  /** A loop that found the switch operated and sent the hardpoint on its way. */
  ghost predicate Saw(ts: TestSettings, s: Rig, es: seq<Event>, i: nat, at: nat, low: bool, steps: int)
    requires TestSettingsOk(ts) && i < HpCount && forall k :: 0 <= k < |es| ==> EventOk(es[k])
  {
    && at < |es| && es[at].Loop? && (if low then es[at].readings[i].lowSwitch else es[at].readings[i].highSwitch)
    && var h := Play(ts, s, es[..at + 1]).hps[i]; h.motion == Stepping && h.queued == steps
  }

  /** The test was last started by event `start` and has been on its way since: later starts were refused. */
  ghost predicate Begun(ts: TestSettings, s: Rig, es: seq<Event>, i: nat, start: nat)
    requires TestSettingsOk(ts) && i < HpCount && forall k :: 0 <= k < |es| ==> EventOk(es[k])
  {
    && start < |es| && es[start] == Start(i) && !Tested(Play(ts, s, es[..start]).tests[i])
    && (forall k :: start < k < |es| && es[k] == Start(i) ==> Tested(Play(ts, s, es[..k]).tests[i]))
    && forall k :: start < k <= |es| ==> Rank(Play(ts, s, es[..k]).tests[i]) >= 1
  }

  ghost predicate Documented(ts: TestSettings, s: Rig, es: seq<Event>, i: nat, rank: nat, e: Evidence)
    requires TestSettingsOk(ts) && i < HpCount && forall k :: 0 <= k < |es| ==> EventOk(es[k])
  {
    && e.start < |es| && Begun(ts, s, es, i, e.start)
    && (rank >= 2 ==> e.start < e.low < |es| && Saw(ts, s, es, i, e.low, true, 999999999))
    && (rank >= 3 ==> e.low < e.high < |es| && Saw(ts, s, es, i, e.high, false, -999999999))
    && (rank >= 4 ==> e.high < e.lowAgain < |es| && Saw(ts, s, es, i, e.lowAgain, true, ReferenceSteps(ts)))
    && (rank >= 5 ==>
          e.lowAgain < e.idle < |es| && es[e.idle].Loop? && Play(ts, s, es[..e.idle]).hps[i].motion == Standby)
  }

  lemma SawLater(ts: TestSettings, s: Rig, es: seq<Event>, n: nat, i: nat, at: nat, low: bool, steps: int)
    requires TestSettingsOk(ts) && i < HpCount && forall k :: 0 <= k < |es| ==> EventOk(es[k])
    requires n <= |es| && Saw(ts, s, es[..n], i, at, low, steps)
    ensures Saw(ts, s, es, i, at, low, steps)
  {
    assert es[..n][..at + 1] == es[..at + 1];
  }

  lemma Prefixes(es: seq<Event>, k: nat)
    requires es != [] && k <= |es|
    ensures k < |es| ==> es[..|es| - 1][..k] == es[..k]
    ensures k == |es| ==> es[..k] == es
  {
  }

  lemma BegunLater(ts: TestSettings, s: Rig, es: seq<Event>, i: nat, start: nat)
    requires TestSettingsOk(ts) && i < HpCount && forall k :: 0 <= k < |es| ==> EventOk(es[k])
    requires es != [] && Begun(ts, s, es[..|es| - 1], i, start) && Rank(Play(ts, s, es).tests[i]) >= 1
    requires es[|es| - 1] == Start(i) ==> Tested(Play(ts, s, es[..|es| - 1]).tests[i])
    ensures Begun(ts, s, es, i, start)
  {
    hide Play, Rank, Tested;
    var n := |es| - 1;
    Prefixes(es, start);
    forall k | start < k < |es| && es[k] == Start(i)
      ensures Tested(Play(ts, s, es[..k]).tests[i])
    {
      Prefixes(es, k);
      if k < n { assert es[..n][k] == es[k]; }
    }
    forall k | start < k <= |es|
      ensures Rank(Play(ts, s, es[..k]).tests[i]) >= 1
    {
      Prefixes(es, k);
    }
  }

  lemma DocumentedLater(ts: TestSettings, s: Rig, es: seq<Event>, i: nat, rank: nat, e: Evidence)
    requires TestSettingsOk(ts) && i < HpCount && forall k :: 0 <= k < |es| ==> EventOk(es[k])
    requires es != [] && Documented(ts, s, es[..|es| - 1], i, rank, e) && Rank(Play(ts, s, es).tests[i]) >= 1
    requires es[|es| - 1] == Start(i) ==> Tested(Play(ts, s, es[..|es| - 1]).tests[i])
    ensures Documented(ts, s, es, i, rank, e)
  {
    hide Saw, Begun, Play;
    var n := |es| - 1;
    BegunLater(ts, s, es, i, e.start);
    if rank >= 2 { SawLater(ts, s, es, n, i, e.low, true, FullTravel); }
    if rank >= 3 { SawLater(ts, s, es, n, i, e.high, false, -FullTravel); }
    if rank >= 4 { SawLater(ts, s, es, n, i, e.lowAgain, true, ReferenceSteps(ts)); }
    if rank >= 5 { assert es[..n][..e.idle] == es[..e.idle]; }
  }

  /** How one event changes the state of a test. */
  lemma TestChange(ts: TestSettings, s: Rig, es: seq<Event>, i: nat)
    requires TestSettingsOk(ts) && i < HpCount && es != [] && forall k :: 0 <= k < |es| ==> EventOk(es[k])
    ensures var before, after, e := Play(ts, s, es[..|es| - 1]), Play(ts, s, es), es[|es| - 1];
            var t, t' := before.tests[i], after.tests[i];
            match e
            case Start(k) => t' == if k == i && !Tested(t) then MovingNegative else t
            case Kill(k) => t' == if k == i && Tested(t) then NotTested else t
            case Loop(rs) =>
              && t' == Next(ts, t, before.hps[i].motion, rs[i])
              && (t' != t && Tested(t') ==> after.hps[i].motion == Stepping && after.hps[i].queued == Sent(ts, t'))
            case Position(_) => t' == t
  {
    hide Looped, Apply, ReferenceSteps;
    if es[|es| - 1].Loop? {
      LoopedMeans(ts, Play(ts, s, es[..|es| - 1]), es[|es| - 1].readings, i);
    }
  }

  lemma BegunNow(ts: TestSettings, s: Rig, es: seq<Event>, i: nat)
    requires TestSettingsOk(ts) && i < HpCount && es != [] && forall k :: 0 <= k < |es| ==> EventOk(es[k])
    requires es[|es| - 1] == Start(i) && !Tested(Play(ts, s, es[..|es| - 1]).tests[i])
    requires Rank(Play(ts, s, es).tests[i]) >= 1
    ensures Begun(ts, s, es, i, |es| - 1)
  {
    hide Play;
    assert es[..|es|] == es;
  }

  /** Every test under way or passed has come through all its earlier stages, each in a later loop. */
  lemma {:induction false} Milestones(ts: TestSettings, s: Rig, es: seq<Event>, i: nat) returns (e: Evidence)
    requires TestSettingsOk(ts) && i < HpCount && forall k :: 0 <= k < |es| ==> EventOk(es[k])
    requires s.tests[i] == NotTested
    ensures var rank := Rank(Play(ts, s, es).tests[i]); rank >= 1 ==> Documented(ts, s, es, i, rank, e)
    decreases |es|
  {
    hide React, Documented;
    e := Evidence(0, 0, 0, 0, 0);
    if es != [] {
      e := Milestones(ts, s, es[..|es| - 1], i);
      e := Milestone(ts, s, es, i, e);
    }
  }

  lemma Milestone(ts: TestSettings, s: Rig, es: seq<Event>, i: nat, was: Evidence) returns (e: Evidence)
    requires TestSettingsOk(ts) && i < HpCount && es != [] && forall k :: 0 <= k < |es| ==> EventOk(es[k])
    requires var rank := Rank(Play(ts, s, es[..|es| - 1]).tests[i]);
             rank >= 1 ==> Documented(ts, s, es[..|es| - 1], i, rank, was)
    ensures var rank := Rank(Play(ts, s, es).tests[i]); rank >= 1 ==> Documented(ts, s, es, i, rank, e)
  {
    hide Saw, Begun, ReferenceSteps, Play;
    var n := |es| - 1;
    var t, t' := Play(ts, s, es[..n]).tests[i], Play(ts, s, es).tests[i];
    TestChange(ts, s, es, i);
    e := was;
    if Rank(t') >= 1 {
      if es[n] == Start(i) && !Tested(t) {
        e := was.(start := n);
        BegunNow(ts, s, es, i);
      } else {
        DocumentedLater(ts, s, es, i, Rank(t), was);
        if t' != t {
          match t'
          case TestingPositive =>
            e := was.(low := n);
            SawNow(ts, s, es, i, true, FullTravel);
          case TestingNegative =>
            e := was.(high := n);
            SawNow(ts, s, es, i, false, -FullTravel);
          case MovingReference =>
            e := was.(lowAgain := n);
            SawNow(ts, s, es, i, true, ReferenceSteps(ts));
          case Passed =>
            e := was.(idle := n);
        }
      }
    }
  }

  lemma SawNow(ts: TestSettings, s: Rig, es: seq<Event>, i: nat, low: bool, steps: int)
    requires TestSettingsOk(ts) && i < HpCount && es != [] && forall k :: 0 <= k < |es| ==> EventOk(es[k])
    requires var e := es[|es| - 1];
             e.Loop? && if low then e.readings[i].lowSwitch else e.readings[i].highSwitch
    requires var h := Play(ts, s, es).hps[i]; h.motion == Stepping && h.queued == steps
    ensures Saw(ts, s, es, i, |es| - 1, low, steps)
  {
    hide Play;
    assert es[..|es|] == es;
  }

  /** In every run, a hardpoint passes only if, since its test was last started, limit switch 2, limit switch 1
      and limit switch 2 again were seen operated in loops each later than the one before, every one of them
      sending the hardpoint the other way, and a still later loop found it idle. */
  lemma TestSoundness(ts: TestSettings, s: Rig, es: seq<Event>, i: nat)
    requires TestSettingsOk(ts) && i < HpCount && forall k :: 0 <= k < |es| ==> EventOk(es[k])
    requires s.tests[i] == NotTested && Play(ts, s, es).tests[i] == Passed
    ensures exists e :: Documented(ts, s, es, i, 5, e)
    ensures Truncates(ReferenceSteps(ts), 10001.0 * ts.perEncoder / ts.perStep)
  {
    hide Documented, Play, ReferenceSteps, Truncates;
    var e := Milestones(ts, s, es, i);
    ReferenceIs(ts);
  }

  /** Switches that never operate leave a test running; it fails only, and cannot pass, when the move to the
      reference position is empty. */
  lemma {:induction false} FailsOnlyOnEmptyMove(ts: TestSettings, s: Rig, es: seq<Event>, i: nat)
    requires TestSettingsOk(ts) && i < HpCount && forall k :: 0 <= k < |es| ==> EventOk(es[k])
    requires s.tests[i] == NotTested
    ensures var t := Play(ts, s, es).tests[i];
            && (t == Failed ==> ReferenceSteps(ts) == 0)
            && (Rank(t) >= 4 ==> ReferenceSteps(ts) != 0)
    decreases |es|
  {
    hide React, ReferenceSteps;
    if es != [] {
      FailsOnlyOnEmptyMove(ts, s, es[..|es| - 1], i);
      TestChange(ts, s, es, i);
    }
  }

  class HardpointTestController {
    const ts: TestSettings
    const position: PositionController
    const tests: array<TestState>

    ghost predicate Valid() {
      && TestSettingsOk(ts) && position.Valid() && position.st == ts.st
      && tests.Length == HpCount
    }

    ghost function State(): Rig
      requires Valid()
      reads tests, position.hps
    {
      Rig(tests[..], position.State())
    }

    constructor (ts: TestSettings, position: PositionController)
      requires TestSettingsOk(ts) && position.Valid() && position.st == ts.st
      ensures Valid() && this.position == position && this.ts == ts && fresh(tests)
      ensures forall i :: 0 <= i < HpCount ==> State().tests[i] == NotTested
    {
      this.ts, this.position := ts, position;
      tests := new TestState[HpCount](_ => NotTested);
    }

    method StartHardpointTest(i: nat) returns (ok: bool)
      requires Valid() && i < HpCount
      modifies tests
      ensures State() == Started(old(State()), i) && ok == !Tested(old(tests[i]))
    {
      ok := !Tested(tests[i]);
      if ok {
        tests[i] := MovingNegative;
      }
    }

    method KillHardpointTest(i: nat) returns (ok: bool)
      requires Valid() && i < HpCount
      modifies tests, position.hps
      ensures State() == Killed(old(State()), i) && ok == Tested(old(tests[i]))
    {
      ok := Tested(tests[i]);
      if ok {
        tests[i] := NotTested;
        position.StopMotion(i);
      }
    }

    method RunLoop(rs: Readings) returns (changed: bool)
      requires Valid()
      modifies tests, position.hps
      ensures State() == Looped(ts, old(State()), rs, HpCount)
    {
      hide StepOne;
      changed := false;
      ghost var was := State();
      for i := 0 to HpCount
        invariant State() == Looped(ts, was, rs, i)
      {
        var c := RunHardpointLoop(i, rs[i]);
        changed := changed || c;
      }
    }

    method MoveOrFail(i: nat, steps: int) returns (ok: bool)
      requires Valid() && i < HpCount
      modifies tests, position.hps
      ensures ok == (steps != 0)
      ensures ok ==> State() == old(State()).(hps := MovedOne(ts.st, old(position.State()), steps, i))
      ensures !ok ==> State() == old(State()).(tests := old(tests[..])[i := Failed])
    {
      hide Rescale;
      ok := position.MoveHardpoint(steps, i);
      if !ok {
        tests[i] := Failed;
      }
    }

    method RunHardpointLoop(i: nat, r: Reading) returns (changed: bool)
      requires Valid() && i < HpCount
      modifies tests, position.hps
      ensures State() == StepOne(ts, old(State()), i, r) && changed == (tests[i] != old(tests[i]))
    {
      hide MovedOne;
      var was := tests[i];
      match was {
        case MovingNegative =>
          if r.lowSwitch {
            var ok := MoveOrFail(i, FullTravel);
            if ok {
              tests[i] := TestingPositive;
            }
          } else if position.hps[i].motion != Stepping {
            var ok := MoveOrFail(i, -FullTravel);
          }
        case TestingPositive =>
          if r.highSwitch {
            var ok := MoveOrFail(i, -FullTravel);
            if ok {
              tests[i] := TestingNegative;
            }
          }
        case TestingNegative =>
          if r.lowSwitch {
            var ok := MoveOrFail(i, ReferenceSteps(ts));
            if ok {
              tests[i] := MovingReference;
            }
          }
        case MovingReference =>
          if position.hps[i].motion == Standby {
            tests[i] := Passed;
          }
        case _ =>
      }
      changed := tests[i] != was;
    }
  }
}
