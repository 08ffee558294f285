/** BumpTestController: pushing and pulling force actuators by a known offset, one axis at a time, while the
    measured forces are compared with the expected ones.

    What the source keeps in arrays over Z, X, Y and secondary cylinder indices is one record per actuator here. */
module BumpTests {
  const FaCount := 156
  const TestForce := 222.0

  /** What the statistics of the latest measurements say about one actuator and one kind of test. */
  datatype Status =
    | AllFine | NoData | InvalidTestKind | InvalidActuator | WrongStateHistory
    | UndershootError | UndershootWarning | OvershootWarning | OvershootError | RmsError | RmsWarning

  /** Statistics are available for exactly the statuses that were computed from them. */
  predicate HasStatistics(s: Status) {
    !(s.NoData? || s.InvalidTestKind? || s.InvalidActuator? || s.WrongStateHistory?)
  }

  predicate IsError(s: Status) { s.OvershootError? || s.UndershootError? || s.RmsError? }

  predicate IsWarning(s: Status) { s.OvershootWarning? || s.UndershootWarning? || s.RmsWarning? }

  datatype Stage =
    | NotTested | Triggered | TestingPositive | TestingPositiveWait | TestingNegative | TestingNegativeWait
    | Passed | FailedTimeout | FailedPositiveOvershoot | FailedPositiveUndershoot
    | FailedNegativeOvershoot | FailedNegativeUndershoot | FailedNonTestedProblem

  /** ForceActuatorBumpTestStatus::is_tested. */
  predicate IsTested(s: Stage) {
    s.Triggered? || s.TestingPositive? || s.TestingPositiveWait? || s.TestingNegative? || s.TestingNegativeWait?
  }

  predicate Positive(s: Stage) { s.Triggered? || s.TestingPositive? || s.TestingPositiveWait? }

  datatype TestType = PrimaryTest | SecondaryTest | XTest | YTest | ZTest

  predicate IsPrimary(t: TestType) { t.PrimaryTest? || t.ZTest? }

  /** A status, and whether the average force was at or above the expected one. */
  datatype Reading = Reading(status: Status, above: bool)

  datatype Report = Report(primary: Reading, secondary: Reading, x: Reading, y: Reading, z: Reading)

  function Of(r: Report, t: TestType): Reading {
    match t
    case PrimaryTest => r.primary
    case SecondaryTest => r.secondary
    case XTest => r.x
    case YTest => r.y
    case ZTest => r.z
  }

  /** The horizontal direction a dual axis actuator acts in. */
  datatype Axes = Single | AlongX | AlongY

  datatype Actuator = Actuator(axes: Axes, timeout: int, cylinders: bool, primary: Stage, secondary: Stage,
                               finalPrimary: Stage, finalSecondary: Stage, z: real, side: real)

  function StageOf(a: Actuator, primary: bool): Stage { if primary then a.primary else a.secondary }

  function TypeOf(a: Actuator, primary: bool): TestType {
    if primary then (if a.cylinders then PrimaryTest else ZTest)
    else if a.cylinders then SecondaryTest
    else if a.axes.AlongX? then XTest else YTest
  }

  /** One offset asked of the force controller. */
  datatype Call = Call(test: TestType, force: real)

  /** One look at the statistics that counts for the outcome. */
  datatype Judgement = Judgement(reading: Reading, stage: Stage, problems: bool)

  /** Since its last trigger: the offsets asked for, and what was judged on either axis. */
  datatype History = History(calls: seq<Call>, primary: seq<Judgement>, secondary: seq<Judgement>)

  datatype Tested = Tested(a: Actuator, h: History)

  // ----- the transitions ------------------------------------------------------------------------------------

  function StatusToSal(r: Reading, stage: Stage): Stage {
    match r.status
    case AllFine | OvershootWarning | UndershootWarning | RmsWarning => Passed
    case OvershootError => if Positive(stage) then FailedPositiveOvershoot else FailedNegativeOvershoot
    case UndershootError => if Positive(stage) then FailedPositiveUndershoot else FailedNegativeUndershoot
    case RmsError =>
      if r.above then (if Positive(stage) then FailedPositiveOvershoot else FailedNegativeOvershoot)
      else if Positive(stage) then FailedPositiveUndershoot else FailedNegativeUndershoot
    case _ => FailedTimeout
  }

  /** The outcome recorded so far, after one more judgement. */
  function Settled(outcome: Stage, j: Judgement): Stage {
    var o := if j.reading.status.AllFine? then outcome else StatusToSal(j.reading, j.stage);
    if j.problems && o.Passed? then FailedNonTestedProblem else o
  }

  /** Whether an actuator that is not within a test of its own shows an error during a test of kind `t`. */
  predicate Problem(a: Actuator, own: bool, t: TestType, now: int, r: Report) {
    var p := if t.PrimaryTest? || t.SecondaryTest? then r.primary else r.z;
    var s :=
      if t.PrimaryTest? || t.SecondaryTest? then r.secondary
      else if t.XTest? || (t.ZTest? && a.axes.AlongX?) then r.x else r.y;
    && a.timeout <= now
    && ((!(own && IsPrimary(t)) && IsError(p.status))
        || (!a.axes.Single? && (!own || IsPrimary(t)) && IsError(s.status)))
  }

  predicate Problems(acts: seq<Actuator>, z: nat, t: TestType, now: int, reports: seq<Report>)
    requires |reports| == |acts|
  {
    exists k :: 0 <= k < |acts| && Problem(acts[k], k == z, t, now, reports[k])
  }

  function Finalized(t: Tested, primary: bool, r: Reading, problems: bool): Tested {
    var j := Judgement(r, StageOf(t.a, primary), problems);
    if primary then Tested(t.a.(finalPrimary := Settled(t.a.finalPrimary, j)), t.h.(primary := t.h.primary + [j]))
    else Tested(t.a.(finalSecondary := Settled(t.a.finalSecondary, j)), t.h.(secondary := t.h.secondary + [j]))
  }

  /** OffsetForceComponent::applyActuatorOffset. Cylinders are not among the axes it knows: nothing is offset. */
  function Offset(a: Actuator, t: TestType, force: real): Actuator {
    match t
    case XTest => a.(side := force)
    case YTest => a.(side := force)
    case ZTest => a.(z := force)
    case _ => a
  }

  /** The force asked for when a stage is left, and the stage after it. */
  function Advance(a: Actuator, primary: bool): (r: (real, Stage)) {
    match StageOf(a, primary)
    case Triggered => (TestForce, TestingPositive)
    case TestingPositive => (0.0, TestingPositiveWait)
    case TestingPositiveWait => (-TestForce, TestingNegative)
    case TestingNegative => (0.0, TestingNegativeWait)
    case TestingNegativeWait => (0.0, if primary then a.finalPrimary else a.finalSecondary)
    case s => (0.0, s)
  }

  function Advanced(settle: int, t: Tested, primary: bool, now: int): Tested {
    var step := Advance(t.a, primary);
    var a := Offset(t.a, TypeOf(t.a, primary), step.0).(timeout := now + settle);
    Tested(if primary then a.(primary := step.1) else a.(secondary := step.1),
           t.h.(calls := t.h.calls + [Call(TypeOf(t.a, primary), step.0)]))
  }

  /** _run_axis, on an axis that is being tested. */
  function AxisStep(settle: int, t: Tested, primary: bool, r: Reading, now: int, problems: bool): Tested {
    var timedOut := t.a.timeout <= now;
    var t1 := if timedOut && HasStatistics(r.status) then Finalized(t, primary, r, problems) else t;
    if r.status.AllFine? then Advanced(settle, Finalized(t1, primary, r, problems), primary, now)
    else if timedOut then Advanced(settle, t1, primary, now)
    else t
  }

  /** What one cycle brings to one actuator: its report, the clock on either axis, and problems seen elsewhere. */
  datatype Visit = Visit(report: Report, first: int, second: int, firstProblems: bool, secondProblems: bool)

  function PrimaryStep(settle: int, t: Tested, report: Report, now: int, problems: bool): Tested {
    if IsTested(t.a.primary) then AxisStep(settle, t, true, Of(report, TypeOf(t.a, true)), now, problems) else t
  }

  /** The secondary axis waits for the primary one. */
  predicate SecondaryRuns(a: Actuator) { !a.axes.Single? && !IsTested(a.primary) && IsTested(a.secondary) }

  function SecondaryStep(settle: int, t: Tested, report: Report, now: int, problems: bool): Tested {
    if SecondaryRuns(t.a) then AxisStep(settle, t, false, Of(report, TypeOf(t.a, false)), now, problems) else t
  }

  function ActuatorStep(settle: int, t: Tested, v: Visit): Tested {
    var t1 := PrimaryStep(settle, t, v.report, v.first, v.firstProblems);
    SecondaryStep(settle, t1, v.report, v.second, v.secondProblems)
  }

  datatype Input = Input(report: Report, first: int, second: int)

  function Actuators(ts: seq<Tested>): (acts: seq<Actuator>)
    ensures |acts| == |ts|
  {
    seq(|ts|, k requires 0 <= k < |ts| => ts[k].a)
  }

  function Reports(inputs: seq<Input>): (rs: seq<Report>)
    ensures |rs| == |inputs|
  {
    seq(|inputs|, k requires 0 <= k < |inputs| => inputs[k].report)
  }

  function VisitOf(settle: int, ts: seq<Tested>, z: nat, inputs: seq<Input>): Visit
    requires |inputs| == |ts| && z < |ts|
  {
    var i := inputs[z];
    var p1 := Problems(Actuators(ts), z, TypeOf(ts[z].a, true), i.first, Reports(inputs));
    var t1 := PrimaryStep(settle, ts[z], i.report, i.first, p1);
    Visit(i.report, i.first, i.second, p1,
          Problems(Actuators(ts[z := t1]), z, TypeOf(t1.a, false), i.second, Reports(inputs)))
  }

  /** The first `n` actuators of one runLoop. */
  function Cycle(settle: int, ts: seq<Tested>, inputs: seq<Input>, n: nat): (r: seq<Tested>)
    requires |inputs| == |ts| && n <= |ts|
    ensures |r| == |ts|
  {
    if n == 0 then ts
    else
      var r := Cycle(settle, ts, inputs, n - 1);
      r[n - 1 := ActuatorStep(settle, r[n - 1], VisitOf(settle, r, n - 1, inputs))]
  }

  /** setBumpTestActuator. A secondary test of a single axis actuator is refused, late: the outcome of a primary test
      asked for with it starts afresh, even in the middle of such a test. */
  function TriggerOne(settle: int, t: Tested, cylinders: bool, primary: bool, secondary: bool, now: int): Tested {
    var a := t.a.(timeout := now + settle, cylinders := cylinders);
    var a1 := if primary then a.(finalPrimary := Passed) else a;
    if secondary && a.axes.Single? then
      Tested(a1, if primary && IsTested(a.primary) then t.h.(primary := []) else t.h)
    else
      var a2 := if secondary then a1.(finalSecondary := Passed, secondary := Triggered) else a1;
      Tested(if primary then a2.(primary := Triggered) else a2,
             History([], if primary then [] else t.h.primary, if secondary then [] else t.h.secondary))
  }

  function StopOne(settle: int, t: Tested, now: int): Tested {
    Tested(t.a.(timeout := now - settle, cylinders := false, primary := NotTested, secondary := NotTested,
                z := 0.0, side := 0.0),
           History([], [], []))
  }

  datatype Action =
    | Trigger(at: nat, cylinders: bool, primary: bool, secondary: bool, now: int)
    | RunLoop(inputs: seq<Input>)
    | StopAll(now: int)

  predicate ActionOk(n: nat, c: Action) {
    match c
    case Trigger(z, _, _, _, _) => z < n
    case RunLoop(inputs) => |inputs| == n
    case StopAll(_) => true
  }

  function Act(settle: int, ts: seq<Tested>, c: Action): (r: seq<Tested>)
    requires ActionOk(|ts|, c)
    ensures |r| == |ts|
  {
    match c
    case Trigger(z, cylinders, primary, secondary, now) =>
      ts[z := TriggerOne(settle, ts[z], cylinders, primary, secondary, now)]
    case RunLoop(inputs) => Cycle(settle, ts, inputs, |ts|)
    case StopAll(now) => seq(|ts|, k requires 0 <= k < |ts| => StopOne(settle, ts[k], now))
  }

  function Run(settle: int, ts: seq<Tested>, cs: seq<Action>): (r: seq<Tested>)
    requires forall k :: 0 <= k < |cs| ==> ActionOk(|ts|, cs[k])
    ensures |r| == |ts|
    decreases |cs|
  {
    if cs == [] then ts else Act(settle, Run(settle, ts, cs[..|cs| - 1]), cs[|cs| - 1])
  }

  predicate Idle(a: Actuator) { !IsTested(a.primary) && !IsTested(a.secondary) }

  /** What one runLoop does to one actuator depends on the others only through the problems they show. */
  lemma {:induction false} CycleAt(settle: int, ts: seq<Tested>, inputs: seq<Input>, n: nat, z: nat)
    requires |inputs| == |ts| && z < |ts| && n <= |ts|
    ensures Cycle(settle, ts, inputs, n)[z]
         == if z >= n then ts[z]
            else ActuatorStep(settle, ts[z], VisitOf(settle, Cycle(settle, ts, inputs, z), z, inputs))
  {
    hide ActuatorStep, VisitOf;
    if n > 0 {
      CycleAt(settle, ts, inputs, n - 1, z);
    }
  }

  // ----- the offsets of a test --------------------------------------------------------------------------------

  function Script(t: TestType): (s: seq<Call>)
    ensures |s| == 5
  {
    [Call(t, 222.0), Call(t, 0.0), Call(t, -222.0), Call(t, 0.0), Call(t, 0.0)]
  }

  function Done(s: Stage): nat {
    match s
    case Triggered => 0
    case TestingPositive => 1
    case TestingPositiveWait => 2
    case TestingNegative => 3
    case TestingNegativeWait => 4
    case _ => 5
  }

  function AxisLeft(a: Actuator, primary: bool): seq<Call> { Script(TypeOf(a, primary))[Done(StageOf(a, primary))..] }

  /** The offsets still to come. */
  function Left(a: Actuator): seq<Call> { AxisLeft(a, true) + AxisLeft(a, false) }

  function ForceAt(s: Stage): real {
    if s.TestingPositive? then TestForce else if s.TestingNegative? then -TestForce else 0.0
  }

  /** The outcome of a sequence of judgements. */
  function Verdict(js: seq<Judgement>): (s: Stage)
    ensures !IsTested(s) && !s.NotTested?
  {
    if js == [] then Passed else Settled(Verdict(js[..|js| - 1]), js[|js| - 1])
  }

  predicate AxisSound(stage: Stage, outcome: Stage, js: seq<Judgement>) {
    && (forall k :: 0 <= k < |js| ==> HasStatistics(js[k].reading.status))
    && (if IsTested(stage) then outcome == Verdict(js) else stage.NotTested? || stage == Verdict(js))
  }

  /** What holds of every actuator in every reachable state. */
  ghost predicate Sound(t: Tested) {
    && AxisSound(t.a.primary, t.a.finalPrimary, t.h.primary)
    && AxisSound(t.a.secondary, t.a.finalSecondary, t.h.secondary)
    && (t.a.axes.Single? ==> !IsTested(t.a.secondary))
  }

  lemma VerdictGrows(js: seq<Judgement>, j: Judgement)
    ensures Verdict(js + [j]) == Settled(Verdict(js), j)
  {
    assert (js + [j])[..|js|] == js;
  }

  lemma FinalizedSound(t: Tested, primary: bool, r: Reading, problems: bool)
    requires Sound(t) && HasStatistics(r.status) && IsTested(StageOf(t.a, primary))
    ensures Sound(Finalized(t, primary, r, problems))
  {
    hide Verdict, Settled;
    var j := Judgement(r, StageOf(t.a, primary), problems);
    VerdictGrows(if primary then t.h.primary else t.h.secondary, j);
  }

  lemma AdvancedSound(settle: int, t: Tested, primary: bool, now: int)
    requires Sound(t) && IsTested(StageOf(t.a, primary)) && (!primary ==> SecondaryRuns(t.a))
    ensures Sound(Advanced(settle, t, primary, now))
  {
    hide Verdict;
  }

  /** Leaving a stage asks for the next offset of the script. */
  lemma AdvancedLeft(settle: int, t: Tested, primary: bool, now: int)
    requires Sound(t) && IsTested(StageOf(t.a, primary)) && (!primary ==> SecondaryRuns(t.a))
    ensures var t' := Advanced(settle, t, primary, now);
            t'.h.calls + Left(t'.a) == t.h.calls + Left(t.a) && |Left(t'.a)| == |Left(t.a)| - 1
  {
    hide Sound, Script, AxisLeft, ForceAt;
    var t' := Advanced(settle, t, primary, now);
    var c := Call(TypeOf(t.a, primary), Advance(t.a, primary).0);
    OutcomeEnds(t, primary);
    AxisLeftStep(t.a, t'.a, primary);
    AxisLeftSame(t.a, t'.a, !primary);
    if primary {
      Regroup(t.h.calls, c, AxisLeft(t'.a, true), AxisLeft(t.a, false));
    } else {
      AxisLeftNone(t.a, true);
      Regroup(t.h.calls, c, AxisLeft(t'.a, false), []);
    }
  }

  lemma AxisLeftStep(a: Actuator, a': Actuator, primary: bool)
    requires IsTested(StageOf(a, primary)) && TypeOf(a', primary) == TypeOf(a, primary)
    requires Done(StageOf(a', primary)) == Done(StageOf(a, primary)) + 1
    ensures AxisLeft(a, primary) == [Call(TypeOf(a, primary), Advance(a, primary).0)] + AxisLeft(a', primary)
  {
    hide Script;
    ScriptIs(a, primary);
  }

  lemma AxisLeftSame(a: Actuator, a': Actuator, primary: bool)
    requires TypeOf(a', primary) == TypeOf(a, primary) && StageOf(a', primary) == StageOf(a, primary)
    ensures AxisLeft(a', primary) == AxisLeft(a, primary)
  {
  }

  lemma AxisLeftNone(a: Actuator, primary: bool)
    requires !IsTested(StageOf(a, primary))
    ensures AxisLeft(a, primary) == []
  {
  }

  lemma Regroup(calls: seq<Call>, c: Call, x: seq<Call>, y: seq<Call>)
    ensures (calls + [c]) + (x + y) == calls + (([c] + x) + y)
    ensures [] + ([c] + x) == [c] + x && [] + x == x && x + [] == x && ([c] + x) + [] == [c] + x
  {
  }

  lemma OutcomeEnds(t: Tested, primary: bool)
    requires Sound(t) && IsTested(StageOf(t.a, primary))
    ensures !IsTested(if primary then t.a.finalPrimary else t.a.finalSecondary)
  {
  }

  lemma ScriptIs(a: Actuator, primary: bool)
    ensures |Script(TypeOf(a, primary))| == 5
    ensures IsTested(StageOf(a, primary)) ==>
              Script(TypeOf(a, primary))[Done(StageOf(a, primary))] == Call(TypeOf(a, primary), Advance(a, primary).0)
  {
  }

  lemma AxisStepSound(settle: int, t: Tested, primary: bool, r: Reading, now: int, problems: bool)
    requires Sound(t) && IsTested(StageOf(t.a, primary)) && (!primary ==> SecondaryRuns(t.a))
    ensures var t' := AxisStep(settle, t, primary, r, now, problems);
            && Sound(t') && t'.h.calls + Left(t'.a) == t.h.calls + Left(t.a)
            && (t' == t || (|Left(t'.a)| == |Left(t.a)| - 1 && t'.a.timeout == now + settle))
            && (r.status.AllFine? || t.a.timeout <= now <==> t' != t)
  {
    hide Sound, Advance, Settled, Left;
    if r.status.AllFine? || t.a.timeout <= now {
      var t1 := if t.a.timeout <= now && HasStatistics(r.status) then Finalized(t, primary, r, problems) else t;
      if HasStatistics(r.status) {
        FinalizedSound(t, primary, r, problems);
        FinalizedSound(t1, primary, r, problems);
      }
      var t2 := if r.status.AllFine? then Finalized(t1, primary, r, problems) else t1;
      FinalizedLeft(t, primary, r, problems);
      FinalizedLeft(t1, primary, r, problems);
      AdvancedSound(settle, t2, primary, now);
      AdvancedLeft(settle, t2, primary, now);
    }
  }

  lemma FinalizedLeft(t: Tested, primary: bool, r: Reading, problems: bool)
    ensures var t' := Finalized(t, primary, r, problems); t'.h.calls == t.h.calls && Left(t'.a) == Left(t.a)
  {
  }

  lemma ActuatorStepSound(settle: int, t: Tested, v: Visit)
    requires Sound(t)
    ensures var t' := ActuatorStep(settle, t, v); Sound(t') && t'.h.calls + Left(t'.a) == t.h.calls + Left(t.a)
  {
    hide AxisStep, Left;
    if IsTested(t.a.primary) {
      AxisStepSound(settle, t, true, Of(v.report, TypeOf(t.a, true)), v.first, v.firstProblems);
    }
    var t1 := PrimaryStep(settle, t, v.report, v.first, v.firstProblems);
    if SecondaryRuns(t1.a) {
      AxisStepSound(settle, t1, false, Of(v.report, TypeOf(t1.a, false)), v.second, v.secondProblems);
    }
  }

  lemma TriggerSound(settle: int, t: Tested, cylinders: bool, primary: bool, secondary: bool, now: int)
    requires Sound(t)
    ensures var t' := TriggerOne(settle, t, cylinders, primary, secondary, now);
            && Sound(t') && t'.a.timeout == now + settle && t'.a.cylinders == cylinders
            && (if secondary && t.a.axes.Single? then
                  t'.a.primary == t.a.primary && t'.a.secondary == t.a.secondary && t'.h.calls == t.h.calls
                else
                  && t'.h.calls == []
                  && t'.a.primary == (if primary then Triggered else t.a.primary)
                  && t'.a.secondary == (if secondary then Triggered else t.a.secondary))
  {
  }

  lemma {:induction false} RunSound(settle: int, ts: seq<Tested>, cs: seq<Action>)
    requires forall k :: 0 <= k < |ts| ==> Sound(ts[k])
    requires forall k :: 0 <= k < |cs| ==> ActionOk(|ts|, cs[k])
    ensures forall k :: 0 <= k < |ts| ==> Sound(Run(settle, ts, cs)[k])
    decreases |cs|
  {
    hide Sound, ActuatorStep, VisitOf, Cycle, TriggerOne;
    if cs != [] {
      var n := |cs| - 1;
      RunSound(settle, ts, cs[..n]);
      var was := Run(settle, ts, cs[..n]);
      forall k | 0 <= k < |ts|
        ensures Sound(Act(settle, was, cs[n])[k])
      {
        assert ActionOk(|ts|, cs[n]);
        match cs[n]
        case Trigger(z, cylinders, primary, secondary, now) =>
          if k == z { TriggerSound(settle, was[z], cylinders, primary, secondary, now); }
        case RunLoop(inputs) =>
          CycleAt(settle, was, inputs, |ts|, k);
          ActuatorStepSound(settle, was[k], VisitOf(settle, Cycle(settle, was, inputs, k), k, inputs));
        case StopAll(now) => StopSound(settle, was[k], now);
      }
    }
  }

  lemma StopSound(settle: int, t: Tested, now: int)
    ensures Sound(StopOne(settle, t, now))
  {
  }

  // ----- one actuator through a run of the controller ---------------------------------------------------------

  /** Actions that leave the test of actuator `z` alone. */
  predicate Undisturbed(z: nat, cs: seq<Action>) {
    forall k :: 0 <= k < |cs| ==> !cs[k].StopAll? && (cs[k].Trigger? ==> cs[k].at != z)
  }

  function ActuatorRun(settle: int, t: Tested, vs: seq<Visit>): Tested {
    if vs == [] then t else ActuatorStep(settle, ActuatorRun(settle, t, vs[..|vs| - 1]), vs[|vs| - 1])
  }

  /** The visits a run of the controller pays to actuator `z`. */
  function Visits(settle: int, ts: seq<Tested>, cs: seq<Action>, z: nat): seq<Visit>
    requires z < |ts| && forall k :: 0 <= k < |cs| ==> ActionOk(|ts|, cs[k])
    decreases |cs|
  {
    if cs == [] then []
    else
      var n := |cs| - 1;
      assert ActionOk(|ts|, cs[n]);
      var before := Visits(settle, ts, cs[..n], z);
      if cs[n].RunLoop? then
        before + [VisitOf(settle, Cycle(settle, Run(settle, ts, cs[..n]), cs[n].inputs, z), z, cs[n].inputs)]
      else before
  }

  lemma {:induction false} Projection(settle: int, ts: seq<Tested>, cs: seq<Action>, z: nat)
    requires z < |ts| && Undisturbed(z, cs) && forall k :: 0 <= k < |cs| ==> ActionOk(|ts|, cs[k])
    ensures Run(settle, ts, cs)[z] == ActuatorRun(settle, ts[z], Visits(settle, ts, cs, z))
    decreases |cs|
  {
    hide ActuatorStep, VisitOf, Cycle, TriggerOne;
    if cs != [] {
      var n := |cs| - 1;
      Projection(settle, ts, cs[..n], z);
      var was := Run(settle, ts, cs[..n]);
      assert ActionOk(|ts|, cs[n]);
      if cs[n].RunLoop? {
        CycleAt(settle, was, cs[n].inputs, |ts|, z);
        var v := VisitOf(settle, Cycle(settle, was, cs[n].inputs, z), z, cs[n].inputs);
        var vs := Visits(settle, ts, cs[..n], z);
        assert (vs + [v])[..|vs|] == vs;
      }
    }
  }

  lemma {:induction false} ActuatorRunSound(settle: int, t: Tested, vs: seq<Visit>)
    requires Sound(t)
    ensures var t' := ActuatorRun(settle, t, vs); Sound(t') && t'.h.calls + Left(t'.a) == t.h.calls + Left(t.a)
  {
    hide Sound, ActuatorStep, Left;
    if vs != [] {
      ActuatorRunSound(settle, t, vs[..|vs| - 1]);
      ActuatorStepSound(settle, ActuatorRun(settle, t, vs[..|vs| - 1]), vs[|vs| - 1]);
    }
  }

  // ----- one look at an axis, exactly -----------------------------------------------------------------------------

  /** What a look at an axis goes by: the status of that axis itself, or of that cylinder. */
  function OwnReading(a: Actuator, primary: bool, r: Report): Reading {
    if a.cylinders then (if primary then r.primary else r.secondary)
    else if primary then r.z
    else match a.axes
         case AlongX => r.x
         case _ => r.y
  }

  /** An axis leaves its stage: it asks for the force of the next one on its own axis or cylinder, and sets a new
      timeout. The last stage gives way to the outcome. */
  predicate Leaves(settle: int, t: Tested, primary: bool, now: int, t': Tested) {
    var a, a' := t.a, t'.a;
    var stage, next := if primary then a.primary else a.secondary, if primary then a'.primary else a'.secondary;
    var force := if stage.Triggered? then 222.0 else if stage.TestingPositiveWait? then -222.0 else 0.0;
    var axis :=
      if a.cylinders then (if primary then PrimaryTest else SecondaryTest)
      else if primary then ZTest else if a.axes.AlongX? then XTest else YTest;
    && (stage.Triggered? ==> next.TestingPositive?)
    && (stage.TestingPositive? ==> next.TestingPositiveWait?)
    && (stage.TestingPositiveWait? ==> next.TestingNegative?)
    && (stage.TestingNegative? ==> next.TestingNegativeWait?)
    && (stage.TestingNegativeWait? ==> next == if primary then a'.finalPrimary else a'.finalSecondary)
    && t'.h.calls == t.h.calls + [Call(axis, force)] && a'.timeout == now + settle
    && a'.z == (if primary && !a.cylinders then force else a.z)
    && a'.side == (if !primary && !a.cylinders then force else a.side)
    && (if primary then a'.secondary == a.secondary else a'.primary == a.primary)
  }

  /** The judgements of a look at an axis: its own reading in its own stage, once or twice. */
  predicate Judges(js: seq<Judgement>, js': seq<Judgement>, j: Judgement, times: nat) {
    js' == js + seq(times, _ => j)
  }

  /** One look at an axis, exactly: it stays as it is, or its own reading is fine or its timeout has come, and it leaves
      its stage, judged once for a timeout with statistics and once more when fine. */
  lemma AxisStepExactly(settle: int, t: Tested, primary: bool, report: Report, now: int, problems: bool)
    requires IsTested(StageOf(t.a, primary))
    ensures var r := OwnReading(t.a, primary, report);
            var t' := AxisStep(settle, t, primary, Of(report, TypeOf(t.a, primary)), now, problems);
            var times := (if t.a.timeout <= now && HasStatistics(r.status) then 1 else 0)
                       + (if r.status.AllFine? then 1 else 0);
            var j := Judgement(r, if primary then t.a.primary else t.a.secondary, problems);
            && Of(report, TypeOf(t.a, primary)) == r
            && (if r.status.AllFine? || t.a.timeout <= now then Leaves(settle, t, primary, now, t') else t' == t)
            && Judges(t.h.primary, t'.h.primary, j, if primary then times else 0)
            && Judges(t.h.secondary, t'.h.secondary, j, if primary then 0 else times)
  {
    hide Finalized, Advanced, Leaves, Judges, Settled;
    var r := OwnReading(t.a, primary, report);
    assert Of(report, TypeOf(t.a, primary)) == r by { hide AxisStep; }
    var js := if primary then t.h.primary else t.h.secondary;
    var j := Judgement(r, StageOf(t.a, primary), problems);
    JudgesNone(t.h.primary, j);
    JudgesNone(t.h.secondary, j);
    var t1 := if t.a.timeout <= now && HasStatistics(r.status) then Finalized(t, primary, r, problems) else t;
    var t2 := if r.status.AllFine? then Finalized(t1, primary, r, problems) else t1;
    FinalizedKeeps(t, primary, r, problems);
    FinalizedKeeps(t1, primary, r, problems);
    Twice(js, j);
    AdvancedLeaves(settle, t, t2, primary, now);
  }

  /** Nothing else in the report matters to the axis. */
  lemma OthersIgnored(settle: int, t: Tested, primary: bool, report: Report, other: Report, now: int, problems: bool)
    requires IsTested(StageOf(t.a, primary)) && OwnReading(t.a, primary, report) == OwnReading(t.a, primary, other)
    ensures AxisStep(settle, t, primary, Of(report, TypeOf(t.a, primary)), now, problems)
         == AxisStep(settle, t, primary, Of(other, TypeOf(t.a, primary)), now, problems)
  {
    hide AxisStep, Of, OwnReading;
    AxisStepExactly(settle, t, primary, report, now, problems);
    AxisStepExactly(settle, t, primary, other, now, problems);
  }

  lemma JudgesNone(js: seq<Judgement>, j: Judgement)
    ensures Judges(js, js, j, 0)
  {
  }

  lemma FinalizedKeeps(t: Tested, primary: bool, r: Reading, problems: bool)
    ensures var t', j := Finalized(t, primary, r, problems), Judgement(r, StageOf(t.a, primary), problems);
            && t'.a == t.a.(finalPrimary := t'.a.finalPrimary, finalSecondary := t'.a.finalSecondary)
            && t'.h.calls == t.h.calls
            && t'.h.primary == (if primary then t.h.primary + [j] else t.h.primary)
            && t'.h.secondary == (if primary then t.h.secondary else t.h.secondary + [j])
  {
    hide Settled;
  }

  lemma AdvancedLeaves(settle: int, t: Tested, t2: Tested, primary: bool, now: int)
    requires IsTested(StageOf(t.a, primary)) && t2.h.calls == t.h.calls
    requires t2.a == t.a.(finalPrimary := t2.a.finalPrimary, finalSecondary := t2.a.finalSecondary)
    ensures Leaves(settle, t, primary, now, Advanced(settle, t2, primary, now))
    ensures Advanced(settle, t2, primary, now).h.primary == t2.h.primary
    ensures Advanced(settle, t2, primary, now).h.secondary == t2.h.secondary
  {
  }

  lemma Twice(js: seq<Judgement>, j: Judgement)
    ensures Judges(js, js + [j], j, 1) && Judges(js, js + [j] + [j], j, 2)
  {
  }

  /** Problems seen during a test, by kind of test: errors of cylinders during a cylinder test, of axes otherwise, on
      actuators whose timeout has passed; on the tested actuator itself only the axis not under test counts. */
  lemma ProblemsExactly(acts: seq<Actuator>, z: nat, t: TestType, now: int, reports: seq<Report>)
    requires |acts| == |reports|
    ensures Problems(acts, z, t, now, reports) <==>
            exists k :: 0 <= k < |acts| && acts[k].timeout <= now &&
              (match t
               case PrimaryTest =>
                 (k != z && Erroneous(reports[k].primary)) || (!acts[k].axes.Single? && Erroneous(reports[k].secondary))
               case SecondaryTest =>
                 Erroneous(reports[k].primary) || (k != z && !acts[k].axes.Single? && Erroneous(reports[k].secondary))
               case ZTest =>
                 || (k != z && Erroneous(reports[k].z))
                 || (acts[k].axes.AlongX? && Erroneous(reports[k].x))
                 || (acts[k].axes.AlongY? && Erroneous(reports[k].y))
               case XTest =>
                 Erroneous(reports[k].z) || (k != z && !acts[k].axes.Single? && Erroneous(reports[k].x))
               case YTest =>
                 Erroneous(reports[k].z) || (k != z && !acts[k].axes.Single? && Erroneous(reports[k].y)))
  {
    if Problems(acts, z, t, now, reports) {
      var k :| 0 <= k < |acts| && Problem(acts[k], k == z, t, now, reports[k]);
    }
    forall k | 0 <= k < |acts|
      ensures Problem(acts[k], k == z, t, now, reports[k]) ==> acts[k].timeout <= now
    {
    }
  }

  predicate Erroneous(r: Reading) {
    r.status == OvershootError || r.status == UndershootError || r.status == RmsError
  }

  // ----- the main claims --------------------------------------------------------------------------------------

  /** Whatever statuses arrive, the offsets of a test are those of its script: from the trigger on, what has been
      asked for and what is still to come make up the positive push, the release, the negative pull and two
      releases, on the primary axis first; an axis that was already under test has the rest of its script to go.
      Once nothing is tested any more that is exactly what was asked for. */
  lemma BumpTestOffsets(settle: int, ts: seq<Tested>, c: Action, cs: seq<Action>)
    requires c.Trigger? && c.at < |ts| && Sound(ts[c.at]) && !(c.secondary && ts[c.at].a.axes.Single?)
    requires Undisturbed(c.at, cs) && forall k :: 0 <= k < |cs| ==> ActionOk(|ts|, cs[k])
    ensures var begun := Act(settle, ts, c);
            var a, t := ts[c.at].a, Run(settle, begun, cs)[c.at];
            var first := if c.cylinders then PrimaryTest else ZTest;
            var second := if c.cylinders then SecondaryTest else if a.axes.AlongX? then XTest else YTest;
            var script := (if c.primary then Script(first)
                           else if IsTested(a.primary) then Script(first)[Done(a.primary)..] else [])
                        + (if c.secondary then Script(second)
                           else if IsTested(a.secondary) then Script(second)[Done(a.secondary)..] else []);
            && t.h.calls + Left(t.a) == script
            && (Idle(t.a) <==> t.h.calls == script)
  {
    hide Sound, TriggerOne, ActuatorRun, Run, Visits, Script, Undisturbed;
    var begun, z := Act(settle, ts, c), c.at;
    TriggerSound(settle, ts[z], c.cylinders, c.primary, c.secondary, c.now);
    Projection(settle, begun, cs, z);
    ActuatorRunSound(settle, begun[z], Visits(settle, begun, cs, z));
    var t := Run(settle, begun, cs)[z];
    IdleLeft(t.a);
    BegunScript(settle, ts[z], c);
    assert t.h.calls + Left(t.a) == Left(begun[z].a);
    assert |t.h.calls| + |Left(t.a)| == |t.h.calls + Left(t.a)|;
    if |Left(t.a)| == 0 {
      assert t.h.calls + Left(t.a) == t.h.calls;
    }
  }

  lemma BegunScript(settle: int, t: Tested, c: Action)
    requires c.Trigger? && !(c.secondary && t.a.axes.Single?)
    ensures var a, begun := t.a, TriggerOne(settle, t, c.cylinders, c.primary, c.secondary, c.now).a;
            var first := if c.cylinders then PrimaryTest else ZTest;
            var second := if c.cylinders then SecondaryTest else if a.axes.AlongX? then XTest else YTest;
            && AxisLeft(begun, true)
               == (if c.primary then Script(first)
                   else if IsTested(a.primary) then Script(first)[Done(a.primary)..] else [])
            && AxisLeft(begun, false)
               == (if c.secondary then Script(second)
                   else if IsTested(a.secondary) then Script(second)[Done(a.secondary)..] else [])
  {
    hide Script;
  }

  lemma IdleLeft(a: Actuator)
    ensures Idle(a) <==> |Left(a)| == 0
  {
  }

  // ----- the offsets applied -----------------------------------------------------------------------------------

  /** The actuator pushes both ways at once. */
  predicate Both(a: Actuator) { a.z != 0.0 && a.side != 0.0 }

  /** What every actuator should satisfy: never both offsets, and none once it is not tested any more. */
  predicate Faultless(a: Actuator) { !Both(a) && (Idle(a) ==> a.z == 0.0 == a.side) }

  /** Both offsets are applied, or the axis under test is still going to push while the other offset stands. */
  predicate Colliding(a: Actuator) {
    || Both(a)
    || (!a.cylinders && IsTested(a.primary) && Positive(a.primary) && a.side != 0.0)
    || (!a.cylinders && SecondaryRuns(a) && Positive(a.secondary) && a.z != 0.0)
  }

  /** Some offset stands that no axis under test is going to release. */
  predicate Leaving(a: Actuator) {
    || (a.z != 0.0 && (a.cylinders || !IsTested(a.primary)))
    || (a.side != 0.0 && (a.cylinders || !IsTested(a.secondary)))
  }

  predicate Safe(a: Actuator) { !Colliding(a) && !Leaving(a) }

  /** A trigger that meets a standing offset it will not take care of: any offset, for a cylinder test, and the
      horizontal one, for a test of the vertical axis. */
  predicate Disturbs(a: Actuator, cylinders: bool, primary: bool) {
    if cylinders then a.z != 0.0 || a.side != 0.0 else primary && a.side != 0.0
  }

  /** On an actuator without faults ahead, a trigger brings one about exactly if it disturbs. */
  lemma TriggerDisturbs(settle: int, t: Tested, cylinders: bool, primary: bool, secondary: bool, now: int)
    requires Sound(t) && Safe(t.a)
    ensures Safe(TriggerOne(settle, t, cylinders, primary, secondary, now).a) <==> !Disturbs(t.a, cylinders, primary)
  {
    hide AxisSound;
  }

  /** An axis that does not stay as it is is advanced, its outcome possibly settled anew. */
  lemma AxisStepAdvances(settle: int, t: Tested, primary: bool, r: Reading, now: int, problems: bool)
    returns (t1: Tested)
    requires Sound(t) && IsTested(StageOf(t.a, primary)) && (!primary ==> SecondaryRuns(t.a))
    ensures Sound(t1) && t1.a == t.a.(finalPrimary := t1.a.finalPrimary, finalSecondary := t1.a.finalSecondary)
    ensures AxisStep(settle, t, primary, r, now, problems)
         == if r.status.AllFine? || t.a.timeout <= now then Advanced(settle, t1, primary, now) else t
  {
    hide Sound, Settled, Advanced;
    t1 := t;
    if HasStatistics(r.status) {
      FinalizedSound(t, primary, r, problems);
      if t.a.timeout <= now {
        t1 := Finalized(t, primary, r, problems);
      }
      FinalizedSound(t1, primary, r, problems);
      if r.status.AllFine? {
        t1 := Finalized(t1, primary, r, problems);
      }
    }
  }

  lemma AdvancedKeeps(settle: int, t: Tested, primary: bool, now: int)
    requires Sound(t) && IsTested(StageOf(t.a, primary)) && (!primary ==> SecondaryRuns(t.a))
    ensures var a, a' := t.a, Advanced(settle, t, primary, now).a;
            (!Colliding(a) ==> !Colliding(a')) && (Leaving(a') <==> Leaving(a)) && (Tracks(a) ==> Tracks(a'))
  {
    hide Verdict;
    OutcomeEnds(t, primary);
  }

  /** Every offset is the one of the stage its axis is in. */
  predicate Tracks(a: Actuator) { !a.cylinders && a.z == ForceAt(a.primary) && a.side == ForceAt(a.secondary) }

  lemma StepKeeps(settle: int, t: Tested, v: Visit)
    requires Sound(t)
    ensures var a, a' := t.a, ActuatorStep(settle, t, v).a;
            (!Colliding(a) ==> !Colliding(a')) && (Leaving(a') <==> Leaving(a)) && (Tracks(a) ==> Tracks(a'))
  {
    hide Sound, AxisStep, Colliding, Leaving, Tracks, Advanced;
    if IsTested(t.a.primary) {
      AxisKeeps(settle, t, true, Of(v.report, TypeOf(t.a, true)), v.first, v.firstProblems);
    }
    var t1 := PrimaryStep(settle, t, v.report, v.first, v.firstProblems);
    if SecondaryRuns(t1.a) {
      AxisKeeps(settle, t1, false, Of(v.report, TypeOf(t1.a, false)), v.second, v.secondProblems);
    }
  }

  lemma AxisKeeps(settle: int, t: Tested, primary: bool, r: Reading, now: int, problems: bool)
    requires Sound(t) && IsTested(StageOf(t.a, primary)) && (!primary ==> SecondaryRuns(t.a))
    ensures var a, t' := t.a, AxisStep(settle, t, primary, r, now, problems);
            && Sound(t') && (!Colliding(a) ==> !Colliding(t'.a)) && (Leaving(t'.a) <==> Leaving(a))
            && (Tracks(a) ==> Tracks(t'.a))
  {
    hide Sound, AxisStep, Advanced, Left;
    AxisStepSound(settle, t, primary, r, now, problems);
    var t1 := AxisStepAdvances(settle, t, primary, r, now, problems);
    AdvancedKeeps(settle, t1, primary, now);
  }

  /** A visit that finds everything fine. */
  predicate Fine(v: Visit) { forall t :: Of(v.report, t).status.AllFine? }

  /** Fine visits after which a collision ahead has come about. */
  function Delay(a: Actuator): nat
    requires Colliding(a)
  {
    if Both(a) then 0
    else if (if IsTested(a.primary) then a.primary else a.secondary).TestingPositive? then 2 else 1
  }

  lemma FineStep(settle: int, t: Tested, v: Visit)
    requires Sound(t) && Fine(v) && Colliding(t.a) && !Both(t.a)
    ensures var a := ActuatorStep(settle, t, v).a; Colliding(a) && Delay(a) == Delay(t.a) - 1
  {
    hide Verdict, Settled, Finalized, AxisSound, AxisStep;
    if IsTested(t.a.primary) {
      var t1 := AxisStepAdvances(settle, t, true, Of(v.report, TypeOf(t.a, true)), v.first, v.firstProblems);
    } else {
      var t1 := AxisStepAdvances(settle, t, false, Of(v.report, TypeOf(t.a, false)), v.second, v.secondProblems);
    }
  }

  lemma {:induction false} CollisionComes(settle: int, t: Tested, vs: seq<Visit>)
    requires Sound(t) && Colliding(t.a) && |vs| <= Delay(t.a) && forall k :: 0 <= k < |vs| ==> Fine(vs[k])
    ensures var a := ActuatorRun(settle, t, vs).a; Colliding(a) && Delay(a) == Delay(t.a) - |vs|
  {
    hide Sound, ActuatorStep, Colliding, Delay, Fine;
    if vs != [] {
      var n := |vs| - 1;
      CollisionComes(settle, t, vs[..n]);
      ActuatorRunSound(settle, t, vs[..n]);
      DelayMeans(ActuatorRun(settle, t, vs[..n]).a);
      FineStep(settle, ActuatorRun(settle, t, vs[..n]), vs[n]);
    }
  }

  lemma DelayMeans(a: Actuator)
    requires Colliding(a)
    ensures Delay(a) == 0 <==> Both(a)
  {
  }

  /** Fine visits run a test to its end. */
  lemma FineEnds(settle: int, t: Tested, vs: seq<Visit>)
    requires Sound(t) && |vs| >= |Left(t.a)| && forall k :: 0 <= k < |vs| ==> Fine(vs[k])
    ensures Idle(ActuatorRun(settle, t, vs).a)
  {
    FineProgress(settle, t, vs);
    IdleLeft(ActuatorRun(settle, t, vs).a);
  }

  lemma {:induction false} FineProgress(settle: int, t: Tested, vs: seq<Visit>)
    requires Sound(t) && forall k :: 0 <= k < |vs| ==> Fine(vs[k])
    ensures var left := |Left(ActuatorRun(settle, t, vs).a)|; left == 0 || left <= |Left(t.a)| - |vs|
  {
    hide Sound, ActuatorStep, Left, Fine;
    if vs != [] {
      var n := |vs| - 1;
      FineProgress(settle, t, vs[..n]);
      ActuatorRunSound(settle, t, vs[..n]);
      FineLeft(settle, ActuatorRun(settle, t, vs[..n]), vs[n]);
    }
  }

  lemma FineLeft(settle: int, t: Tested, v: Visit)
    requires Sound(t) && Fine(v)
    ensures var left := |Left(ActuatorStep(settle, t, v).a)|; left <= |Left(t.a)| && (left == 0 || left < |Left(t.a)|)
  {
    hide Sound, AxisStep, Left;
    IdleOrRunning(t);
    IdleLeft(t.a);
    if IsTested(t.a.primary) {
      AxisStepSound(settle, t, true, Of(v.report, TypeOf(t.a, true)), v.first, v.firstProblems);
    }
    var t1 := PrimaryStep(settle, t, v.report, v.first, v.firstProblems);
    if SecondaryRuns(t1.a) {
      AxisStepSound(settle, t1, false, Of(v.report, TypeOf(t1.a, false)), v.second, v.secondProblems);
    }
  }

  lemma {:induction false} RunKeeps(settle: int, t: Tested, vs: seq<Visit>)
    requires Sound(t)
    ensures var a, a' := t.a, ActuatorRun(settle, t, vs).a;
            (!Colliding(a) ==> !Colliding(a')) && (Leaving(a') <==> Leaving(a)) && (Tracks(a) ==> Tracks(a'))
  {
    hide Sound, ActuatorStep, Colliding, Leaving, Tracks;
    if vs != [] {
      var n := |vs| - 1;
      RunKeeps(settle, t, vs[..n]);
      ActuatorRunSound(settle, t, vs[..n]);
      StepKeeps(settle, ActuatorRun(settle, t, vs[..n]), vs[n]);
    }
  }

  /** Cycles of the controller only, nothing triggered or stopped. */
  predicate Loops(n: nat, cs: seq<Action>) {
    forall k :: 0 <= k < |cs| ==> cs[k].RunLoop? && |cs[k].inputs| == n
  }

  /** `k` cycles that find everything fine. */
  function FineLoops(n: nat, k: nat): (cs: seq<Action>)
    ensures |cs| == k && Loops(n, cs)
  {
    var fine := Reading(AllFine, true);
    seq(k, _ => RunLoop(seq(n, _ => Input(Report(fine, fine, fine, fine, fine), 0, 0))))
  }

  lemma {:induction false} FineVisits(settle: int, ts: seq<Tested>, z: nat, k: nat)
    requires z < |ts|
    ensures var vs := Visits(settle, ts, FineLoops(|ts|, k), z); |vs| == k && forall i :: 0 <= i < k ==> Fine(vs[i])
  {
    hide Cycle, Run;
    if k > 0 {
      FineVisits(settle, ts, z, k - 1);
      assert FineLoops(|ts|, k)[..k - 1] == FineLoops(|ts|, k - 1);
    }
  }

  /** The faults ahead of an actuator, exactly: some cycles make it push both ways, or leave it with an offset after
      its test, if and only if a collision is coming or an offset is being left. */
  lemma FaultsAhead(settle: int, ts: seq<Tested>, z: nat)
    requires z < |ts| && Sound(ts[z])
    ensures (forall rest :: Loops(|ts|, rest) ==> Faultless(Run(settle, ts, rest)[z].a)) <==> Safe(ts[z].a)
  {
    hide Run, Visits, ActuatorRun, Sound;
    var a := ts[z].a;
    forall rest | Loops(|ts|, rest)
      ensures Safe(a) ==> Faultless(Run(settle, ts, rest)[z].a)
    {
      Projection(settle, ts, rest, z);
      RunKeeps(settle, ts[z], Visits(settle, ts, rest, z));
    }
    if !Safe(a) {
      var k := if Colliding(a) then Delay(a) else |Left(a)|;
      var rest := FineLoops(|ts|, k);
      var vs := Visits(settle, ts, rest, z);
      FineVisits(settle, ts, z, k);
      Projection(settle, ts, rest, z);
      if Colliding(a) {
        CollisionComes(settle, ts[z], vs);
        DelayMeans(ActuatorRun(settle, ts[z], vs).a);
      } else {
        FineEnds(settle, ts[z], vs);
        RunKeeps(settle, ts[z], vs);
      }
      assert !Faultless(Run(settle, ts, rest)[z].a);
    }
  }

  /** No trigger of the run disturbs actuator `z`. */
  predicate Considerate(settle: int, ts: seq<Tested>, cs: seq<Action>, z: nat)
    requires z < |ts| && forall k :: 0 <= k < |cs| ==> ActionOk(|ts|, cs[k])
  {
    forall k :: 0 <= k < |cs| && cs[k].Trigger? && cs[k].at == z ==>
      !Disturbs(Run(settle, ts, cs[..k])[z].a, cs[k].cylinders, cs[k].primary)
  }

  /** In every run without a disturbing trigger, retriggers included, the vertical and the horizontal offset of an
      actuator are never both applied, an actuator not being tested has none, nor has one in a cylinder test. */
  lemma {:induction false} NeverBothForces(settle: int, ts: seq<Tested>, cs: seq<Action>, z: nat)
    requires z < |ts| && Safe(ts[z].a) && forall k :: 0 <= k < |ts| ==> Sound(ts[k])
    requires (forall k :: 0 <= k < |cs| ==> ActionOk(|ts|, cs[k])) && Considerate(settle, ts, cs, z)
    ensures var a := Run(settle, ts, cs)[z].a;
            && Safe(a) && Sound(Run(settle, ts, cs)[z])
            && (a.z == 0.0 || a.side == 0.0)
            && (Idle(a) || a.cylinders ==> a.z == 0.0 == a.side)
            && (a.axes.Single? ==> a.side == 0.0)
    decreases |cs|
  {
    hide Safe, AxisSound, ActuatorStep, Cycle, VisitOf, Disturbs, TriggerOne;
    RunSound(settle, ts, cs);
    if cs != [] {
      var n := |cs| - 1;
      var was := Run(settle, ts, cs[..n]);
      ConsiderateBefore(settle, ts, cs, z);
      NeverBothForces(settle, ts, cs[..n], z);
      SafeAct(settle, was, cs[n], z);
    }
    SafeMeans(Run(settle, ts, cs)[z]);
  }

  lemma ConsiderateBefore(settle: int, ts: seq<Tested>, cs: seq<Action>, z: nat)
    requires z < |ts| && cs != [] && forall k :: 0 <= k < |cs| ==> ActionOk(|ts|, cs[k])
    ensures var n := |cs| - 1;
            Considerate(settle, ts, cs, z) <==>
            && Considerate(settle, ts, cs[..n], z)
            && (cs[n].Trigger? && cs[n].at == z ==>
                  !Disturbs(Run(settle, ts, cs[..n])[z].a, cs[n].cylinders, cs[n].primary))
  {
    hide Run, Disturbs;
    var n := |cs| - 1;
    assert forall k :: 0 <= k < n ==> cs[..n][..k] == cs[..k];
  }

  lemma SafeMeans(t: Tested)
    requires Sound(t) && Safe(t.a)
    ensures Faultless(t.a) && (t.a.cylinders ==> t.a.z == 0.0 == t.a.side) && (t.a.axes.Single? ==> t.a.side == 0.0)
  {
    hide AxisSound;
  }

  /** One action keeps an actuator safe exactly if it is not a disturbing trigger. */
  lemma SafeAct(settle: int, ts: seq<Tested>, c: Action, z: nat)
    requires z < |ts| && ActionOk(|ts|, c) && Sound(ts[z]) && Safe(ts[z].a)
    ensures Safe(Act(settle, ts, c)[z].a)
       <==> !(c.Trigger? && c.at == z && Disturbs(ts[z].a, c.cylinders, c.primary))
  {
    hide Sound, ActuatorStep, Cycle, VisitOf, Disturbs, TriggerOne, Colliding, Leaving;
    match c
    case Trigger(at, cylinders, primary, secondary, now) =>
      if at == z { TriggerDisturbs(settle, ts[z], cylinders, primary, secondary, now); }
    case RunLoop(inputs) =>
      CycleAt(settle, ts, inputs, |ts|, z);
      StepKeeps(settle, ts[z], VisitOf(settle, Cycle(settle, ts, inputs, z), z, inputs));
    case StopAll(now) => StoppedSafe(settle, ts[z], now);
  }

  lemma StoppedSafe(settle: int, t: Tested, now: int)
    ensures Safe(StopOne(settle, t, now).a)
  {
  }

  /** Exactly when the offsets of an actuator are what they should be: at every point of a run, and whatever cycles
      come after that point, if and only if no trigger of the run disturbs it. */
  lemma FaultlessExactly(settle: int, ts: seq<Tested>, cs: seq<Action>, z: nat)
    requires z < |ts| && Safe(ts[z].a) && forall k :: 0 <= k < |ts| ==> Sound(ts[k])
    requires forall k :: 0 <= k < |cs| ==> ActionOk(|ts|, cs[k])
    ensures (forall k, rest :: 0 <= k <= |cs| && Loops(|ts|, rest) ==>
               Faultless(Run(settle, Run(settle, ts, cs[..k]), rest)[z].a))
       <==> Considerate(settle, ts, cs, z)
  {
    hide Safe, Sound, Act, Run, Disturbs, Considerate;
    forall k | 0 <= k <= |cs|
      ensures Safe(Run(settle, ts, cs[..k])[z].a) <==>
              (forall rest :: Loops(|ts|, rest) ==> Faultless(Run(settle, Run(settle, ts, cs[..k]), rest)[z].a))
    {
      RunSound(settle, ts, cs[..k]);
      FaultsAhead(settle, Run(settle, ts, cs[..k]), z);
    }
    SafeThroughout(settle, ts, cs, z);
  }

  lemma {:induction false} SafeThroughout(settle: int, ts: seq<Tested>, cs: seq<Action>, z: nat)
    requires z < |ts| && Safe(ts[z].a) && forall k :: 0 <= k < |ts| ==> Sound(ts[k])
    requires forall k :: 0 <= k < |cs| ==> ActionOk(|ts|, cs[k])
    ensures (forall k :: 0 <= k <= |cs| ==> Safe(Run(settle, ts, cs[..k])[z].a)) <==> Considerate(settle, ts, cs, z)
    decreases |cs|
  {
    hide Safe, Sound, Act, Disturbs, Considerate;
    assert cs[..|cs|] == cs;
    if cs == [] {
      NothingDisturbs(settle, ts, z);
    } else {
      var n := |cs| - 1;
      assert forall k :: 0 <= k <= n ==> cs[..n][..k] == cs[..k];
      SafeThroughout(settle, ts, cs[..n], z);
      ConsiderateBefore(settle, ts, cs, z);
      RunSound(settle, ts, cs[..n]);
      if Safe(Run(settle, ts, cs[..n])[z].a) {
        SafeAct(settle, Run(settle, ts, cs[..n]), cs[n], z);
      }
    }
  }

  lemma NothingDisturbs(settle: int, ts: seq<Tested>, z: nat)
    requires z < |ts|
    ensures Considerate(settle, ts, [], z)
  {
  }

  /** Through a test by axes that found the actuator safe and idle, what is applied is what the stages say: the test
      force while pushing, its negative while pulling, nothing otherwise. */
  lemma AppliedForces(settle: int, ts: seq<Tested>, c: Action, cs: seq<Action>)
    requires c.Trigger? && c.at < |ts| && !c.cylinders && Sound(ts[c.at]) && Safe(ts[c.at].a) && Idle(ts[c.at].a)
    requires Undisturbed(c.at, cs) && forall k :: 0 <= k < |cs| ==> ActionOk(|ts|, cs[k])
    ensures var a := Run(settle, Act(settle, ts, c), cs)[c.at].a;
            a.z == ForceAt(a.primary) && a.side == ForceAt(a.secondary)
  {
    hide Sound, ActuatorRun, Run, Visits, Undisturbed, Colliding;
    var begun := Act(settle, ts, c);
    TriggerSound(settle, ts[c.at], c.cylinders, c.primary, c.secondary, c.now);
    Projection(settle, begun, cs, c.at);
    RunKeeps(settle, begun[c.at], Visits(settle, begun, cs, c.at));
  }

  /** Disturbing triggers are accepted: the command checks the distance to other tested actuators only. A primary test
      triggered while the secondary one of the same actuator pushes applies both offsets. */
  lemma RetriggerOverlaps()
    ensures var fine := Reading(AllFine, true);
            var report := Report(fine, fine, fine, fine, fine);
            var a := Actuator(AlongX, 0, false, NotTested, NotTested, Passed, Passed, 0.0, 0.0);
            var idle := Tested(a, History([], [], []));
            var v := Visit(report, 1, 1, false, false);
            var pushed := ActuatorStep(10, TriggerOne(10, idle, false, false, true, 0), v);
            var both := ActuatorStep(10, TriggerOne(10, pushed, false, true, false, 2), v);
            Sound(idle) && Safe(idle.a) && Disturbs(pushed.a, false, true) && both.a.z == 222.0 == both.a.side
  {
  }

  /** A cylinder test applies no offset and releases none: through any run, offsets that stood when it was triggered
      stand as they were, while it lasts and when it has passed. */
  lemma CylinderTestsOffsetNothing(settle: int, ts: seq<Tested>, c: Action, cs: seq<Action>)
    requires c.Trigger? && c.at < |ts| && c.cylinders && Sound(ts[c.at])
    requires Undisturbed(c.at, cs) && forall k :: 0 <= k < |cs| ==> ActionOk(|ts|, cs[k])
    ensures var a := Run(settle, Act(settle, ts, c), cs)[c.at].a; a.z == ts[c.at].a.z && a.side == ts[c.at].a.side
  {
    hide Sound, ActuatorRun, Run, Visits, Undisturbed;
    var begun := Act(settle, ts, c);
    TriggerSound(settle, ts[c.at], c.cylinders, c.primary, c.secondary, c.now);
    Projection(settle, begun, cs, c.at);
    CylinderRun(settle, begun[c.at], Visits(settle, begun, cs, c.at));
  }

  lemma {:induction false} CylinderRun(settle: int, t: Tested, vs: seq<Visit>)
    requires Sound(t) && t.a.cylinders
    ensures var a := ActuatorRun(settle, t, vs).a; a.cylinders && a.z == t.a.z && a.side == t.a.side
  {
    hide Sound, ActuatorStep;
    if vs != [] {
      var n := |vs| - 1;
      CylinderRun(settle, t, vs[..n]);
      ActuatorRunSound(settle, t, vs[..n]);
      CylinderStep(settle, ActuatorRun(settle, t, vs[..n]), vs[n]);
    }
  }

  lemma CylinderStep(settle: int, t: Tested, v: Visit)
    requires Sound(t) && t.a.cylinders
    ensures var a := ActuatorStep(settle, t, v).a; a.cylinders && a.z == t.a.z && a.side == t.a.side
  {
    hide Sound, AxisStep, Left;
    var t1 := PrimaryStep(settle, t, v.report, v.first, v.firstProblems);
    if IsTested(t.a.primary) {
      AxisStepSound(settle, t, true, Of(v.report, TypeOf(t.a, true)), v.first, v.firstProblems);
      var u := AxisStepAdvances(settle, t, true, Of(v.report, TypeOf(t.a, true)), v.first, v.firstProblems);
    }
    if SecondaryRuns(t1.a) {
      var u := AxisStepAdvances(settle, t1, false, Of(v.report, TypeOf(t1.a, false)), v.second, v.secondProblems);
    }
  }

  // ----- what passing means -----------------------------------------------------------------------------------

  predicate Clean(j: Judgement) { j.reading.status.AllFine? && !j.problems }

  predicate Forgiven(j: Judgement) { IsWarning(j.reading.status) && !j.problems }

  /** Everything judged after the last warning was clean; without a warning, everything was. */
  ghost predicate CleanSinceWarning(js: seq<Judgement>) {
    exists k :: 0 <= k <= |js| && CleanFrom(js, k)
  }

  predicate CleanFrom(js: seq<Judgement>, k: nat)
    requires k <= |js|
  {
    (k == 0 || Forgiven(js[k - 1])) && forall i :: k <= i < |js| ==> Clean(js[i])
  }

  lemma {:induction false} VerdictPassed(js: seq<Judgement>)
    ensures Verdict(js).Passed? <==> CleanSinceWarning(js)
  {
    if js == [] {
      assert CleanFrom(js, 0);
    } else {
      var n := |js| - 1;
      VerdictPassed(js[..n]);
      if Forgiven(js[n]) {
        assert CleanFrom(js, n + 1);
      } else if Clean(js[n]) {
        if k :| 0 <= k <= n && CleanFrom(js[..n], k) {
          assert CleanFrom(js, k);
        }
        if k :| 0 <= k <= n + 1 && CleanFrom(js, k) {
          assert k <= n && CleanFrom(js[..n], k);
        }
      }
    }
  }

  /** The judgement is an error of that name: on the positive or the negative side by its stage, over or under by the
      error itself, or, for noise, by where the average was. */
  predicate Names(j: Judgement, outcome: Stage) {
    var positive := j.stage.Triggered? || j.stage.TestingPositive? || j.stage.TestingPositiveWait?;
    var status := j.reading.status;
    var over := status == OvershootError || (status == RmsError && j.reading.above);
    var under := status == UndershootError || (status == RmsError && !j.reading.above);
    || (outcome.FailedPositiveOvershoot? && positive && over)
    || (outcome.FailedPositiveUndershoot? && positive && under)
    || (outcome.FailedNegativeOvershoot? && !positive && over)
    || (outcome.FailedNegativeUndershoot? && !positive && under)
  }

  predicate IsShoot(s: Stage) {
    || s.FailedPositiveOvershoot? || s.FailedPositiveUndershoot?
    || s.FailedNegativeOvershoot? || s.FailedNegativeUndershoot?
  }

  ghost predicate LastNamed(js: seq<Judgement>, outcome: Stage) {
    exists k :: 0 <= k < |js| && Names(js[k], outcome) && FineAfter(js, k)
  }

  predicate FineAfter(js: seq<Judgement>, k: int) {
    forall i :: k < i < |js| && 0 <= i ==> js[i].reading.status.AllFine?
  }

  /** A failed test is named after its last judgement that was not fine. */
  lemma {:induction false} OutcomeNames(js: seq<Judgement>, outcome: Stage)
    requires IsShoot(outcome)
    ensures Verdict(js) == outcome <==> LastNamed(js, outcome)
  {
    if js != [] {
      var n := |js| - 1;
      OutcomeNames(js[..n], outcome);
      if js[n].reading.status.AllFine? {
        if k :| 0 <= k < n && Names(js[..n][k], outcome) && FineAfter(js[..n], k) {
          assert Names(js[k], outcome) && FineAfter(js, k);
        }
        if k :| 0 <= k < n + 1 && Names(js[k], outcome) && FineAfter(js, k) {
          assert k < n && Names(js[..n][k], outcome) && FineAfter(js[..n], k);
        }
      } else {
        assert FineAfter(js, n);
        forall k | 0 <= k < n
          ensures !FineAfter(js, k)
        {
          assert k < n < |js| && !js[n].reading.status.AllFine?;
        }
      }
    }
  }

  lemma {:induction false} VerdictNotTimeout(js: seq<Judgement>)
    requires forall k :: 0 <= k < |js| ==> HasStatistics(js[k].reading.status)
    ensures !Verdict(js).FailedTimeout?
  {
    if js != [] {
      VerdictNotTimeout(js[..|js| - 1]);
    }
  }

  /** In every run, retriggers included, a finished test has passed exactly when all that was judged since the last
      warning was clean: a warning wipes out earlier failures. A test is never reported as timed out. */
  lemma PassedExactly(settle: int, ts: seq<Tested>, cs: seq<Action>, z: nat)
    requires z < |ts| && forall k :: 0 <= k < |ts| ==> Sound(ts[k])
    requires forall k :: 0 <= k < |cs| ==> ActionOk(|ts|, cs[k])
    ensures var t := Run(settle, ts, cs)[z];
            && (t.a.primary.Passed? <==>
                !IsTested(t.a.primary) && !t.a.primary.NotTested? && CleanSinceWarning(t.h.primary))
            && (t.a.secondary.Passed? <==>
                !IsTested(t.a.secondary) && !t.a.secondary.NotTested? && CleanSinceWarning(t.h.secondary))
            && !t.a.primary.FailedTimeout? && !t.a.secondary.FailedTimeout?
  {
    hide Run, Verdict, CleanSinceWarning;
    RunSound(settle, ts, cs);
    var t := Run(settle, ts, cs)[z];
    VerdictPassed(t.h.primary);
    VerdictPassed(t.h.secondary);
    VerdictNotTimeout(t.h.primary);
    VerdictNotTimeout(t.h.secondary);
  }

  /** A test may even pass on no measurements at all: where the statistics never become available every stage
      times out, but a timeout without statistics is not judged. */
  lemma {:induction false} NoDataPasses(settle: int, t: Tested, vs: seq<Visit>)
    requires Sound(t) && IsTested(t.a.primary) && t.h.primary == []
    requires forall k :: 0 <= k < |vs| ==> !HasStatistics(Of(vs[k].report, TypeOf(t.a, true)).status)
    ensures var t' := ActuatorRun(settle, t, vs);
            && (IsTested(t'.a.primary) || t'.a.primary.Passed?)
            && t'.h.primary == [] && t'.a.cylinders == t.a.cylinders && t'.a.axes == t.a.axes
  {
    hide AxisStep, Sound;
    ActuatorRunSound(settle, t, vs);
    if vs != [] {
      var n := |vs| - 1;
      ActuatorRunSound(settle, t, vs[..n]);
      NoDataPasses(settle, t, vs[..n]);
      NoDataStep(settle, ActuatorRun(settle, t, vs[..n]), vs[n]);
      assert Verdict([]).Passed?;
      assert Sound(ActuatorRun(settle, t, vs));
      PassedOnNothing(ActuatorRun(settle, t, vs));
    }
  }

  lemma PassedOnNothing(t: Tested)
    requires Sound(t) && t.h.primary == [] && !t.a.primary.NotTested?
    ensures IsTested(t.a.primary) || t.a.primary.Passed?
  {
  }

  lemma NoDataStep(settle: int, t: Tested, v: Visit)
    requires Sound(t) && !t.a.primary.NotTested? && t.h.primary == []
    requires !HasStatistics(Of(v.report, TypeOf(t.a, true)).status)
    ensures var t' := ActuatorStep(settle, t, v);
            && !t'.a.primary.NotTested? && t'.h.primary == []
            && t'.a.cylinders == t.a.cylinders && t'.a.axes == t.a.axes
  {
    hide AxisStep;
    var t1 := PrimaryStep(settle, t, v.report, v.first, v.firstProblems);
    if IsTested(t.a.primary) {
      NoDataAxis(settle, t, Of(v.report, TypeOf(t.a, true)), v.first, v.firstProblems);
    }
    SecondaryKeepsPrimary(settle, t1, v.report, v.second, v.secondProblems);
  }

  lemma NoDataAxis(settle: int, t: Tested, r: Reading, now: int, problems: bool)
    requires Sound(t) && IsTested(t.a.primary) && !HasStatistics(r.status)
    ensures var t' := AxisStep(settle, t, true, r, now, problems);
            && !t'.a.primary.NotTested? && t'.h.primary == t.h.primary
            && t'.a.cylinders == t.a.cylinders && t'.a.axes == t.a.axes
  {
    hide Finalized;
  }

  // ----- how long a test takes --------------------------------------------------------------------------------

  /** The clock read at every visit, the run having begun at `start`: visits follow each other within `period`. */
  predicate Paced(period: int, start: int, vs: seq<Visit>) {
    vs == [] ||
    (var n := |vs| - 1;
     var (first, second) := LastRead(start, vs[..n]);
     && Paced(period, start, vs[..n])
     && first <= vs[n].first <= first + period && vs[n].second <= second + period
     && vs[n].first <= vs[n].second <= vs[n].first + period)
  }

  function LastRead(start: int, vs: seq<Visit>): (int, int) {
    if vs == [] then (start, start) else (vs[|vs| - 1].first, vs[|vs| - 1].second)
  }

  /** Stage `done` of the test ended no later than `done` times the settling time and the period after `start`,
      and the clock last read on the axis being tested is not past its timeout. */
  ghost predicate Timely(settle: int, period: int, start: int, left: nat, t: Tested, first: int, second: int) {
    && |Left(t.a)| <= left
    && t.a.timeout - settle <= start + (left - |Left(t.a)|) * (settle + period)
    && (IsTested(t.a.primary) ==> first <= t.a.timeout)
    && (SecondaryRuns(t.a) ==> second <= t.a.timeout)
  }

  /** One look at an axis: it stays before its timeout, or is left for the next stage in time. */
  lemma AxisTimely(settle: int, period: int, start: int, left: nat, t: Tested,
                   primary: bool, r: Reading, now: int, problems: bool)
    requires Sound(t) && IsTested(StageOf(t.a, primary)) && (!primary ==> SecondaryRuns(t.a)) && settle >= 0
    requires |Left(t.a)| <= left && t.a.timeout - settle <= start + (left - |Left(t.a)|) * (settle + period)
    requires now <= t.a.timeout + period
    ensures var t' := AxisStep(settle, t, primary, r, now, problems);
            && |Left(t'.a)| <= left && t'.a.timeout - settle <= start + (left - |Left(t'.a)|) * (settle + period)
            && now <= t'.a.timeout && (t' == t || t'.a.timeout == now + settle)
  {
    hide Sound, Left, AxisStep;
    AxisStepSound(settle, t, primary, r, now, problems);
    var t' := AxisStep(settle, t, primary, r, now, problems);
    var n, q := left - |Left(t.a)|, settle + period;
    assert (n + 1) * q == n * q + q;
  }

  lemma VisitTimely(settle: int, period: int, start: int, left: nat, t: Tested, first: int, second: int, v: Visit)
    requires Sound(t) && Timely(settle, period, start, left, t, first, second) && settle >= 0 && period >= 0
    requires v.first <= first + period && v.second <= second + period && v.first <= v.second <= v.first + period
    ensures Timely(settle, period, start, left, ActuatorStep(settle, t, v), v.first, v.second)
  {
    hide Sound, Left, AxisStep;
    var t1 := PrimaryStep(settle, t, v.report, v.first, v.firstProblems);
    if IsTested(t.a.primary) {
      AxisStepSound(settle, t, true, Of(v.report, TypeOf(t.a, true)), v.first, v.firstProblems);
      AxisTimely(settle, period, start, left, t, true, Of(v.report, TypeOf(t.a, true)), v.first, v.firstProblems);
    }
    if SecondaryRuns(t1.a) {
      AxisTimely(settle, period, start, left, t1, false, Of(v.report, TypeOf(t1.a, false)), v.second, v.secondProblems);
      SecondaryKeepsPrimary(settle, t1, v.report, v.second, v.secondProblems);
    }
  }

  lemma SecondaryKeepsPrimary(settle: int, t: Tested, report: Report, now: int, problems: bool)
    ensures var t' := SecondaryStep(settle, t, report, now, problems);
            && t'.a.primary == t.a.primary && t'.h.primary == t.h.primary
            && t'.a.cylinders == t.a.cylinders && t'.a.axes == t.a.axes
  {
    hide Settled;
  }

  lemma {:induction false} RunTimely(settle: int, period: int, start: int, t: Tested, vs: seq<Visit>)
    requires Sound(t) && t.a.timeout == start + settle && settle >= 0 && period >= 0 && Paced(period, start, vs)
    ensures var (first, second) := LastRead(start, vs);
            Timely(settle, period, start, |Left(t.a)|, ActuatorRun(settle, t, vs), first, second)
  {
    hide Sound, Left, ActuatorStep;
    if vs != [] {
      var n := |vs| - 1;
      RunTimely(settle, period, start, t, vs[..n]);
      ActuatorRunSound(settle, t, vs[..n]);
      var (first, second) := LastRead(start, vs[..n]);
      VisitTimely(settle, period, start, |Left(t.a)|, ActuatorRun(settle, t, vs[..n]), first, second, vs[n]);
    }
  }

  /** A test ends: every axis is through within five times the settling time and the loop period, whatever
      statuses arrive; with both axes under test that makes ten times. The last stage was left by then too, so the
      timeout it set bounds when the test ended. */
  lemma TestingEnds(settle: int, period: int, ts: seq<Tested>, cs: seq<Action>, z: nat, start: int)
    requires z < |ts| && Sound(ts[z]) && ts[z].a.timeout == start + settle && settle >= 0 && period > 0
    requires Undisturbed(z, cs) && forall k :: 0 <= k < |cs| ==> ActionOk(|ts|, cs[k])
    requires Paced(period, start, Visits(settle, ts, cs, z))
    ensures var t, vs := Run(settle, ts, cs)[z], Visits(settle, ts, cs, z);
            var bound := start + |Left(ts[z].a)| * (settle + period);
            && t.a.timeout - settle <= bound
            && (vs != [] && vs[|vs| - 1].first >= bound ==> Idle(t.a))
  {
    hide Sound, Left, ActuatorRun, Run, Visits, Paced, Undisturbed;
    var t, vs, q := Run(settle, ts, cs)[z], Visits(settle, ts, cs, z), settle + period;
    Projection(settle, ts, cs, z);
    RunTimely(settle, period, start, ts[z], vs);
    if vs != [] { PacedAt(period, start, vs); }
    ActuatorRunSound(settle, ts[z], vs);
    IdleLeft(t.a);
    IdleOrRunning(t);
    var n, m := |Left(ts[z].a)|, |Left(t.a)|;
    assert n * q - (n - m) * q == m * q;
    if m > 0 {
      assert m * q >= q by { assert (m - 1) * q >= 0; }
    }
  }

  lemma PacedAt(period: int, start: int, vs: seq<Visit>)
    requires Paced(period, start, vs) && vs != []
    ensures vs[|vs| - 1].first <= vs[|vs| - 1].second
  {
  }

  lemma IdleOrRunning(t: Tested)
    requires Sound(t)
    ensures Idle(t.a) || IsTested(t.a.primary) || SecondaryRuns(t.a)
  {
    hide AxisSound;
  }

  /** Five stages an axis. */
  lemma TriggerLeaves(settle: int, t: Tested, cylinders: bool, primary: bool, secondary: bool, now: int)
    requires Sound(t) && Idle(t.a) && !(secondary && t.a.axes.Single?)
    ensures |Left(TriggerOne(settle, t, cylinders, primary, secondary, now).a)|
         == (if primary then 5 else 0) + (if secondary then 5 else 0)
  {
    TriggerSound(settle, t, cylinders, primary, secondary, now);
  }

  // ----- the controller ---------------------------------------------------------------------------------------

  /** The loop of the controller finds nothing to run on this actuator. */
  predicate Resting(a: Actuator) { !IsTested(a.primary) && !SecondaryRuns(a) }

  /** Nothing is left to run, and every timeout has passed. */
  predicate Quiet(ts: seq<Tested>, now: int) {
    forall k :: 0 <= k < |ts| ==> Resting(ts[k].a) && ts[k].a.timeout <= now
  }

  function Zipped(acts: seq<Actuator>, hs: seq<History>): (ts: seq<Tested>)
    requires |acts| == |hs|
    ensures |ts| == |acts|
  {
    seq(|acts|, k requires 0 <= k < |acts| => Tested(acts[k], hs[k]))
  }

  class BumpTestController {
    const settle: int
    const acts: array<Actuator>
    /** Whether the safety controller is told that bump tests are going on. */
    var bumpTesting: bool
    ghost var history: seq<History>

    ghost predicate Valid()
      reads this
    {
      acts.Length == FaCount == |history|
    }

    ghost function State(): (ts: seq<Tested>)
      requires Valid()
      reads this, acts
      ensures |ts| == FaCount && forall k :: 0 <= k < FaCount ==> ts[k] == Tested(acts[k], history[k])
    {
      Zipped(acts[..], history)
    }

    constructor (settle: int, axes: seq<Axes>, now: int)
      requires |axes| == FaCount
      ensures Valid() && this.settle == settle && !bumpTesting && fresh(acts)
      ensures forall k :: 0 <= k < FaCount ==>
                State()[k].a.axes == axes[k] && Sound(State()[k]) && Safe(State()[k].a) && Idle(State()[k].a)
    {
      this.settle, bumpTesting := settle, false;
      acts := new Actuator[FaCount](k requires 0 <= k < FaCount =>
        Actuator(axes[k], now - 10000000000, false, NotTested, NotTested, NotTested, NotTested, 0.0, 0.0));
      history := seq(FaCount, k => History([], [], []));
    }

    method Set(z: nat, a: Actuator, ghost h: History)
      requires Valid() && z < FaCount
      modifies acts, `history
      ensures Valid() && State() == old(State())[z := Tested(a, h)]
    {
      acts[z] := a;
      history := history[z := h];
    }

    /** Starts a test; refused, after the timeout has been set, for the second axis of a single axis actuator. */
    method SetBumpTestActuator(z: nat, cylinders: bool, primary: bool, secondary: bool, now: int) returns (ok: bool)
      requires Valid() && z < FaCount
      modifies acts, `history, `bumpTesting
      ensures Valid() && bumpTesting && ok == !(secondary && old(acts[z].axes.Single?))
      ensures State() == Act(settle, old(State()), Trigger(z, cylinders, primary, secondary, now))
    {
      bumpTesting := true;
      ghost var h := history[z];
      var a := acts[z].(timeout := now + settle, cylinders := cylinders);
      if primary {
        a := a.(finalPrimary := Passed);
      }
      ok := !secondary || !a.axes.Single?;
      if ok {
        if secondary {
          a := a.(finalSecondary := Passed, secondary := Triggered);
          h := h.(secondary := []);
        }
        if primary {
          a := a.(primary := Triggered);
          h := h.(primary := []);
        }
        h := h.(calls := []);
      } else if primary && IsTested(a.primary) {
        h := h.(primary := []);
      }
      Set(z, a, h);
    }

    /** Records the outcome of a stage, and looks for errors on all actuators outside of tests. */
    method FinalizeTest(z: nat, primary: bool, reports: seq<Report>, now: int)
      requires Valid() && z < FaCount && |reports| == FaCount
      modifies acts, `history
      ensures Valid()
      ensures var t := old(State())[z];
              var test := TypeOf(t.a, primary);
              State() == old(State())[z := Finalized(t, primary, Of(reports[z], test),
                                                     Problems(Actuators(old(State())), z, test, now, reports))]
    {
      var a := acts[z];
      var test := TypeOf(a, primary);
      var r, stage := Of(reports[z], test), StageOf(a, primary);
      var outcome := if primary then a.finalPrimary else a.finalSecondary;
      if !r.status.AllFine? {
        outcome := StatusToSal(r, stage);
      }
      var failed := 0;
      ghost var seen := Actuators(State());
      for k := 0 to FaCount
        invariant failed >= 0
        invariant failed > 0 <==> exists i :: 0 <= i < k && Problem(seen[i], i == z, test, now, reports[i])
      {
        assert seen[k] == acts[k];
        if Problem(acts[k], k == z, test, now, reports[k]) {
          failed := failed + 1;
        }
      }
      if failed > 0 && outcome.Passed? {
        outcome := FailedNonTestedProblem;
      }
      ghost var t := Finalized(State()[z], primary, r, Problems(seen, z, test, now, reports));
      Set(z, if primary then a.(finalPrimary := outcome) else a.(finalSecondary := outcome), t.h);
    }

    /** One look at an axis under test: wait, or leave the stage because it is fine or has timed out. */
    method RunAxis(z: nat, primary: bool, reports: seq<Report>, now: int) returns (changed: bool)
      requires Valid() && z < FaCount && |reports| == FaCount && IsTested(StageOf(acts[z], primary))
      modifies acts, `history
      ensures Valid()
      ensures var t := old(State())[z];
              var test := TypeOf(t.a, primary);
              && State() == old(State())[z := AxisStep(settle, t, primary, Of(reports[z], test), now,
                                                       Problems(Actuators(old(State())), z, test, now, reports))]
              && changed == (Of(reports[z], test).status.AllFine? || t.a.timeout <= now)
      ensures var t := old(State())[z];
              && changed == (OwnReading(t.a, primary, reports[z]).status.AllFine? || t.a.timeout <= now)
              && (if changed then Leaves(settle, t, primary, now, State()[z]) else State() == old(State()))
    {
      hide Problems, AxisStep, Leaves, OwnReading, Judges, Of, HasStatistics;
      AxisStepExactly(settle, State()[z], primary, reports[z], now,
                      Problems(Actuators(State()), z, TypeOf(acts[z], primary), now, reports));
      changed := StepAxis(z, primary, reports, now);
    }

    method StepAxis(z: nat, primary: bool, reports: seq<Report>, now: int) returns (changed: bool)
      requires Valid() && z < FaCount && |reports| == FaCount && IsTested(StageOf(acts[z], primary))
      modifies acts, `history
      ensures Valid()
      ensures var t := old(State())[z];
              var test := TypeOf(t.a, primary);
              && State() == old(State())[z := AxisStep(settle, t, primary, Of(reports[z], test), now,
                                                       Problems(Actuators(old(State())), z, test, now, reports))]
              && changed == (Of(reports[z], test).status.AllFine? || t.a.timeout <= now)
    {
      hide Problems, Settled;
      var test := TypeOf(acts[z], primary);
      var r := Of(reports[z], test);
      ghost var was := State();
      var timedOut := acts[z].timeout <= now;
      if timedOut && HasStatistics(r.status) {
        FinalizeTest(z, primary, reports, now);
        SameProblems(was, State(), z, test, now, reports);
      }
      if r.status.AllFine? {
        FinalizeTest(z, primary, reports, now);
      } else if !timedOut {
        changed := false;
        return;
      }
      changed := true;
      var a := acts[z];
      var step := Advance(a, primary);
      ghost var t := Advanced(settle, State()[z], primary, now);
      a := Offset(a, test, step.0).(timeout := now + settle);
      Set(z, if primary then a.(primary := step.1) else a.(secondary := step.1), t.h);
    }

    /** One cycle over all actuators; once nothing was left to run and all timeouts have passed, the safety
        controller is told that bump tests are over. */
    method RunLoop(inputs: seq<Input>, now: int)
      requires Valid() && |inputs| == FaCount
      modifies acts, `history, `bumpTesting
      ensures Valid() && State() == Act(settle, old(State()), Action.RunLoop(inputs))
      ensures bumpTesting == (old(bumpTesting) && !Quiet(old(State()), now))
    {
      hide AxisStep, Problems, Of;
      var tested := 0;
      var reports := Reports(inputs);
      ghost var was := State();
      for z := 0 to FaCount
        invariant Valid() && State() == Cycle(settle, was, inputs, z) && tested >= 0 && bumpTesting == old(bumpTesting)
        invariant tested == 0 <==> forall k :: 0 <= k < z ==> Resting(was[k].a)
        invariant tested == 0 ==> State() == was
      {
        CycleAt(settle, was, inputs, z, z);
        ghost var before := State();
        ghost var v := VisitOf(settle, before, z, inputs);
        ghost var t1 := PrimaryStep(settle, before[z], v.report, v.first, v.firstProblems);
        if IsTested(acts[z].primary) {
          var changed := RunAxis(z, true, reports, inputs[z].first);
          tested := tested + 1;
        }
        assert State() == before[z := t1];
        if SecondaryRuns(acts[z]) {
          var changed := RunAxis(z, false, reports, inputs[z].second);
          tested := tested + 1;
        }
        assert State() == before[z := ActuatorStep(settle, before[z], v)];
      }
      if tested == 0 {
        var over := true;
        for k := 0 to FaCount
          invariant over <==> forall i :: 0 <= i < k ==> State()[i].a.timeout <= now
        {
          over := over && acts[k].timeout <= now;
        }
        assert over <==> Quiet(State(), now);
        if over {
          bumpTesting := false;
        }
      } else {
        assert !Quiet(was, now);
      }
    }

    /** Ends all tests and zeroes every offset. */
    method StopEverything(forced: bool, now: int)
      requires Valid()
      modifies acts, `history, `bumpTesting
      ensures Valid() && State() == Act(settle, old(State()), StopAll(now))
      ensures forall k :: 0 <= k < FaCount ==>
                acts[k] == old(acts[k]).(timeout := now - settle, cylinders := false, primary := NotTested,
                                         secondary := NotTested, z := 0.0, side := 0.0)
      ensures bumpTesting == (old(bumpTesting) && !forced)
    {
      ghost var was := State();
      for z := 0 to FaCount
        invariant Valid() && bumpTesting == old(bumpTesting)
        invariant forall k :: 0 <= k < FaCount ==> State()[k] == if k < z then StopOne(settle, was[k], now) else was[k]
      {
        var a := acts[z].(timeout := now - settle, cylinders := false, z := 0.0, side := 0.0);
        Set(z, a.(primary := NotTested, secondary := NotTested), History([], [], []));
      }
      if forced {
        bumpTesting := false;
      }
    }
  }

  /** Problems elsewhere depend on the timeouts and the axes only. */
  lemma SameProblems(was: seq<Tested>, ts: seq<Tested>, z: nat, t: TestType, now: int, reports: seq<Report>)
    requires |was| == |ts| == |reports|
    requires forall k :: 0 <= k < |ts| ==> was[k].a.timeout == ts[k].a.timeout && was[k].a.axes == ts[k].a.axes
    ensures Problems(Actuators(was), z, t, now, reports) == Problems(Actuators(ts), z, t, now, reports)
  {
    var a, b := Actuators(was), Actuators(ts);
    assert forall k :: 0 <= k < |ts| ==>
        Problem(a[k], k == z, t, now, reports[k]) == Problem(b[k], k == z, t, now, reports[k]);
  }
}
