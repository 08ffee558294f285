/** MirrorRaiseController and MirrorLowerController: transferring the weight of the mirror between the
    static supports and the force actuators. */
module RaiseLower {
  import opened Arithmetic
  import opened Hardpoints
  import opened HardpointMeaning
  import opened HardpointRuns
  import opened WaitOnce
  import opened RaisingInfo
  import opened PositionControl
  import opened Deadlines
  import Settling

  const FaCount := 156
  const FaXCount := 12
  const FaYCount := 100

  /** Following errors of the force actuators: measured less applied force. */
  datatype Following = Following(x: seq<real>, y: seq<real>, z: seq<real>)

  predicate FollowingOk(f: Following) { |f.x| == FaXCount && |f.y| == FaYCount && |f.z| == FaCount }

  predicate FollowingInTolerance(limit: real, f: Following) {
    && (forall i :: 0 <= i < |f.x| ==> -limit <= f.x[i] <= limit)
    && (forall i :: 0 <= i < |f.y| ==> -limit <= f.y[i] <= limit)
    && (forall i :: 0 <= i < |f.z| ==> -limit <= f.z[i] <= limit)
  }

  /** faRaiseFollowingErrorInTolerance: one loop over all actuators, those with X and Y components first. */
  method FaFollowingInTolerance(limit: real, f: Following)
    returns (ok: bool, waitX: seq<bool>, waitY: seq<bool>, waitZ: seq<bool>)
    requires FollowingOk(f)
    ensures ok == FollowingInTolerance(limit, f)
    ensures |waitX| == FaXCount && forall i :: 0 <= i < FaXCount ==> waitX[i] == !(-limit <= f.x[i] <= limit)
    ensures |waitY| == FaYCount && forall i :: 0 <= i < FaYCount ==> waitY[i] == !(-limit <= f.y[i] <= limit)
    ensures |waitZ| == FaCount && forall i :: 0 <= i < FaCount ==> waitZ[i] == !(-limit <= f.z[i] <= limit)
  {
    ok, waitX, waitY, waitZ := true, [], [], [];
    for i := 0 to FaCount
      invariant |waitX| == (if i < FaXCount then i else FaXCount) && |waitY| == (if i < FaYCount then i else FaYCount)
      invariant |waitZ| == i
      invariant forall k :: 0 <= k < |waitX| ==> waitX[k] == !(-limit <= f.x[k] <= limit)
      invariant forall k :: 0 <= k < |waitY| ==> waitY[k] == !(-limit <= f.y[k] <= limit)
      invariant forall k :: 0 <= k < i ==> waitZ[k] == !(-limit <= f.z[k] <= limit)
      invariant ok <==> (forall k :: 0 <= k < |waitX| ==> !waitX[k]) && (forall k :: 0 <= k < |waitY| ==> !waitY[k])
                        && (forall k :: 0 <= k < i ==> !waitZ[k])
    {
      if i < FaXCount {
        var inRange := -limit <= f.x[i] <= limit;
        waitX := waitX + [!inRange];
        ok := ok && inRange;
      }
      if i < FaYCount {
        var inRange := -limit <= f.y[i] <= limit;
        waitY := waitY + [!inRange];
        ok := ok && inRange;
      }
      var inRange := -limit <= f.z[i] <= limit;
      waitZ := waitZ + [!inRange];
      ok := ok && inRange;
    }
  }

  // ----- raising as a transition ---------------------------------------------------------------------------

  datatype RaiseSettings = RaiseSettings(st: Settings, settle: Settling.Settings, increment: real, decrement: real,
                                         staticAbove: real, followingLimit: real, raiseTimeout: int, lowerTimeout: int,
                                         reference: seq<int>)

  predicate RaiseSettingsOk(rs: RaiseSettings) {
    SettingsOk(rs.st) && |rs.reference| == HpCount && rs.increment > 0.0 && rs.decrement > 0.0
  }

  /** What one control cycle reads. */
  datatype Inputs = Inputs(lowAirPressure: bool, elevation: real, readings: Readings, following: Following)

  datatype Raising = Raising(hps: Hexapod, weight: real, waitAirPressure: bool, paused: bool, bypass: bool,
                             staticForces: bool)

  /** The conditions under which the supported weight grows. */
  predicate MayRaise(rs: RaiseSettings, s: Raising, i: Inputs)
    requires RaiseSettingsOk(rs)
  {
    AllInTolerance(rs.st, s.hps, true, i.elevation, i.readings) && FollowingInTolerance(rs.followingLimit, i.following)
  }

  /** Where the hardpoints go once all the weight is carried. */
  function Arrive(rs: RaiseSettings, hps: Hexapod, bypass: bool, r: Readings): Hexapod
    requires RaiseSettingsOk(rs)
  {
    var idle := Apply(rs.st, hps, DisableChaseAll);
    if bypass then idle else MovedToEncoder(rs.st, idle, rs.reference, r)
  }

  /** MirrorRaiseController::runLoop. */
  function RaiseLoop(rs: RaiseSettings, s: Raising, i: Inputs): Raising
    requires RaiseSettingsOk(rs)
  {
    if s.paused || s.weight >= 100.0 then s
    else
      var hps := Evaluated(rs.st, s.hps, true, i.elevation, i.readings);
      if s.weight <= 0.0 && i.lowAirPressure then s.(hps := hps, waitAirPressure := true)
      else if !MayRaise(rs, s, i) then s.(hps := hps, waitAirPressure := false)
      else
        var weight := Raised(s.weight, rs.increment);
        s.(hps := if weight >= 100.0 then Arrive(rs, hps, s.bypass, i.readings) else hps,
           weight := weight, waitAirPressure := false,
           staticForces := s.staticForces || weight > rs.staticAbove)
  }

  /** Every force actuator follows within the limit, and every hardpoint is in tolerance for raising. */
  predicate AllInOrder(rs: RaiseSettings, hps: Hexapod, i: Inputs)
    requires RaiseSettingsOk(rs)
  {
    && (forall k :: 0 <= k < |i.following.x| ==> -rs.followingLimit <= i.following.x[k] <= rs.followingLimit)
    && (forall k :: 0 <= k < |i.following.y| ==> -rs.followingLimit <= i.following.y[k] <= rs.followingLimit)
    && (forall k :: 0 <= k < |i.following.z| ==> -rs.followingLimit <= i.following.z[k] <= rs.followingLimit)
    && (forall k :: 0 <= k < HpCount ==> Tolerated(rs.st, true, i.elevation, k, hps[k], i.readings[k]))
  }

  lemma MayRaiseIs(rs: RaiseSettings, s: Raising, i: Inputs)
    requires RaiseSettingsOk(rs)
    ensures MayRaise(rs, s, i) <==> AllInOrder(rs, s.hps, i)
  {
    hide EvaluateOne, Tolerated, Evaluates;
    forall k | 0 <= k < HpCount
      ensures EvaluateOne(rs.st, true, i.elevation, k, s.hps[k], i.readings[k]).1
          <==> Tolerated(rs.st, true, i.elevation, k, s.hps[k], i.readings[k])
    {
      ToleranceExactly(rs.st, true, i.elevation, k, s.hps[k], i.readings[k]);
    }
  }

  /** A raising loop, exactly. It adds one increment, up to 100, if and only if it is unpaused, something is left to
      raise, no first increment waits for air pressure, and all is in order. Carrying all weight ends the chase: the
      hardpoints are aimed at their reference positions, or left idle if that move is bypassed; before that each is
      only evaluated. Static forces are on from the first loop that passes their threshold. */
  lemma RaisesExactly(rs: RaiseSettings, s: Raising, i: Inputs)
    requires RaiseSettingsOk(rs)
    ensures var s' := RaiseLoop(rs, s, i);
            var busy := !s.paused && s.weight < 100.0;
            var starved := s.weight <= 0.0 && i.lowAirPressure;
            var raised := busy && !starved && AllInOrder(rs, s.hps, i);
            && s'.weight == (if !raised then s.weight
                             else if s.weight + rs.increment > 100.0 then 100.0 else s.weight + rs.increment)
            && s'.waitAirPressure == (if busy then starved else s.waitAirPressure)
            && s'.staticForces == (s.staticForces || (raised && s'.weight > rs.staticAbove))
            && s'.paused == s.paused && s'.bypass == s.bypass
            && (!busy ==> s'.hps == s.hps)
            && (forall k :: 0 <= k < HpCount ==>
                  if busy && !(raised && s'.weight == 100.0) then
                    Evaluates(rs.st, true, i.elevation, k, s.hps[k], i.readings[k], s'.hps[k])
                  else if busy && s.bypass then s'.hps[k].motion.Standby?
                  else if busy then Aimed(rs.st, rs.reference[k], i.readings[k].encoder, s'.hps[k])
                  else true)
  {
    hide EvaluateOne, Evaluates, Aimed, MayRaise, AllInOrder, MovedToEncoder, Tolerated;
    MayRaiseIs(rs, s, i);
    var hps := Evaluated(rs.st, s.hps, true, i.elevation, i.readings);
    forall k | 0 <= k < HpCount
      ensures Evaluates(rs.st, true, i.elevation, k, s.hps[k], i.readings[k], hps[k])
    {
      ToleranceExactly(rs.st, true, i.elevation, k, s.hps[k], i.readings[k]);
    }
    var idle := Apply(rs.st, hps, DisableChaseAll);
    MovesToEncoder(rs.st, idle, rs.reference, i.readings);
  }

  /** Everything else that happens while raising: pauses and any call of the position controller. */
  datatype Event = Loop(inputs: Inputs) | Pause | Resume | Position(call: Call)

  predicate EventOk(e: Event) { e.Position? ==> CallOk(e.call) }

  function React(rs: RaiseSettings, s: Raising, e: Event): Raising
    requires RaiseSettingsOk(rs) && EventOk(e)
  {
    match e
    case Loop(i) => RaiseLoop(rs, s, i)
    case Pause => s.(paused := true)
    case Resume => s.(paused := false)
    case Position(c) => s.(hps := Apply(rs.st, s.hps, c))
  }

  function Raise(rs: RaiseSettings, s: Raising, es: seq<Event>): Raising
    requires RaiseSettingsOk(rs) && forall k :: 0 <= k < |es| ==> EventOk(es[k])
    decreases |es|
  {
    if es == [] then s else React(rs, Raise(rs, s, es[..|es| - 1]), es[|es| - 1])
  }

  /** Every force actuator follows, and every hardpoint is within its force limits or in its permitted wait. */
  ghost predicate Safe(rs: RaiseSettings, s: Raising, i: Inputs)
    requires RaiseSettingsOk(rs)
  {
    var after := Evaluated(rs.st, s.hps, true, i.elevation, i.readings);
    && FollowingInTolerance(rs.followingLimit, i.following)
    && (forall k :: 0 <= k < HpCount ==>
          || ForceFits(rs.st, true, s.hps[k].motion, i.readings[k].force)
          || (k != 5 && PermittedWait(rs.st, i.elevation, k, after[k])))
  }

  lemma MayRaiseMeansSafe(rs: RaiseSettings, s: Raising, i: Inputs)
    requires RaiseSettingsOk(rs) && AllFlagsOk(s.hps) && MayRaise(rs, s, i)
    ensures Safe(rs, s, i)
  {
    hide InLimits, ForceFits, EvaluateOne, FlagsOk, FollowingInTolerance, PermittedWait;
    var after := Evaluated(rs.st, s.hps, true, i.elevation, i.readings);
    forall k | 0 <= k < HpCount
      ensures ForceFits(rs.st, true, s.hps[k].motion, i.readings[k].force)
           || (k != 5 && PermittedWait(rs.st, i.elevation, k, after[k]))
    {
      ToleranceMeans(rs.st, true, i.elevation, k, s.hps[k], i.readings[k]);
      InLimitsIs(rs.st, true, s.hps[k].motion, i.readings[k].force);
    }
  }

  lemma ReactKeepsFlags(rs: RaiseSettings, s: Raising, e: Event)
    requires RaiseSettingsOk(rs) && EventOk(e) && AllFlagsOk(s.hps)
    ensures AllFlagsOk(React(rs, s, e).hps)
  {
    hide Apply, EvaluateOne, AllFlagsOk, MayRaise, Evaluated, MovedToEncoder;
    match e
    case Loop(i) =>
      var hps := Evaluated(rs.st, s.hps, true, i.elevation, i.readings);
      ApplyEvaluate(rs.st, s.hps, true, i.elevation, i.readings);
      FlagsKept(rs.st, s.hps, Evaluate(true, i.elevation, i.readings));
      var idle := Apply(rs.st, hps, DisableChaseAll);
      FlagsKept(rs.st, hps, DisableChaseAll);
      ApplyMoveToEncoder(rs.st, idle, rs.reference, i.readings);
      FlagsKept(rs.st, idle, MoveToEncoder(rs.reference, i.readings));
    case Position(c) => FlagsKept(rs.st, s.hps, c);
    case _ =>
  }

  lemma ApplyEvaluate(st: Settings, s: Hexapod, raise: bool, elevation: real, r: Readings)
    requires SettingsOk(st)
    ensures Apply(st, s, Evaluate(raise, elevation, r)) == Evaluated(st, s, raise, elevation, r)
  {
    hide EvaluateOne;
  }

  lemma ApplyMoveToEncoder(st: Settings, s: Hexapod, values: seq<int>, r: Readings)
    requires SettingsOk(st) && |values| == HpCount
    ensures Apply(st, s, MoveToEncoder(values, r)) == MovedToEncoder(st, s, values, r)
  {
    hide MovedToEncoder;
  }

  /** The loops of a run in which raising was safe. */
  ghost function SafeLoops(rs: RaiseSettings, s: Raising, es: seq<Event>): nat
    requires RaiseSettingsOk(rs) && forall k :: 0 <= k < |es| ==> EventOk(es[k])
    decreases |es|
  {
    if es == [] then 0
    else
      var n := |es| - 1;
      SafeLoops(rs, s, es[..n]) + if es[n].Loop? && Safe(rs, Raise(rs, s, es[..n]), es[n].inputs) then 1 else 0
  }

  lemma {:induction false} RaiseFlags(rs: RaiseSettings, s: Raising, es: seq<Event>)
    requires RaiseSettingsOk(rs) && AllFlagsOk(s.hps) && forall k :: 0 <= k < |es| ==> EventOk(es[k])
    ensures AllFlagsOk(Raise(rs, s, es).hps)
    decreases |es|
  {
    hide React, AllFlagsOk;
    if es != [] {
      RaiseFlags(rs, s, es[..|es| - 1]);
      ReactKeepsFlags(rs, Raise(rs, s, es[..|es| - 1]), es[|es| - 1]);
    }
  }

  lemma LoopWeight(rs: RaiseSettings, s: Raising, i: Inputs)
    requires RaiseSettingsOk(rs)
    ensures var s' := RaiseLoop(rs, s, i);
            && s.weight <= s'.weight <= s.weight + rs.increment
            && (s'.weight != s.weight ==> MayRaise(rs, s, i) && !s.paused && s.weight < 100.0)
  {
    hide Evaluated, Apply, MovedToEncoder, MayRaise, Arrive;
  }

  /** Raise safety in every run: from any start whose waiting flags are sound, whatever pauses and position
      controller calls are interleaved, a loop raises the supported weight only when it is safe. */
  lemma RaiseSafety(rs: RaiseSettings, s: Raising, es: seq<Event>, i: Inputs)
    requires RaiseSettingsOk(rs) && AllFlagsOk(s.hps) && forall k :: 0 <= k < |es| ==> EventOk(es[k])
    requires RaiseLoop(rs, Raise(rs, s, es), i).weight != Raise(rs, s, es).weight
    ensures Safe(rs, Raise(rs, s, es), i) && !Raise(rs, s, es).paused
  {
    hide Raise, RaiseLoop, MayRaise, Safe;
    RaiseFlags(rs, s, es);
    LoopWeight(rs, Raise(rs, s, es), i);
    MayRaiseMeansSafe(rs, Raise(rs, s, es), i);
  }

  /** So all the weight carried has been earned by safe loops, one increment each at most. */
  lemma {:induction false} WeightIsEarned(rs: RaiseSettings, s: Raising, es: seq<Event>)
    requires RaiseSettingsOk(rs) && AllFlagsOk(s.hps) && forall k :: 0 <= k < |es| ==> EventOk(es[k])
    ensures s.weight <= Raise(rs, s, es).weight <= s.weight + rs.increment * SafeLoops(rs, s, es) as real
    decreases |es|
  {
    hide RaiseLoop, Safe, Apply, AllFlagsOk;
    if es != [] {
      var n := |es| - 1;
      var before := Raise(rs, s, es[..n]);
      WeightIsEarned(rs, s, es[..n]);
      if es[n].Loop? {
        LoopWeight(rs, before, es[n].inputs);
        if RaiseLoop(rs, before, es[n].inputs).weight != before.weight {
          RaiseSafety(rs, s, es[..n], es[n].inputs);
        }
      }
    }
  }

  // ----- lowering as a transition ----------------------------------------------------------------------------

  datatype Lowering = Lowering(hps: Hexapod, weight: real, moved: bool, paused: bool)

  /** MirrorLowerController::runLoop. Following errors of the force actuators are not looked at. */
  function LowerLoop(rs: RaiseSettings, s: Lowering, i: Inputs): Lowering
    requires RaiseSettingsOk(rs)
  {
    if s.paused then s
    else if !s.moved then s.(moved := AllStandby(s.hps), hps := Chase(s.hps, i.readings))
    else if s.weight <= 0.0 then s
    else
      s.(hps := Evaluated(rs.st, s.hps, false, i.elevation, i.readings),
         weight := if AllInTolerance(rs.st, s.hps, false, i.elevation, i.readings)
                   then Lowered(s.weight, rs.decrement) else s.weight)
  }

  /** A lowering loop, exactly. Before the lower position is reached it waits for all six hardpoints to be idle and
      then has them chase; after that it gives up one decrement, down to 0, if and only if it is unpaused, something is
      left, and every hardpoint is in tolerance for lowering. */
  lemma LowersExactly(rs: RaiseSettings, s: Lowering, i: Inputs)
    requires RaiseSettingsOk(rs)
    ensures var s' := LowerLoop(rs, s, i);
            var idle := forall k :: 0 <= k < HpCount ==> s.hps[k].motion.Standby?;
            var busy := !s.paused && s.moved && s.weight > 0.0;
            var lowered := busy && forall k :: 0 <= k < HpCount ==>
                             Tolerated(rs.st, false, i.elevation, k, s.hps[k], i.readings[k]);
            && s'.weight == (if !lowered then s.weight
                             else if s.weight - rs.decrement < 0.0 then 0.0 else s.weight - rs.decrement)
            && s'.moved == (s.moved || (!s.paused && idle)) && s'.paused == s.paused
            && (forall k :: 0 <= k < HpCount ==>
                  if busy then Evaluates(rs.st, false, i.elevation, k, s.hps[k], i.readings[k], s'.hps[k])
                  else if !s.paused && !s.moved && idle then s'.hps[k].motion.Chasing?
                  else s'.hps[k] == s.hps[k])
  {
    hide EvaluateOne, Evaluates, Tolerated;
    forall k | 0 <= k < HpCount
      ensures var (h', ok) := EvaluateOne(rs.st, false, i.elevation, k, s.hps[k], i.readings[k]);
              && Evaluates(rs.st, false, i.elevation, k, s.hps[k], i.readings[k], h')
              && ok == Tolerated(rs.st, false, i.elevation, k, s.hps[k], i.readings[k])
    {
      ToleranceExactly(rs.st, false, i.elevation, k, s.hps[k], i.readings[k]);
    }
  }

  /** A start of lowering, an aborted raise, what any other controller makes of the shared weight, and the events
      raising knows too. */
  datatype LowerEvent =
    | StartLower(target: seq<int>, readings: Readings)
    | AbortRaise(readings: Readings)
    | SetWeight(weight: real)
    | Common(event: Event)

  predicate LowerEventOk(e: LowerEvent) {
    (e.StartLower? ==> |e.target| == HpCount) && (e.Common? ==> EventOk(e.event))
  }

  function BeginLower(rs: RaiseSettings, s: Lowering, target: seq<int>, r: Readings): Lowering
    requires RaiseSettingsOk(rs) && |target| == HpCount
  {
    Lowering(MovedToEncoder(rs.st, Apply(rs.st, s.hps, Call.StartLower), target, r), 100.0, false, false)
  }

  /** An aborted raise counts as having reached the lower position. */
  function Aborted(s: Lowering, r: Readings): Lowering {
    s.(hps := Chase(Stopped(s.hps), r), moved := true)
  }

  function LowerReact(rs: RaiseSettings, s: Lowering, e: LowerEvent): Lowering
    requires RaiseSettingsOk(rs) && LowerEventOk(e)
  {
    match e
    case StartLower(target, r) => BeginLower(rs, s, target, r)
    case AbortRaise(r) => Aborted(s, r)
    case SetWeight(w) => s.(weight := w)
    case Common(Loop(i)) => LowerLoop(rs, s, i)
    case Common(Pause) => s.(paused := true)
    case Common(Resume) => s.(paused := false)
    case Common(Position(c)) => s.(hps := Apply(rs.st, s.hps, c))
  }

  function Lower(rs: RaiseSettings, s: Lowering, es: seq<LowerEvent>): Lowering
    requires RaiseSettingsOk(rs) && forall k :: 0 <= k < |es| ==> LowerEventOk(es[k])
    decreases |es|
  {
    if es == [] then s else LowerReact(rs, Lower(rs, s, es[..|es| - 1]), es[|es| - 1])
  }

  lemma LowerKeepsFlags(rs: RaiseSettings, s: Lowering, e: LowerEvent)
    requires RaiseSettingsOk(rs) && LowerEventOk(e) && AllFlagsOk(s.hps)
    ensures AllFlagsOk(LowerReact(rs, s, e).hps)
  {
    hide AllFlagsOk, MovedToEncoder, Evaluated, AllInTolerance;
    match e
    case StartLower(target, r) =>
      FlagsKept(rs.st, s.hps, Call.StartLower);
      var stopped := Apply(rs.st, s.hps, Call.StartLower);
      ApplyMoveToEncoder(rs.st, stopped, target, r);
      FlagsKept(rs.st, stopped, MoveToEncoder(target, r));
    case AbortRaise(r) =>
      FlagsKept(rs.st, s.hps, StopAll);
      FlagsKept(rs.st, Stopped(s.hps), EnableChaseAll(r));
    case Common(Loop(i)) =>
      ApplyEvaluate(rs.st, s.hps, false, i.elevation, i.readings);
      FlagsKept(rs.st, s.hps, Evaluate(false, i.elevation, i.readings));
      FlagsKept(rs.st, s.hps, EnableChaseAll(i.readings));
    case Common(Position(c)) => FlagsKept(rs.st, s.hps, c);
    case _ =>
  }

  lemma {:induction false} LowerFlags(rs: RaiseSettings, s: Lowering, es: seq<LowerEvent>)
    requires RaiseSettingsOk(rs) && AllFlagsOk(s.hps) && forall k :: 0 <= k < |es| ==> LowerEventOk(es[k])
    ensures AllFlagsOk(Lower(rs, s, es).hps)
    decreases |es|
  {
    hide LowerReact, AllFlagsOk;
    if es != [] {
      LowerFlags(rs, s, es[..|es| - 1]);
      LowerKeepsFlags(rs, Lower(rs, s, es[..|es| - 1]), es[|es| - 1]);
    }
  }

  /** Event `k` let the transfer of the weight begin: a loop that found all six hardpoints idle, or the abort of a
      raise. No lowering was started after it. */
  ghost predicate Released(rs: RaiseSettings, s: Lowering, es: seq<LowerEvent>, k: nat)
    requires RaiseSettingsOk(rs) && forall k :: 0 <= k < |es| ==> LowerEventOk(es[k])
  {
    && k < |es| && (forall j :: k < j < |es| ==> !es[j].StartLower?)
    && var before := Lower(rs, s, es[..k]);
       || es[k].AbortRaise?
       || (es[k].Common? && es[k].event.Loop? && !before.paused && AllStandby(before.hps))
  }

  lemma {:induction false} MovedMeans(rs: RaiseSettings, s: Lowering, es: seq<LowerEvent>)
    requires RaiseSettingsOk(rs) && !s.moved && forall k :: 0 <= k < |es| ==> LowerEventOk(es[k])
    requires Lower(rs, s, es).moved
    ensures exists k :: Released(rs, s, es, k)
    decreases |es|
  {
    hide AllStandby, MovedToEncoder, Evaluated, AllInTolerance, Apply, Chase;
    var n := |es| - 1;
    if Lower(rs, s, es[..n]).moved && !es[n].StartLower? {
      MovedMeans(rs, s, es[..n]);
      var k: nat :| Released(rs, s, es[..n], k);
      assert es[..n][..k] == es[..k];
      assert Released(rs, s, es, k);
    } else {
      assert Released(rs, s, es, n);
    }
  }

  /** A loop that gives up weight is unpaused, past the move, and found every hardpoint in its limits or its
      permitted wait. */
  lemma LowerLoopSafe(rs: RaiseSettings, s: Lowering, i: Inputs)
    requires RaiseSettingsOk(rs) && AllFlagsOk(s.hps) && LowerLoop(rs, s, i).weight != s.weight
    ensures s.moved && !s.paused && LowerSafe(rs, s, i)
    ensures var weight := LowerLoop(rs, s, i).weight; 0.0 <= weight < s.weight <= weight + rs.decrement
  {
    hide InLimits, ForceFits, EvaluateOne, FlagsOk, PermittedWait;
    var after := Evaluated(rs.st, s.hps, false, i.elevation, i.readings);
    forall k | 0 <= k < HpCount
      ensures ForceFits(rs.st, false, s.hps[k].motion, i.readings[k].force)
           || (k != 5 && PermittedWait(rs.st, i.elevation, k, after[k]))
    {
      ToleranceMeans(rs.st, false, i.elevation, k, s.hps[k], i.readings[k]);
      InLimitsIs(rs.st, false, s.hps[k].motion, i.readings[k].force);
    }
  }

  /** Every hardpoint is within its limits for lowering or in its permitted wait. */
  ghost predicate LowerSafe(rs: RaiseSettings, s: Lowering, i: Inputs)
    requires RaiseSettingsOk(rs)
  {
    var after := Evaluated(rs.st, s.hps, false, i.elevation, i.readings);
    forall k :: 0 <= k < HpCount ==>
      || ForceFits(rs.st, false, s.hps[k].motion, i.readings[k].force)
      || (k != 5 && PermittedWait(rs.st, i.elevation, k, after[k]))
  }

  /** Lower safety in every run, whatever starts, aborted raises, pauses, position controller calls and changes of
      the shared weight are interleaved: a loop gives up weight, at most one decrement of it, only if it is unpaused
      and every hardpoint is in its limits or its permitted wait, and only if since lowering was last started an
      earlier loop found all six hardpoints idle or a raise was aborted. */
  lemma LowerSafety(rs: RaiseSettings, s: Lowering, es: seq<LowerEvent>, i: Inputs)
    requires RaiseSettingsOk(rs) && !s.moved && AllFlagsOk(s.hps) && forall k :: 0 <= k < |es| ==> LowerEventOk(es[k])
    requires LowerLoop(rs, Lower(rs, s, es), i).weight != Lower(rs, s, es).weight
    ensures var before := Lower(rs, s, es);
            var weight := LowerLoop(rs, before, i).weight;
            && !before.paused && LowerSafe(rs, before, i)
            && 0.0 <= weight < before.weight <= weight + rs.decrement
    ensures exists k :: Released(rs, s, es, k)
  {
    hide Lower, LowerLoop, AllFlagsOk, LowerSafe, Released;
    LowerFlags(rs, s, es);
    LowerLoopSafe(rs, Lower(rs, s, es), i);
    MovedMeans(rs, s, es);
  }

  /** Paused lowering is not at rest. In that state every cycle runs the loop of the raise controller, whose own
      pause flag nobody set: lowering's loop alone keeps the weight, but the cycle adds to it exactly when a
      raise would go on. */
  lemma PausedLoweringMayRaise(rs: RaiseSettings, l: Lowering, r: Raising, i: Inputs)
    requires RaiseSettingsOk(rs) && l.paused && r.weight == l.weight && r.hps == l.hps
    ensures LowerLoop(rs, l, i).weight == l.weight
    ensures var w := RaiseLoop(rs, r, i).weight;
            && w >= l.weight
            && (w > l.weight <==>
                !r.paused && l.weight < 100.0 && (l.weight > 0.0 || !i.lowAirPressure) && MayRaise(rs, r, i))
  {
    hide Evaluated, Apply, MovedToEncoder, MayRaise, Arrive;
  }

  // ----- the controllers ----------------------------------------------------------------------------------------

  class MirrorRaiseController {
    const rs: RaiseSettings
    const position: PositionController
    const info: RaisingLoweringInfo
    const inRange: seq<Settling.HpInRangeCounter>
    var cachedStart: real
    var remaining: real
    var bypass: bool
    var paused: bool
    var staticForces: bool
    var balanceForces: bool

    ghost predicate Valid()
      reads this
    {
      && RaiseSettingsOk(rs) && position.Valid() && position.st == rs.st
      && info.waitHardpoint.Length == HpCount && info.waitHardpoint as object != position.hps
      && |inRange| == HpCount && (forall i :: 0 <= i < HpCount ==> inRange[i].st == rs.settle)
      && (forall i, j :: 0 <= i < j < HpCount ==> inRange[i] != inRange[j])
    }

    ghost function State(): Raising
      requires Valid()
      reads this, position.hps, info
    {
      Raising(position.State(), info.weight, info.waitAirPressure, paused, bypass, staticForces)
    }

    ghost function Time(): Clock
      reads this, info
    {
      Clock(cachedStart, remaining, info.deadline)
    }

    constructor (rs: RaiseSettings, position: PositionController, info: RaisingLoweringInfo)
      requires RaiseSettingsOk(rs) && position.Valid() && position.st == rs.st
      requires info.waitHardpoint.Length == HpCount && info.waitHardpoint as object != position.hps
      ensures Valid() && this.rs == rs && this.position == position && this.info == info
    {
      this.rs, this.position, this.info := rs, position, info;
      cachedStart, remaining := 0.0, 0.0;
      bypass, paused, staticForces, balanceForces := false, false, false, false;
      var c0 := new Settling.HpInRangeCounter(rs.settle);
      var c1 := new Settling.HpInRangeCounter(rs.settle);
      var c2 := new Settling.HpInRangeCounter(rs.settle);
      var c3 := new Settling.HpInRangeCounter(rs.settle);
      var c4 := new Settling.HpInRangeCounter(rs.settle);
      var c5 := new Settling.HpInRangeCounter(rs.settle);
      inRange := [c0, c1, c2, c3, c4, c5];
    }

    /** Starts a raise: hardpoints chase and may wait again, no weight is carried, the clock runs. */
    method Start(bypassMove: bool, now: real, r: Readings)
      requires Valid()
      modifies this, position.hps, info, inRange
      ensures Valid()
      ensures State() == Raising(Apply(rs.st, old(position.State()), Call.StartRaise(r)), 0.0, false, false,
                                 bypassMove, false)
      ensures Time() == Started(now, rs.raiseTimeout) && Settling.AllFresh(Settling.Values(inRange))
      ensures !balanceForces
    {
      hide Apply, Settling.Values;
      bypass, paused := bypassMove, false;
      for i := 0 to HpCount
        invariant Valid() && bypass == bypassMove && !paused
        invariant position.State() == old(position.State())
        invariant forall k :: 0 <= k < i ==> inRange[k].c.counter == -1 && inRange[k].c.timeout == -1
      {
        inRange[i].Reset();
      }
      position.StartRaise(r);
      balanceForces, staticForces := false, false;
      info.weight := 0.0;
      cachedStart := now;
      remaining := rs.raiseTimeout as real;
      info.deadline := At(cachedStart + remaining);
      info.waitAirPressure := false;
      FreshValues(inRange);
    }

    /** One control cycle of raising. */
    method RunLoop(i: Inputs)
      requires Valid() && FollowingOk(i.following)
      modifies `staticForces, position.hps, info, info.waitHardpoint
      ensures Valid() && State() == RaiseLoop(rs, old(State()), i)
      ensures info.deadline == old(info.deadline)
    {
      hide Evaluated, Apply, MovedToEncoder, AllInTolerance, FollowingInTolerance, Accepts;
      if paused {
        return;
      }
      if info.weight < 100.0 {
        if info.weight <= 0.0 && i.lowAirPressure {
          info.waitAirPressure := true;
          var ignored := position.HpForcesInTolerance(true, i.elevation, i.readings, info);
          return;
        }
        info.waitAirPressure := false;
        var ok := position.HpForcesInTolerance(true, i.elevation, i.readings, info);
        if ok {
          var waitX, waitY, waitZ;
          ok, waitX, waitY, waitZ := FaFollowingInTolerance(rs.followingLimit, i.following);
        }
        if ok {
          info.IncSupportPercentage(rs.increment);
          if info.weight > rs.staticAbove {
            staticForces := true;
          }
          if info.weight >= 100.0 {
            position.DisableChaseAll();
            if !bypass {
              var moved := position.MoveToEncoder(rs.reference, i.readings);
            }
          }
        }
      }
    }

    /** The raise is complete once all weight is carried, the hardpoints are idle and their forces have settled
        (or waiting for that has timed out). The settle counters are only polled while the hardpoints are idle. */
    method CheckComplete(forces: Settling.Forces) returns (complete: bool)
      requires Valid()
      modifies inRange
      ensures var ready := Settling.Poll(rs.settle, old(Settling.Values(inRange)), forces, 0);
              && complete == (info.weight >= 100.0 && AllStandby(position.State()) && ready.1)
              && Settling.Values(inRange)
              == if AllStandby(position.State()) then ready.0 else old(Settling.Values(inRange))
    {
      hide Settling.Poll;
      var filled := info.Filled();
      var idle := position.MotionComplete();
      var settled := false;
      if idle {
        settled := Settling.CheckHpReady(rs.settle, inRange, forces);
      }
      complete := filled && idle && settled;
    }

    /** Finishes the raise; balance forces are enabled, where configured, unless some hardpoint timed out. */
    method Complete(balanceConfigured: bool)
      requires Valid()
      modifies `balanceForces, `staticForces, info
      ensures Valid() && info.weight == 100.0 && staticForces
      ensures balanceForces
           == (balanceConfigured && forall i :: 0 <= i < HpCount ==> !Settling.TimedOut(rs.settle, inRange[i].c))
      ensures info.deadline == old(info.deadline)
    {
      balanceForces, staticForces := false, true;
      if balanceConfigured {
        var timedOut := 0;
        for i := 0 to HpCount
          invariant timedOut >= 0
          invariant timedOut == 0 <==> forall k :: 0 <= k < i ==> !Settling.TimedOut(rs.settle, inRange[k].c)
          invariant Valid() && !balanceForces && staticForces && info.deadline == old(info.deadline)
        {
          if Settling.TimedOut(rs.settle, inRange[i].c) {
            timedOut := timedOut + 1;
          }
        }
        balanceForces := timedOut == 0;
      }
      info.weight := 100.0;
    }

    method CheckTimeout(now: real) returns (expired: bool)
      ensures expired == Expired(info.deadline, now)
    {
      expired := info.deadline.At? && now >= info.deadline.time;
    }

    method PauseRaising(now: real)
      requires Valid()
      modifies `paused, `remaining, info`deadline
      ensures Valid() && Time() == Deadlines.Paused(old(Time()), now) && State() == React(rs, old(State()), Pause)
    {
      paused := true;
      remaining := remaining - (now - cachedStart);
      info.deadline := Unset;
    }

    method ResumeRaising(now: real)
      requires Valid()
      modifies `paused, info`deadline
      ensures Valid() && Time() == Resumed(old(Time()), now) && State() == React(rs, old(State()), Resume)
    {
      paused := false;
      info.deadline := At(now + remaining);
    }
  }

  lemma FreshValues(counters: seq<Settling.HpInRangeCounter>)
    requires |counters| == HpCount
    requires forall k :: 0 <= k < HpCount ==> counters[k].c.counter == -1 && counters[k].c.timeout == -1
    ensures Settling.AllFresh(Settling.Values(counters))
  {
  }

  class MirrorLowerController {
    const rs: RaiseSettings
    const position: PositionController
    const info: RaisingLoweringInfo
    var cachedStart: real
    var remaining: real
    var moved: bool
    var paused: bool

    ghost predicate Valid()
      reads this
    {
      && RaiseSettingsOk(rs) && position.Valid() && position.st == rs.st
      && info.waitHardpoint.Length == HpCount && info.waitHardpoint as object != position.hps
    }

    ghost function State(): Lowering
      requires Valid()
      reads this, position.hps, info
    {
      Lowering(position.State(), info.weight, moved, paused)
    }

    ghost function Time(): Clock
      reads this, info
    {
      Clock(cachedStart, remaining, info.deadline)
    }

    constructor (rs: RaiseSettings, position: PositionController, info: RaisingLoweringInfo)
      requires RaiseSettingsOk(rs) && position.Valid() && position.st == rs.st
      requires info.waitHardpoint.Length == HpCount && info.waitHardpoint as object != position.hps
      ensures Valid() && this.rs == rs && this.position == position && this.info == info && !moved && !paused
    {
      this.rs, this.position, this.info := rs, position, info;
      cachedStart, remaining, moved, paused := 0.0, 0.0, false, false;
    }

    /** Starts lowering with a move to the lower position. The source throws when that move is refused,
        which cannot happen: every hardpoint has just been stopped. */
    method Start(now: real, lowerPosition: seq<int>, r: Readings) returns (ok: bool)
      requires Valid() && |lowerPosition| == HpCount
      modifies this, position.hps, info
      ensures ok && Valid() && Time() == Started(now, rs.lowerTimeout)
      ensures State() == BeginLower(rs, old(State()), lowerPosition, r)
    {
      hide MovedToEncoder;
      position.StartLower();
      moved, paused := false, false;
      ok := position.MoveToEncoder(lowerPosition, r);
      if !ok {
        return;
      }
      SetStartTimestamp(now);
      info.weight := 100.0;
    }

    method SetStartTimestamp(now: real)
      requires Valid()
      modifies `cachedStart, `remaining, info`deadline
      ensures Valid() && Time() == Started(now, rs.lowerTimeout)
    {
      cachedStart := now;
      remaining := rs.lowerTimeout as real;
      info.deadline := At(cachedStart + remaining);
    }

    /** One control cycle of lowering. */
    method RunLoop(i: Inputs)
      requires Valid()
      modifies `moved, position.hps, info, info.waitHardpoint
      ensures Valid() && State() == LowerLoop(rs, old(State()), i)
      ensures info.deadline == old(info.deadline)
    {
      hide Evaluated, AllInTolerance;
      if paused {
        return;
      }
      if !moved {
        moved := position.MotionComplete();
        if moved {
          var ok := position.EnableChaseAll(i.readings);
        }
      } else if !info.Zeroed() {
        var ok := position.HpForcesInTolerance(false, i.elevation, i.readings, info);
        if ok {
          info.DecSupportPercentage(rs.decrement);
        }
      }
    }

    /** Turns an aborted raise into lowering: the hardpoints chase at once, and a full budget is granted. */
    method AbortRaise(now: real, r: Readings)
      requires Valid()
      modifies this, position.hps, info
      ensures Valid() && Time() == Started(now, rs.lowerTimeout)
      ensures State() == Aborted(old(State()), r)
      ensures forall k :: 0 <= k < HpCount ==> position.State()[k].motion == Chasing
    {
      position.StopMotion(-1);
      var ok := position.EnableChaseAll(r);
      moved := true;
      SetStartTimestamp(now);
    }

    method CheckTimeout(now: real) returns (expired: bool)
      ensures expired == Expired(info.deadline, now)
    {
      expired := info.deadline.At? && now >= info.deadline.time;
    }

    method PauseLowering(now: real)
      requires Valid()
      modifies `paused, `remaining, info`deadline
      ensures Valid() && paused && Time() == Deadlines.Paused(old(Time()), now)
      ensures State() == old(State()).(paused := true)
    {
      paused := true;
      remaining := remaining - (now - cachedStart);
      info.deadline := Unset;
    }

    method ResumeLowering(now: real)
      requires Valid()
      modifies `paused, info`deadline
      ensures Valid() && !paused && Time() == Resumed(old(Time()), now)
      ensures State() == old(State()).(paused := false)
    {
      paused := false;
      info.deadline := At(now + remaining);
    }
  }
}
