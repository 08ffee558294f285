/** What the transitions of the hardpoints mean, in terms of the settings and of what is measured alone: which way and
    how far each motor is driven, where a move leads, and which forces are in tolerance. */
module HardpointMeaning {
  import opened Arithmetic
  import opened Hardpoints

  /** `n` is `x` without its fraction: within one of it, and no farther from zero. */
  predicate Truncates(n: int, x: real) {
    if x >= 0.0 then 0.0 <= n as real <= x < n as real + 1.0 else n as real - 1.0 < x <= n as real <= 0.0
  }

  /** `c` steps follow the product `x` as far as `max` allows: with its sign, within one step of it and no farther
      from zero, or the greatest number of steps in its direction. */
  predicate Follows(c: int, x: real, max: int) {
    if x >= max as real then c == max
    else if x <= -(max as real) then c == -max
    else Truncates(c, x)
  }

  /** The steps a force asks for, and those an encoder distance takes, fractions included. */
  function Pull(st: Settings, force: real): real { force * st.forceToSteps }

  function Way(st: Settings, counts: int): real { counts as real * st.encoderToSteps }

  /** `sent` is what is left of `c` at the limit switches: switch 2 stops negative steps, switch 1 positive ones. */
  predicate Passes(c: int, r: Reading, sent: int) {
    sent == if (c < 0 && r.lowSwitch) || (c > 0 && r.highSwitch) then 0 else c
  }

  /** The steps wanted in a control cycle, before the switches. */
  predicate Wants(st: Settings, h: Hardpoint, r: Reading, c: int) {
    match h.motion
    case Standby => c == 0
    case Chasing => Follows(c, Pull(st, r.force), st.maxSteps)
    case WaitingTension =>
      if Pull(st, r.force) >= 0.0 then c == 0 else Follows(c, Pull(st, r.force), st.maxSteps)
    case WaitingCompression =>
      if Pull(st, r.force) <= 0.0 then c == 0 else Follows(c, Pull(st, r.force), st.maxSteps)
    case FinePositioning =>
      var error := h.target - r.encoder;
      if error == 0 then c == 0
      else if error == 1 || error == 2 then c == 1
      else if error == -1 || error == -2 then c == -1
      else Follows(c, Way(st, error), st.maxSteps)
    case _ => c == if h.queued > h.scaled then h.scaled else if h.queued < -h.scaled then -h.scaled else h.queued
  }

  /** One control cycle of a hardpoint: the steps wanted pass the switches; a motor working off its queue takes them
      from it whether they pass or not, and moves on once there was nothing to take and nothing is left. */
  ghost predicate Driven(st: Settings, h: Hardpoint, r: Reading, h': Hardpoint) {
    && (exists c ::
          && Wants(st, h, r, c) && Passes(c, r, h'.commanded)
          && h'.queued == (if h.motion.Standby? then 0
                           else if h.motion.Stepping? || h.motion.QuickPositioning? then h.queued - c
                           else h.queued))
    && (h.motion.Stepping? ==> h'.motion == if h.queued == 0 then Standby else Stepping)
    && (h.motion.QuickPositioning? ==> h'.motion == if h.queued == 0 then FinePositioning else QuickPositioning)
    && (!h.motion.Stepping? && !h.motion.QuickPositioning? && !h.motion.FinePositioning? ==> h'.motion == h.motion)
    && h'.target == h.target && h'.scaled == h.scaled && h'.samples == h.samples
    && h'.waitTension == h.waitTension && h'.waitCompression == h.waitCompression
  }

  lemma TruncIs(x: real)
    ensures Truncates(Trunc(x), x)
  {
  }

  lemma ClampFollows(x: real, max: int)
    requires max >= 1
    ensures Follows(Coerce(-max, max, Trunc(x)), x, max)
  {
    TruncIs(x);
  }

  lemma FollowsSign(c: int, x: real, max: int)
    requires max >= 1 && Follows(c, x, max)
    ensures (x <= 0.0 ==> c <= 0) && (x >= 0.0 ==> c >= 0)
  {
  }

  lemma ChaseWants(st: Settings, force: real)
    requires SettingsOk(st)
    ensures Follows(ChaseSteps(st, force), Pull(st, force), st.maxSteps)
  {
    ClampFollows(Pull(st, force), st.maxSteps);
  }

  lemma FineWants(st: Settings, h: Hardpoint, encoder: int)
    requires SettingsOk(st)
    ensures var error := h.target - encoder;
            var c := FineStep(st, h, encoder).commanded;
            if error == 0 then c == 0
            else if error == 1 || error == 2 then c == 1
            else if error == -1 || error == -2 then c == -1
            else Follows(c, Way(st, error), st.maxSteps)
  {
    hide EncoderSteps, Way;
    EncoderFollows(st, h.target - encoder);
  }

  lemma EncoderFollows(st: Settings, error: int)
    requires SettingsOk(st)
    ensures Follows(Coerce(-st.maxSteps, st.maxSteps, EncoderSteps(st, error)), Way(st, error), st.maxSteps)
  {
    ClampFollows(Way(st, error), st.maxSteps);
  }

  lemma DriveWants(st: Settings, h: Hardpoint, r: Reading)
    requires SettingsOk(st) && (h.motion.Stepping? || h.motion.QuickPositioning? ==> h.scaled >= 1)
    ensures Wants(st, h, r, Drive(st, h, r).commanded)
  {
    hide ChaseSteps, FineStep, Pull, Way;
    match h.motion
    case Chasing => ChaseWants(st, r.force);
    case WaitingTension =>
      ChaseWants(st, r.force);
      FollowsSign(ChaseSteps(st, r.force), Pull(st, r.force), st.maxSteps);
    case WaitingCompression =>
      ChaseWants(st, r.force);
      FollowsSign(ChaseSteps(st, r.force), Pull(st, r.force), st.maxSteps);
    case FinePositioning => FineWants(st, h.(lastEncoder := r.encoder), r.encoder);
    case _ =>
  }

  lemma UpdateDrives(st: Settings, h: Hardpoint, r: Reading)
    requires SettingsOk(st) && (h.motion.Stepping? || h.motion.QuickPositioning? ==> h.scaled >= 1)
    ensures Driven(st, h, r, UpdateOne(st, h, r))
  {
    hide Wants, ChaseSteps, EncoderSteps, Pull, Way;
    DriveWants(st, h, r);
    var c := Drive(st, h, r).commanded;
    assert Wants(st, h, r, c) && Passes(c, r, UpdateOne(st, h, r).commanded);
  }

  /** Nothing queued, and the permission to wait its kind of hardpoint has: in tension for the second and the fifth, in
      compression for the first, the third and the fourth, none for the last. */
  predicate Rests(h: Hardpoint, i: int) {
    && h.queued == 0 && h.samples == 0
    && h.waitTension == (if i == 1 || i == 4 then CanWait else NoWait)
    && h.waitCompression == (if i == 0 || i == 2 || i == 3 then CanWait else NoWait)
  }

  // ----- moves ---------------------------------------------------------------------------------------------------

  /** A hardpoint on its way to an encoder value: its queue is worth the distance less four counts, without the
      fraction, in the direction of the target; it is idle if that is no step at all. */
  predicate Aimed(st: Settings, target: int, encoder: int, h: Hardpoint) {
    var error := target - encoder;
    var distance := if error > 4 then error - 4 else if error < -4 then error + 4 else 0;
    && h.target == target && h.stable == 0 && Truncates(h.queued, Way(st, distance))
    && h.motion == if h.queued != 0 then QuickPositioning else Standby
  }

  /** A hardpoint on a move of so many steps, idle if there are none. */
  predicate OnItsWay(steps: int, h: Hardpoint) {
    h.queued == steps && h.motion == if steps != 0 then Stepping else Standby
  }

  lemma AimIsAimed(st: Settings, h: Hardpoint, target: int, encoder: int)
    ensures Aimed(st, target, encoder, Aim(st, h, target, encoder))
  {
    TruncIs(Way(st, QuickDelta(target - encoder)));
  }

  lemma MovesToEncoder(st: Settings, s: Hexapod, values: seq<int>, rs: Readings)
    requires SettingsOk(st) && |values| == HpCount
    requires forall i :: 0 <= i < HpCount && values[i] != rs[i].encoder ==> s[i].motion.Standby?
    ensures forall i :: 0 <= i < HpCount ==> Aimed(st, values[i], rs[i].encoder, MovedToEncoder(st, s, values, rs)[i])
  {
    hide Aim, Scaled;
    forall i | 0 <= i < HpCount
      ensures Aimed(st, values[i], rs[i].encoder, MovedToEncoder(st, s, values, rs)[i])
    {
      AimIsAimed(st, s[i], values[i], rs[i].encoder);
    }
  }

  lemma MovesSteps(st: Settings, s: Hexapod, wanted: seq<int>)
    requires SettingsOk(st) && |wanted| == HpCount
    requires forall i :: 0 <= i < HpCount && wanted[i] != 0 ==> s[i].motion.Standby?
    ensures forall i :: 0 <= i < HpCount ==> OnItsWay(wanted[i], Moved(st, s, wanted)[i])
  {
    hide Scaled;
  }

  // ----- forces --------------------------------------------------------------------------------------------------

  /** The force is within the limits for raising, or for lowering; a hardpoint waiting in tension has half the low
      limit, one in compression the mean of both as the high one. */
  predicate ForceFits(st: Settings, raise: bool, m: Motion, force: real) {
    if raise then
      && (if m.WaitingTension? then st.raiseLow / 2.0 else st.raiseLow) <= force
      && force <= (if m.WaitingCompression? then (st.raiseLow + st.raiseHigh) / 2.0 else st.raiseHigh)
    else
      && (if m.WaitingTension? then st.lowerLow / 2.0 else st.lowerLow) <= force
      && force <= (if m.WaitingCompression? then (st.lowerLow + st.lowerHigh) / 2.0 else st.lowerHigh)
  }

  lemma InLimitsIs(st: Settings, raise: bool, m: Motion, force: real)
    ensures InLimits(st, raise, m, force) <==> ForceFits(st, raise, m, force)
  {
  }

  /** A hardpoint whose pull or push is looked at with patience at this elevation. */
  predicate TensionWatched(st: Settings, elevation: real, i: int) {
    elevation < st.tensionElevation && (i == 1 || i == 4)
  }

  predicate CompressionWatched(st: Settings, elevation: real, i: int) {
    elevation < st.compressionElevation && (i == 0 || i == 2 || i == 3)
  }

  /** A chasing hardpoint at the end of its range, its permission to wait not used, starts to wait. */
  predicate StartsToWait(st: Settings, raise: bool, elevation: real, i: int, h: Hardpoint, r: Reading)
    requires SettingsOk(st) && 0 <= i < HpCount
  {
    h.motion.Chasing?
    && ((TensionWatched(st, elevation, i) && h.waitTension.CanWait? && r.encoder > st.highProximity[i]
         && r.force <= (if raise then st.raiseLow else st.lowerLow))
        || (CompressionWatched(st, elevation, i) && h.waitCompression.CanWait? && r.encoder < st.lowProximity[i]
            && r.force >= (if raise then st.raiseHigh else st.lowerHigh)))
  }

  /** A watched hardpoint in its waiting state. */
  predicate IsWatched(st: Settings, elevation: real, i: int, m: Motion) {
    || (TensionWatched(st, elevation, i) && m.WaitingTension?)
    || (CompressionWatched(st, elevation, i) && m.WaitingCompression?)
  }

  /** The hardpoint is in tolerance: it starts to wait, or its force is within the limits; a waiting one is in
      tolerance while out of its limits, and not while within them until it has been so often enough. */
  predicate Tolerated(st: Settings, raise: bool, elevation: real, i: int, h: Hardpoint, r: Reading)
    requires SettingsOk(st) && 0 <= i < HpCount
  {
    || StartsToWait(st, raise, elevation, i, h, r)
    || (if IsWatched(st, elevation, i, h.motion) && !OftenEnough(st, h) then !ForceFits(st, raise, h.motion, r.force)
        else IsWatched(st, elevation, i, h.motion) || ForceFits(st, raise, h.motion, r.force))
  }

  /** One more evaluation within the limits is enough to end the wait. */
  predicate OftenEnough(st: Settings, h: Hardpoint) { (h.samples + 1) % 0x1_0000 >= st.readoutsToChase }

  /** What an evaluation makes of a hardpoint: it starts to wait, resumes chasing, or stays in its state; steps into an
      operated switch are dropped, and all of them when a wait starts. */
  predicate Evaluates(st: Settings, raise: bool, elevation: real, i: int, h: Hardpoint, r: Reading, h': Hardpoint)
    requires SettingsOk(st) && 0 <= i < HpCount
  {
    var starts := StartsToWait(st, raise, elevation, i, h, r);
    var fits := ForceFits(st, raise, h.motion, r.force);
    var resumes := IsWatched(st, elevation, i, h.motion) && fits && OftenEnough(st, h);
    && h'.motion == (if starts then (if TensionWatched(st, elevation, i) then WaitingTension else WaitingCompression)
                     else if resumes then Chasing else h.motion)
    && h'.queued == h.queued && h'.target == h.target
    && Passes(if starts then 0 else h.commanded, r, h'.commanded)
  }

  lemma ToleranceExactly(st: Settings, raise: bool, elevation: real, i: int, h: Hardpoint, r: Reading)
    requires SettingsOk(st) && 0 <= i < HpCount
    ensures var (h', ok) := EvaluateOne(st, raise, elevation, i, h, r);
            Evaluates(st, raise, elevation, i, h, r, h') && ok == Tolerated(st, raise, elevation, i, h, r)
  {
    hide InLimits, ForceFits;
    InLimitsIs(st, raise, h.motion, r.force);
    if TensionWatched(st, elevation, i) {
      TensionExactly(st, raise, elevation, i, h, r);
    } else if CompressionWatched(st, elevation, i) {
      CompressionExactly(st, raise, elevation, i, h, r);
    }
  }

  lemma TensionExactly(st: Settings, raise: bool, elevation: real, i: int, h: Hardpoint, r: Reading)
    requires SettingsOk(st) && 0 <= i < HpCount && TensionWatched(st, elevation, i)
    ensures var (h', ok) := EvaluateOne(st, raise, elevation, i, h, r);
            Evaluates(st, raise, elevation, i, h, r, h') && ok == Tolerated(st, raise, elevation, i, h, r)
  {
    hide InLimits, ForceFits;
    InLimitsIs(st, raise, h.motion, r.force);
  }

  lemma CompressionExactly(st: Settings, raise: bool, elevation: real, i: int, h: Hardpoint, r: Reading)
    requires SettingsOk(st) && 0 <= i < HpCount && CompressionWatched(st, elevation, i)
    ensures var (h', ok) := EvaluateOne(st, raise, elevation, i, h, r);
            Evaluates(st, raise, elevation, i, h, r, h') && ok == Tolerated(st, raise, elevation, i, h, r)
  {
    hide InLimits, ForceFits;
    InLimitsIs(st, raise, h.motion, r.force);
  }

  /** No hardpoint waits and none is watched: in tolerance means exactly that all forces are within the limits. */
  lemma AllFit(st: Settings, s: Hexapod, raise: bool, elevation: real, rs: Readings)
    requires SettingsOk(st) && elevation >= st.tensionElevation && elevation >= st.compressionElevation
    ensures AllInTolerance(st, s, raise, elevation, rs)
       <==> forall i :: 0 <= i < HpCount ==> ForceFits(st, raise, s[i].motion, rs[i].force)
  {
    hide EvaluateOne, ForceFits;
    forall i | 0 <= i < HpCount
      ensures EvaluateOne(st, raise, elevation, i, s[i], rs[i]).1 <==> ForceFits(st, raise, s[i].motion, rs[i].force)
    {
      ToleranceExactly(st, raise, elevation, i, s[i], rs[i]);
    }
  }
}
