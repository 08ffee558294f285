/** The one-shot waiting of hardpoints under tension or compression while the mirror is raised or lowered. */
module WaitOnce {
  import opened Arithmetic
  import opened Hardpoints
  import opened HardpointRuns

  /** Only hardpoints of the right kind have a permission to wait, waiting uses it up, and the sample
      counter is zero until it has been used. */
  ghost predicate FlagsOk(h: Hardpoint, i: int) {
    && (h.waitTension != NoWait ==> CanSeeTension(i))
    && (h.waitCompression != NoWait ==> CanSeeCompression(i))
    && (h.motion == WaitingTension ==> h.waitTension == Waiting)
    && (h.motion == WaitingCompression ==> h.waitCompression == Waiting)
    && (h.waitTension == CanWait || h.waitCompression == CanWait ==> h.samples == 0)
  }

  ghost predicate AllFlagsOk(s: Hexapod) { forall i :: 0 <= i < HpCount ==> FlagsOk(s[i], i) }

  lemma EvaluateKeepsFlags(st: Settings, raise: bool, elevation: real, i: int, h: Hardpoint, r: Reading)
    requires SettingsOk(st) && 0 <= i < HpCount && FlagsOk(h, i)
    ensures FlagsOk(EvaluateOne(st, raise, elevation, i, h, r).0, i)
  {
    hide LowLimit, HighLimit;
  }

  lemma UpdateKeepsFlags(st: Settings, i: int, h: Hardpoint, r: Reading)
    requires SettingsOk(st) && 0 <= i < HpCount && FlagsOk(h, i)
    ensures FlagsOk(UpdateOne(st, h, r), i)
    ensures var h' := UpdateOne(st, h, r);
            && h'.waitTension == h.waitTension && h'.waitCompression == h.waitCompression && h'.samples == h.samples
            && (IsWaiting(h'.motion) || IsWaiting(h.motion) ==> h'.motion == h.motion)
  {
    hide ChaseSteps, EncoderSteps;
  }

  lemma FlagsKept(st: Settings, s: Hexapod, c: Call)
    requires SettingsOk(st) && CallOk(c) && AllFlagsOk(s)
    ensures AllFlagsOk(Apply(st, s, c))
  {
    hide Scaled, EncoderSteps, Longest, Accepts, UpdateOne, EvaluateOne;
    match c
    case UpdateSteps(rs) =>
      forall i | 0 <= i < HpCount
        ensures FlagsOk(UpdateOne(st, s[i], rs[i]), i)
      {
        UpdateKeepsFlags(st, i, s[i], rs[i]);
      }
    case Evaluate(raise, elevation, rs) =>
      forall i | 0 <= i < HpCount
        ensures FlagsOk(EvaluateOne(st, raise, elevation, i, s[i], rs[i]).0, i)
      {
        EvaluateKeepsFlags(st, raise, elevation, i, s[i], rs[i]);
      }
    case _ =>
  }

  /** The flags are sound in every reachable state. */
  lemma {:induction false} FlagsAlways(st: Settings, s: Hexapod, cs: seq<Call>)
    requires SettingsOk(st) && CallsOk(cs) && AllFlagsOk(s)
    ensures AllFlagsOk(Run(st, s, cs))
    decreases |cs|
  {
    hide Apply;
    if cs != [] {
      FlagsAlways(st, s, cs[..|cs| - 1]);
      FlagsKept(st, Run(st, s, cs[..|cs| - 1]), cs[|cs| - 1]);
    }
  }

  lemma InitialFlags(st: Settings)
    requires SettingsOk(st)
    ensures AllFlagsOk(seq(HpCount, i requires 0 <= i < HpCount => Initial(st, i)))
    ensures LimitsOk(st, seq(HpCount, i requires 0 <= i < HpCount => Initial(st, i)))
  {
  }

  // ----- at most once ---------------------------------------------------------------------------------------

  predicate Rearms(c: Call) { c.StartRaise? || c.StartLower? }

  /** How often hardpoint `i` entered a waiting state during the calls. */
  function Entries(st: Settings, s: Hexapod, cs: seq<Call>, i: nat): nat
    requires SettingsOk(st) && CallsOk(cs) && i < HpCount
    decreases |cs|
  {
    if cs == [] then 0
    else
      var n := |cs| - 1;
      Entries(st, s, cs[..n], i)
      + if !IsWaiting(Run(st, s, cs[..n])[i].motion) && IsWaiting(Run(st, s, cs)[i].motion) then 1 else 0
  }

  /** Permissions to wait that a hardpoint still has. */
  function Permits(h: Hardpoint): nat {
    (if h.waitTension == CanWait then 1 else 0) + if h.waitCompression == CanWait then 1 else 0
  }

  lemma CallSpends(st: Settings, s: Hexapod, c: Call, i: nat)
    requires SettingsOk(st) && CallOk(c) && !Rearms(c) && AllFlagsOk(s) && i < HpCount
    ensures var h, h' := s[i], Apply(st, s, c)[i];
            Permits(h') + (if !IsWaiting(h.motion) && IsWaiting(h'.motion) then 1 else 0) <= Permits(h)
  {
    hide Scaled, EncoderSteps, Longest, Accepts, UpdateOne, EvaluateOne;
    match c
    case UpdateSteps(rs) => UpdateKeepsFlags(st, i, s[i], rs[i]);
    case Evaluate(raise, elevation, rs) => EvaluateSpends(st, raise, elevation, i, s[i], rs[i]);
    case _ =>
  }

  lemma EvaluateSpends(st: Settings, raise: bool, elevation: real, i: int, h: Hardpoint, r: Reading)
    requires SettingsOk(st) && 0 <= i < HpCount && FlagsOk(h, i)
    ensures var h' := EvaluateOne(st, raise, elevation, i, h, r).0;
            Permits(h') + (if !IsWaiting(h.motion) && IsWaiting(h'.motion) then 1 else 0) <= Permits(h)
  {
    hide LowLimit, HighLimit;
  }

  lemma {:induction false} EntriesBounded(st: Settings, s: Hexapod, cs: seq<Call>, i: nat)
    requires SettingsOk(st) && CallsOk(cs) && AllFlagsOk(s) && i < HpCount
    requires forall k :: 0 <= k < |cs| ==> !Rearms(cs[k])
    ensures Permits(Run(st, s, cs)[i]) + Entries(st, s, cs, i) <= Permits(s[i])
    decreases |cs|
  {
    hide Apply, Permits, FlagsOk;
    if cs != [] {
      var front := cs[..|cs| - 1];
      EntriesBounded(st, s, front, i);
      FlagsAlways(st, s, front);
      CallSpends(st, Run(st, s, front), cs[|cs| - 1], i);
    }
  }

  /** Between two startRaise or startLower calls a hardpoint enters a waiting state at most once: in
      tension only hardpoints 2 and 5, in compression only 1, 3 and 4 (indices from zero in the code),
      and hardpoint 6 never. */
  lemma WaitsAtMostOnce(st: Settings, s: Hexapod, cs: seq<Call>, i: nat)
    requires SettingsOk(st) && CallsOk(cs) && AllFlagsOk(s) && i < HpCount
    requires forall k :: 0 <= k < |cs| ==> !Rearms(cs[k])
    ensures Entries(st, s, cs, i) <= 1
    ensures i == 5 ==> Entries(st, s, cs, i) == 0
    ensures Run(st, s, cs)[i].motion == WaitingTension ==> i in {1, 4}
    ensures Run(st, s, cs)[i].motion == WaitingCompression ==> i in {0, 2, 3}
  {
    hide Run, Entries;
    EntriesBounded(st, s, cs, i);
    FlagsAlways(st, s, cs);
  }

  // ----- resuming -------------------------------------------------------------------------------------------

  /** Whether evaluating at this elevation looks at the hardpoint's waiting state. */
  predicate Watched(st: Settings, elevation: real, i: int) {
    || (elevation < st.tensionElevation && CanSeeTension(i))
    || (elevation < st.compressionElevation && CanSeeCompression(i))
  }

  /** In-range evaluations in a row, since hardpoint `i` started to wait or was last out of range. */
  function Streak(st: Settings, s: Hexapod, cs: seq<Call>, i: nat): nat
    requires SettingsOk(st) && CallsOk(cs) && i < HpCount
    decreases |cs|
  {
    if cs == [] then 0
    else
      var n := |cs| - 1;
      var before, after := Run(st, s, cs[..n])[i], Run(st, s, cs)[i];
      if !IsWaiting(after.motion) || !IsWaiting(before.motion) then 0
      else if cs[n].Evaluate? && Watched(st, cs[n].elevation, i) then
        if InLimits(st, cs[n].raise, before.motion, cs[n].readings[i].force) then Streak(st, s, cs[..n], i) + 1 else 0
      else Streak(st, s, cs[..n], i)
  }

  /** One evaluation of a waiting hardpoint, in terms of its sample counter. */
  lemma EvaluateWaiting(st: Settings, raise: bool, elevation: real, i: int, h: Hardpoint, r: Reading)
    requires SettingsOk(st) && 0 <= i < HpCount && FlagsOk(h, i) && IsWaiting(h.motion)
    ensures var h', ok := EvaluateOne(st, raise, elevation, i, h, r).0, EvaluateOne(st, raise, elevation, i, h, r).1;
            var n := (h.samples + 1) % 0x1_0000;
            if !Watched(st, elevation, i) then h'.motion == h.motion && h'.samples == h.samples
            else if !InLimits(st, raise, h.motion, r.force) then h'.motion == h.motion && h'.samples == 0 && ok
            else if n < st.readoutsToChase then h'.motion == h.motion && h'.samples == n && !ok
            else h'.motion == Chasing && ok
  {
    hide LowLimit, HighLimit;
  }

  lemma EvaluateEnters(st: Settings, raise: bool, elevation: real, i: int, h: Hardpoint, r: Reading)
    requires SettingsOk(st) && 0 <= i < HpCount && FlagsOk(h, i) && !IsWaiting(h.motion)
    ensures var h' := EvaluateOne(st, raise, elevation, i, h, r).0; IsWaiting(h'.motion) ==> h'.samples == 0
  {
    hide LowLimit, HighLimit;
  }

  lemma OtherCallsKeepSamples(st: Settings, s: Hexapod, c: Call, i: nat)
    requires SettingsOk(st) && CallOk(c) && !c.Evaluate? && AllFlagsOk(s) && i < HpCount
    ensures var h, h' := s[i], Apply(st, s, c)[i];
            IsWaiting(h'.motion) ==> h'.motion == h.motion && h'.samples == h.samples
  {
    hide Scaled, EncoderSteps, Longest, Accepts, UpdateOne;
    match c
    case UpdateSteps(rs) => UpdateKeepsFlags(st, i, s[i], rs[i]);
    case _ =>
  }

  /** While waiting, the sample counter is the streak, counted from zero, and still below the threshold. */
  lemma {:induction false} SamplesAreStreak(st: Settings, s: Hexapod, cs: seq<Call>, i: nat)
    requires SettingsOk(st) && CallsOk(cs) && AllFlagsOk(s) && i < HpCount && !IsWaiting(s[i].motion)
    requires st.readoutsToChase <= 0xFFFF && IsWaiting(Run(st, s, cs)[i].motion)
    ensures Run(st, s, cs)[i].samples == Streak(st, s, cs, i)
    ensures Streak(st, s, cs, i) == 0 || Streak(st, s, cs, i) < st.readoutsToChase
    decreases |cs|
  {
    hide Apply, EvaluateOne, InLimits, Watched, FlagsOk;
    if cs != [] {
      var front, c := cs[..|cs| - 1], cs[|cs| - 1];
      var before := Run(st, s, front);
      FlagsAlways(st, s, front);
      if IsWaiting(before[i].motion) { SamplesAreStreak(st, s, front, i); }
      if c.Evaluate? {
        EvaluatedAt(st, before, c, i);
        if IsWaiting(before[i].motion) {
          EvaluateWaiting(st, c.raise, c.elevation, i, before[i], c.readings[i]);
        } else {
          EvaluateEnters(st, c.raise, c.elevation, i, before[i], c.readings[i]);
        }
      } else {
        OtherCallsKeepSamples(st, before, c, i);
      }
    }
  }

  lemma EvaluatedAt(st: Settings, s: Hexapod, c: Call, i: nat)
    requires SettingsOk(st) && c.Evaluate? && i < HpCount
    ensures Apply(st, s, c)[i] == EvaluateOne(st, c.raise, c.elevation, i, s[i], c.readings[i]).0
  {
  }

  /** A waiting hardpoint resumes chasing at an evaluation exactly when that evaluation looks at it, finds
      it in range, and completes the configured number of in-range evaluations in a row. */
  lemma ResumesExactly(st: Settings, s: Hexapod, cs: seq<Call>, raise: bool, elevation: real, rs: Readings, i: nat)
    requires SettingsOk(st) && CallsOk(cs) && AllFlagsOk(s) && i < HpCount && !IsWaiting(s[i].motion)
    requires st.readoutsToChase <= 0xFFFF && IsWaiting(Run(st, s, cs)[i].motion)
    ensures EvaluateOne(st, raise, elevation, i, Run(st, s, cs)[i], rs[i]).0.motion == Chasing
       <==> Watched(st, elevation, i) && InLimits(st, raise, Run(st, s, cs)[i].motion, rs[i].force)
            && Streak(st, s, cs, i) + 1 >= st.readoutsToChase
  {
    hide Run, EvaluateOne, InLimits, Watched, FlagsOk;
    SamplesAreStreak(st, s, cs, i);
    FlagsAlways(st, s, cs);
    EvaluateWaiting(st, raise, elevation, i, Run(st, s, cs)[i], rs[i]);
  }

  /** With a threshold the 16-bit counter cannot reach, a watched hardpoint never resumes. */
  lemma NeverResumes(st: Settings, raise: bool, elevation: real, i: int, h: Hardpoint, r: Reading)
    requires SettingsOk(st) && 0 <= i < HpCount && FlagsOk(h, i) && IsWaiting(h.motion) && st.readoutsToChase > 0xFFFF
    ensures EvaluateOne(st, raise, elevation, i, h, r).0.motion == h.motion
  {
    hide EvaluateOne, InLimits, Watched;
    EvaluateWaiting(st, raise, elevation, i, h, r);
  }

  // ----- what a positive evaluation guarantees --------------------------------------------------------------

  /** The hardpoint is in its permitted waiting state, watched at this elevation. */
  ghost predicate PermittedWait(st: Settings, elevation: real, i: int, h: Hardpoint) {
    || (h.motion == WaitingTension && h.waitTension == Waiting && i in {1, 4} && elevation < st.tensionElevation)
    || (h.motion == WaitingCompression && h.waitCompression == Waiting && i in {0, 2, 3}
        && elevation < st.compressionElevation)
  }

  /** A hardpoint in tolerance is within its force limits or in its permitted waiting state. */
  lemma ToleranceMeans(st: Settings, raise: bool, elevation: real, i: int, h: Hardpoint, r: Reading)
    requires SettingsOk(st) && 0 <= i < HpCount && FlagsOk(h, i)
    requires EvaluateOne(st, raise, elevation, i, h, r).1
    ensures InLimits(st, raise, h.motion, r.force)
         || PermittedWait(st, elevation, i, EvaluateOne(st, raise, elevation, i, h, r).0)
    ensures i == 5 ==> InLimits(st, raise, h.motion, r.force)
  {
    hide LowLimit, HighLimit;
  }

  // ----- the end of fine positioning ---------------------------------------------------------------------------

  /** On-target readings of hardpoint `i` since it entered fine positioning or was last near its target (one or two
      counts off) but not on it. */
  function OnTargets(st: Settings, s: Hexapod, cs: seq<Call>, i: nat): nat
    requires SettingsOk(st) && CallsOk(cs) && i < HpCount
    decreases |cs|
  {
    if cs == [] then 0
    else
      var n := |cs| - 1;
      var before, after, count := Run(st, s, cs[..n])[i], Run(st, s, cs)[i], OnTargets(st, s, cs[..n], i);
      if before.motion != FinePositioning || after.motion != FinePositioning then 0
      else if !cs[n].UpdateSteps? then count
      else
        var delta := before.target - cs[n].readings[i].encoder;
        if delta == 0 then count + 1 else if -2 <= delta <= 2 then 0 else count
  }

  predicate Positioning(m: Motion) { m == QuickPositioning || m == FinePositioning }

  /** How a call changes the stable count of a hardpoint on its way to an encoder value. */
  lemma CallStable(st: Settings, s: Hexapod, c: Call, i: nat)
    requires SettingsOk(st) && CallOk(c) && i < HpCount
    ensures var h, h' := s[i], Apply(st, s, c)[i];
            && (h'.motion == QuickPositioning ==>
                  h'.stable == 0 || (h.motion == QuickPositioning && h'.stable == h.stable))
            && (h'.motion == FinePositioning ==>
                  if h.motion != FinePositioning then h.motion == QuickPositioning && h'.stable == h.stable
                  else if c.UpdateSteps? then h'.stable == FineStep(st, h, c.readings[i].encoder).stable
                  else h'.stable == h.stable)
  {
    hide Scaled, EncoderSteps, Longest, ChaseSteps, CheckLimits, EvaluateOne, QuickDelta;
    match c
    case UpdateSteps(rs) => UpdateStable(st, s[i], rs[i]);
    case Evaluate(raise, elevation, rs) => EvaluateStable(st, raise, elevation, i, s[i], rs[i]);
    case _ =>
  }

  lemma UpdateStable(st: Settings, h: Hardpoint, r: Reading)
    requires SettingsOk(st)
    ensures var h' := UpdateOne(st, h, r);
            && h'.stable == (if h.motion == FinePositioning then FineStep(st, h, r.encoder).stable else h.stable)
            && (h.motion == FinePositioning ==> h'.motion == FineStep(st, h, r.encoder).motion)
            && (Positioning(h'.motion) ==> Positioning(h.motion))
            && (h'.motion == QuickPositioning ==> h.motion == QuickPositioning)
  {
    hide EncoderSteps, ChaseSteps, Offered;
  }

  lemma EvaluateStable(st: Settings, raise: bool, elevation: real, i: int, h: Hardpoint, r: Reading)
    requires SettingsOk(st) && 0 <= i < HpCount
    ensures var h' := EvaluateOne(st, raise, elevation, i, h, r).0;
            h'.stable == h.stable && (Positioning(h'.motion) || Positioning(h.motion) ==> h'.motion == h.motion)
  {
    hide LowLimit, HighLimit;
  }

  /** In every run the stable count of fine positioning is the number of such readings. */
  lemma {:induction false} StableIsOnTargets(st: Settings, s: Hexapod, cs: seq<Call>, i: nat)
    requires SettingsOk(st) && CallsOk(cs) && i < HpCount && !Positioning(s[i].motion)
    ensures var h := Run(st, s, cs)[i];
            && (h.motion == QuickPositioning ==> h.stable == 0)
            && (h.motion == FinePositioning ==> h.stable == OnTargets(st, s, cs, i))
    decreases |cs|
  {
    hide Apply, EncoderSteps;
    if cs != [] {
      var n := |cs| - 1;
      StableIsOnTargets(st, s, cs[..n], i);
      CallStable(st, Run(st, s, cs[..n]), cs[n], i);
    }
  }

  /** In every run, whatever calls are interleaved and switches operated, fine positioning ends at an update exactly
      if that finds the hardpoint on target for at least the second time since the last near miss; readings farther
      off in between do not matter. Until then it goes on. */
  lemma FineEndsExactly(st: Settings, s: Hexapod, cs: seq<Call>, rs: Readings, i: nat)
    requires SettingsOk(st) && CallsOk(cs) && i < HpCount && !Positioning(s[i].motion)
    requires Run(st, s, cs)[i].motion == FinePositioning
    ensures var h, h' := Run(st, s, cs)[i], Apply(st, Run(st, s, cs), UpdateSteps(rs))[i];
            && (h'.motion == Standby <==> rs[i].encoder == h.target && OnTargets(st, s, cs, i) >= 1)
            && (h'.motion != Standby ==> h'.motion == FinePositioning)
  {
    hide Run, OnTargets, EncoderSteps;
    StableIsOnTargets(st, s, cs, i);
    UpdateStable(st, Run(st, s, cs)[i], rs[i]);
  }

  /** So two consecutive on-target readings are not needed: on target, far off, on target ends it. */
  lemma FineEndsWithoutConsecutive(st: Settings, h: Hardpoint, on: Reading, off: Reading)
    requires SettingsOk(st) && h.motion == FinePositioning && h.stable == 0
    requires on.encoder == h.target && !(-2 <= off.encoder - h.target <= 2)
    ensures var h1 := UpdateOne(st, h, on);
            var h2 := UpdateOne(st, h1, off);
            h1.motion == h2.motion == FinePositioning && UpdateOne(st, h2, on).motion == Standby
  {
    hide EncoderSteps;
  }
}
