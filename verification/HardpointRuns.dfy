/** What holds of the hardpoints over any sequence of calls. */
module HardpointRuns {
  import opened Arithmetic
  import opened Hardpoints

  ghost predicate CallsOk(cs: seq<Call>) { forall k :: 0 <= k < |cs| ==> CallOk(cs[k]) }

  predicate Working(m: Motion) { m == Stepping || m == QuickPositioning }

  predicate IsWaiting(m: Motion) { m == WaitingTension || m == WaitingCompression }

  // ----- step limits ---------------------------------------------------------------------------------------

  /** A motor working off its queue has a step limit between one and the configured maximum. */
  ghost predicate LimitOk(st: Settings, h: Hardpoint) {
    Working(h.motion) ==> 1 <= h.scaled <= st.maxSteps
  }

  ghost predicate LimitsOk(st: Settings, s: Hexapod) { forall i :: 0 <= i < HpCount ==> LimitOk(st, s[i]) }

  lemma ScaledBound(st: Settings, q: int, longest: nat)
    requires SettingsOk(st) && Abs(q) <= longest && longest > 0
    ensures 1 <= Scaled(st, q, longest) <= st.maxSteps
    ensures Abs(q) == longest ==> Scaled(st, q, longest) == st.maxSteps
  {
    hide FloorDiv;
    MulMonotone(Abs(q), longest, st.maxSteps);
    QuotientAtMost(st.maxSteps * Abs(q), longest, st.maxSteps);
  }

  /** Rescaling gives every motor a sound limit as soon as something is queued. */
  lemma RescaleLimits(st: Settings, s: Hexapod)
    requires SettingsOk(st)
    requires forall i :: 0 <= i < HpCount && Working(s[i].motion) ==> exists j :: 0 <= j < HpCount && s[j].queued != 0
    ensures LimitsOk(st, Rescale(st, s))
  {
    hide Scaled;
    var qs := Queues(s);
    forall i | 0 <= i < HpCount && Working(s[i].motion)
      ensures 1 <= Scaled(st, s[i].queued, Longest(qs)) <= st.maxSteps
    {
      var j :| 0 <= j < HpCount && s[j].queued != 0;
      assert Abs(qs[j]) > 0 && Abs(qs[i]) <= Longest(qs);
      ScaledBound(st, s[i].queued, Longest(qs));
    }
  }

  /** Every call keeps the step limits sound. */
  lemma LimitsKept(st: Settings, s: Hexapod, c: Call)
    requires SettingsOk(st) && CallOk(c) && LimitsOk(st, s)
    ensures LimitsOk(st, Apply(st, s, c))
  {
    hide Scaled, EncoderSteps, ChaseSteps, Longest, Accepts;
    match c
    case MoveHardpoint(steps, hp) =>
      if steps != 0 {
        var s' := s[hp := s[hp].(queued := steps, motion := Stepping)];
        assert s'[hp].queued != 0;
        RescaleLimits(st, s');
      }
    case Move(wanted) =>
      RescaleLimits(st, seq(HpCount, i requires 0 <= i < HpCount => Queue(s[i], wanted[i], Stepping)));
    case MoveToEncoder(values, rs) =>
      RescaleLimits(st, seq(HpCount, i requires 0 <= i < HpCount => Aim(st, s[i], values[i], rs[i].encoder)));
    case Evaluate(raise, elevation, rs) =>
      forall i | 0 <= i < HpCount
        ensures LimitOk(st, EvaluateOne(st, raise, elevation, i, s[i], rs[i]).0)
      {
        EvaluateKeepsQueue(st, raise, elevation, i, s[i], rs[i]);
      }
    case _ =>
  }

  lemma EvaluateKeepsQueue(st: Settings, raise: bool, elevation: real, i: int, h: Hardpoint, r: Reading)
    requires SettingsOk(st) && 0 <= i < HpCount
    ensures var h' := EvaluateOne(st, raise, elevation, i, h, r).0;
            && h'.queued == h.queued && h'.scaled == h.scaled
            && (Working(h'.motion) || Working(h.motion) ==> h'.motion == h.motion)
  {
    hide LowLimit, HighLimit;
  }

  lemma {:induction false} LimitsAlways(st: Settings, s: Hexapod, cs: seq<Call>)
    requires SettingsOk(st) && CallsOk(cs) && LimitsOk(st, s)
    ensures LimitsOk(st, Run(st, s, cs))
    decreases |cs|
  {
    hide Apply;
    if cs != [] {
      LimitsAlways(st, s, cs[..|cs| - 1]);
      LimitsKept(st, Run(st, s, cs[..|cs| - 1]), cs[|cs| - 1]);
    }
  }

  /** After updateSteps no motor is commanded more than the maximum, into an operated switch, or, while
      waiting, in the direction that would make the tension or compression worse. */
  lemma CommandsSafe(st: Settings, h: Hardpoint, r: Reading)
    requires SettingsOk(st) && LimitOk(st, h)
    ensures var c := UpdateOne(st, h, r).commanded;
            && -st.maxSteps <= c <= st.maxSteps
            && (r.lowSwitch ==> c >= 0) && (r.highSwitch ==> c <= 0)
            && (h.motion == WaitingTension ==> c <= 0)
            && (h.motion == WaitingCompression ==> c >= 0)
            && (h.motion == Standby ==> c == 0)
  {
    hide Trunc, EncoderSteps;
  }

  /** Command safety in every reachable state. */
  lemma CommandsAlwaysSafe(st: Settings, s: Hexapod, cs: seq<Call>, rs: Readings, i: nat)
    requires SettingsOk(st) && CallsOk(cs) && LimitsOk(st, s) && i < HpCount
    ensures var before := Run(st, s, cs)[i];
            var c := Run(st, s, cs + [UpdateSteps(rs)])[i].commanded;
            && -st.maxSteps <= c <= st.maxSteps
            && (rs[i].lowSwitch ==> c >= 0) && (rs[i].highSwitch ==> c <= 0)
            && (before.motion == WaitingTension ==> c <= 0)
            && (before.motion == WaitingCompression ==> c >= 0)
  {
    hide UpdateOne;
    LimitsAlways(st, s, cs);
    RunStep(st, s, cs, UpdateSteps(rs));
    CommandsSafe(st, Run(st, s, cs)[i], rs[i]);
  }

  lemma RunStep(st: Settings, s: Hexapod, cs: seq<Call>, c: Call)
    requires SettingsOk(st) && CallsOk(cs) && CallOk(c)
    ensures CallsOk(cs + [c]) && Run(st, s, cs + [c]) == Apply(st, Run(st, s, cs), c)
  {
    assert (cs + [c])[..|cs + [c]| - 1] == cs;
  }

  // ----- conservation of steps -----------------------------------------------------------------------------

  datatype Option<T> = None | Some(value: T)

  /** Steps a call asks hardpoint `i` to make from now on, if it asks at all. A stop asks for none. */
  function Requested(st: Settings, s: Hexapod, c: Call, i: nat): Option<int>
    requires CallOk(c) && i < HpCount
  {
    match c
    case Move(wanted) =>
      if Accepts(s, seq(HpCount, k requires 0 <= k < HpCount => wanted[k] != 0)) then Some(wanted[i]) else None
    case MoveHardpoint(steps, hp) => if steps != 0 && hp == i then Some(steps) else None
    case MoveToEncoder(values, rs) =>
      if Accepts(s, seq(HpCount, k requires 0 <= k < HpCount => values[k] != rs[k].encoder))
      then Some(EncoderSteps(st, QuickDelta(values[i] - rs[i].encoder))) else None
    case Stop(hp) => if hp == i then Some(0) else None
    case StopAll => Some(0)
    case StartRaise(_) => Some(0)
    case StartLower => Some(0)
    case _ => None
  }

  /** Where the requested steps of a hardpoint have gone. */
  datatype Ledger = Ledger(requested: int, commanded: int, suppressed: int)

  /** An update enters what it really commands, and what it offered but an operated switch suppressed. */
  function Entered(st: Settings, l: Ledger, h: Hardpoint, r: Reading): Ledger {
    if !Working(h.motion) then l
    else Ledger(l.requested, l.commanded + UpdateOne(st, h, r).commanded,
                l.suppressed + if Blocked(Offered(h), r) then Offered(h) else 0)
  }

  function Booked(st: Settings, l: Ledger, s: Hexapod, c: Call, i: nat): Ledger
    requires CallOk(c) && i < HpCount
  {
    match Requested(st, s, c, i)
    case Some(steps) => Ledger(steps, 0, 0)
    case None => if c.UpdateSteps? then Entered(st, l, s[i], c.readings[i]) else l
  }

  function Book(st: Settings, s: Hexapod, cs: seq<Call>, i: nat): Ledger
    requires SettingsOk(st) && CallsOk(cs) && i < HpCount
    decreases |cs|
  {
    if cs == [] then Ledger(0, 0, 0)
    else
      var n := |cs| - 1;
      Booked(st, Book(st, s, cs[..n], i), Run(st, s, cs[..n]), cs[n], i)
  }

  ghost predicate SameSide(total: int, part: int) {
    if total >= 0 then part >= 0 else part <= 0
  }

  /** The books of a working motor balance, and nothing was ever commanded backwards. */
  ghost predicate Balanced(h: Hardpoint, l: Ledger) {
    Working(h.motion) ==>
      && l.requested == l.commanded + l.suppressed + h.queued
      && SameSide(l.requested, l.commanded) && SameSide(l.requested, l.suppressed) && SameSide(l.requested, h.queued)
  }

  lemma UpdateBalances(st: Settings, h: Hardpoint, l: Ledger, r: Reading)
    requires SettingsOk(st) && LimitOk(st, h) && Balanced(h, l)
    ensures Balanced(UpdateOne(st, h, r), Entered(st, l, h, r))
    ensures Working(h.motion) && !Working(UpdateOne(st, h, r).motion) ==>
              var l' := Entered(st, l, h, r);
              UpdateOne(st, h, r).queued == 0 && l'.requested == l'.commanded + l'.suppressed
  {
    hide ChaseSteps, EncoderSteps;
  }

  lemma CallBalances(st: Settings, s: Hexapod, c: Call, l: Ledger, i: nat)
    requires SettingsOk(st) && CallOk(c) && LimitsOk(st, s) && i < HpCount && Balanced(s[i], l)
    ensures Balanced(Apply(st, s, c)[i], Booked(st, l, s, c, i))
  {
    hide Scaled, EncoderSteps, Longest, Accepts, UpdateOne, EvaluateOne;
    match c
    case UpdateSteps(rs) => UpdateBalances(st, s[i], l, rs[i]);
    case Evaluate(raise, elevation, rs) => EvaluateKeepsQueue(st, raise, elevation, i, s[i], rs[i]);
    case _ =>
  }

  /** Step conservation: whatever calls are interleaved, while a hardpoint works off a move the steps
      requested are those commanded, those suppressed at an operated switch and those still queued. */
  lemma {:induction false} StepConservation(st: Settings, s: Hexapod, cs: seq<Call>, i: nat)
    requires SettingsOk(st) && CallsOk(cs) && i < HpCount
    requires forall k :: 0 <= k < HpCount ==> !Working(s[k].motion)
    ensures Balanced(Run(st, s, cs)[i], Book(st, s, cs, i))
    decreases |cs|
  {
    hide Apply, Booked;
    if cs != [] {
      var front := cs[..|cs| - 1];
      StepConservation(st, s, front, i);
      LimitsAlways(st, s, front);
      CallBalances(st, Run(st, s, front), cs[|cs| - 1], Book(st, s, front, i), i);
    }
  }

  /** The update that ends a move has accounted for all of it. */
  lemma MoveFinishes(st: Settings, s: Hexapod, cs: seq<Call>, rs: Readings, i: nat)
    requires SettingsOk(st) && CallsOk(cs) && i < HpCount
    requires forall k :: 0 <= k < HpCount ==> !Working(s[k].motion)
    requires Working(Run(st, s, cs)[i].motion) && !Working(Run(st, s, cs + [UpdateSteps(rs)])[i].motion)
    ensures var l := Book(st, s, cs + [UpdateSteps(rs)], i);
            l.requested == l.commanded + l.suppressed && Run(st, s, cs + [UpdateSteps(rs)])[i].queued == 0
  {
    hide UpdateOne, Entered;
    StepConservation(st, s, cs, i);
    LimitsAlways(st, s, cs);
    RunStep(st, s, cs, UpdateSteps(rs));
    assert (cs + [UpdateSteps(rs)])[..|cs|] == cs;
    UpdateBalances(st, Run(st, s, cs)[i], Book(st, s, cs, i), rs[i]);
  }

  /** No call of `rest`, made after `base`, gives hardpoint `i` new steps or stops it. */
  ghost predicate Undisturbed(st: Settings, s: Hexapod, base: seq<Call>, rest: seq<Call>, i: nat)
    requires SettingsOk(st) && CallsOk(base) && CallsOk(rest) && i < HpCount
  {
    forall k :: 0 <= k < |rest| ==> Requested(st, Run(st, s, base + rest[..k]), rest[k], i) == None
  }

  lemma {:induction false} RequestStays(st: Settings, s: Hexapod, base: seq<Call>, rest: seq<Call>, i: nat)
    requires SettingsOk(st) && CallsOk(base) && CallsOk(rest) && i < HpCount && Undisturbed(st, s, base, rest, i)
    ensures Book(st, s, base + rest, i).requested == Book(st, s, base, i).requested
    decreases |rest|
  {
    hide Run, Requested, UpdateOne;
    if rest == [] {
      assert base + rest == base;
    } else {
      var n := |rest| - 1;
      forall k | 0 <= k < n
        ensures Requested(st, Run(st, s, base + rest[..n][..k]), rest[..n][k], i) == None
      {
        assert rest[..n][..k] == rest[..k];
      }
      RequestStays(st, s, base, rest[..n], i);
      assert (base + rest)[..|base + rest| - 1] == base + rest[..n];
    }
  }

  /** Quick positioning never overshoots: after an accepted moveToEncoder, at every moment of the quick
      phase and whatever else is called, the steps commanded so far point towards the target and stay
      short of it by at least four encoder counts. */
  lemma QuickNeverOvershoots(st: Settings, s: Hexapod, front: seq<Call>, values: seq<int>, rs: Readings,
                             rest: seq<Call>, i: nat)
    requires SettingsOk(st) && CallsOk(front) && CallsOk(rest) && |values| == HpCount && i < HpCount
    requires st.encoderToSteps >= 0.0 && forall k :: 0 <= k < HpCount ==> !Working(s[k].motion)
    requires Requested(st, Run(st, s, front), MoveToEncoder(values, rs), i) != None
    requires CallsOk(front + [MoveToEncoder(values, rs)])
    requires Undisturbed(st, s, front + [MoveToEncoder(values, rs)], rest, i)
    requires Run(st, s, front + [MoveToEncoder(values, rs)] + rest)[i].motion == QuickPositioning
    ensures var c := Book(st, s, front + [MoveToEncoder(values, rs)] + rest, i).commanded;
            var error := values[i] - rs[i].encoder;
            && (error > 0 ==> c >= 0) && (error < 0 ==> c <= 0) && (error == 0 ==> c == 0)
            && (c != 0 ==> Abs(c) as real <= st.encoderToSteps * (Abs(error) - 4) as real)
  {
    hide Run, EncoderSteps, Book, Undisturbed, QuickDelta;
    var base := front + [MoveToEncoder(values, rs)];
    RequestStays(st, s, base, rest, i);
    RequestEntered(st, s, front, MoveToEncoder(values, rs), i);
    StepConservation(st, s, base + rest, i);
    QuickRequest(st, values[i] - rs[i].encoder);
  }

  lemma RequestEntered(st: Settings, s: Hexapod, front: seq<Call>, c: Call, i: nat)
    requires SettingsOk(st) && CallsOk(front) && CallOk(c) && i < HpCount
    requires Requested(st, Run(st, s, front), c, i) != None
    ensures CallsOk(front + [c])
    ensures Book(st, s, front + [c], i).requested == Requested(st, Run(st, s, front), c, i).value
  {
    hide Run, Requested;
    assert (front + [c])[..|front|] == front;
  }

  lemma QuickRequest(st: Settings, delta: int)
    requires st.encoderToSteps >= 0.0
    ensures var n := EncoderSteps(st, QuickDelta(delta));
            && (delta > 0 ==> n >= 0) && (delta < 0 ==> n <= 0) && (delta == 0 ==> n == 0)
            && (n != 0 ==> Abs(n) as real <= st.encoderToSteps * (Abs(delta) - 4) as real)
  {
    var d := QuickDelta(delta);
    if d >= 0 { ScaledSign(d, st.encoderToSteps); } else { ScaledSign(-d, st.encoderToSteps); }
    assert EncoderSteps(st, d) == Trunc(d as real * st.encoderToSteps);
    if d < 0 {
      assert d as real * st.encoderToSteps == -((-d) as real * st.encoderToSteps);
    }
  }

  lemma ScaledSign(d: nat, scale: real)
    requires scale >= 0.0
    ensures d as real * scale >= 0.0 && (d == 0 ==> d as real * scale == 0.0)
    ensures d as real * scale == scale * d as real
  {
  }
}
