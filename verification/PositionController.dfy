/** PositionController: the hardpoint states updated in place. The per-hardpoint arrays of the source
    are one array of records here; sensor readings are parameters. */
module PositionControl {
  import opened Arithmetic
  import opened Hardpoints
  import opened RaisingInfo
  import opened HardpointMeaning

  class PositionController {
    const st: Settings
    const hps: array<Hardpoint>

    ghost predicate Valid() {
      SettingsOk(st) && hps.Length == HpCount
    }

    ghost function State(): Hexapod
      requires Valid()
      reads hps
    {
      hps[..]
    }

    constructor (st: Settings)
      requires SettingsOk(st)
      ensures Valid() && this.st == st && fresh(hps)
      ensures forall i :: 0 <= i < HpCount ==> State()[i] == Initial(st, i)
    {
      this.st := st;
      hps := new Hardpoint[HpCount](i => Initial(st, i));
    }

    /** Updates the hardpoints one by one. */
    method UpdateSteps(rs: Readings)
      requires Valid()
      modifies hps
      ensures State() == Updated(st, old(State()), rs)
      ensures forall i :: 0 <= i < HpCount ==>
                var h := old(State())[i];
                (h.motion.Stepping? || h.motion.QuickPositioning? ==> h.scaled >= 1) ==>
                  Driven(st, h, rs[i], State()[i])
    {
      hide UpdateOne;
      forall i | 0 <= i < HpCount && (hps[i].motion.Stepping? || hps[i].motion.QuickPositioning? ==> hps[i].scaled >= 1)
        ensures Driven(st, hps[i], rs[i], UpdateOne(st, hps[i], rs[i]))
      {
        UpdateDrives(st, hps[i], rs[i]);
      }
      for i := 0 to HpCount
        invariant forall k :: 0 <= k < i ==> hps[k] == UpdateOne(st, old(hps[k]), rs[k])
        invariant forall k :: i <= k < HpCount ==> hps[k] == old(hps[k])
      {
        UpdateMotor(i, rs[i]);
      }
    }

    method UpdateMotor(i: nat, r: Reading)
      requires Valid() && i < HpCount
      modifies hps
      ensures hps[i] == UpdateOne(st, old(hps[i]), r)
      ensures forall k :: 0 <= k < HpCount && k != i ==> hps[k] == old(hps[k])
    {
      var h := hps[i];
      if h.motion != Standby {
        h := h.(lastEncoder := r.encoder);
      }
      match h.motion {
        case Standby =>
          h := h.(commanded := 0, queued := 0);
        case Chasing =>
          h := h.(commanded := ChaseSteps(st, r.force));
        case Stepping =>
          var moveSteps := Coerce(-h.scaled, h.scaled, h.queued);
          h := h.(queued := h.queued - moveSteps, commanded := moveSteps);
          if h.queued == 0 && h.commanded == 0 {
            h := h.(motion := Standby);
          }
        case QuickPositioning =>
          var moveSteps := Coerce(-h.scaled, h.scaled, h.queued);
          h := h.(queued := h.queued - moveSteps, commanded := moveSteps);
          if h.queued == 0 && h.commanded == 0 {
            h := h.(motion := FinePositioning);
          }
        case FinePositioning =>
          h := FinePosition(h, r.encoder);
        case WaitingTension =>
          h := h.(commanded := Min(0, ChaseSteps(st, r.force)));
        case WaitingCompression =>
          h := h.(commanded := Max(0, ChaseSteps(st, r.force)));
      }
      hps[i] := h;
      CheckLimitSwitches(i, r);
    }

    method FinePosition(before: Hardpoint, encoder: int) returns (h: Hardpoint)
      ensures h == FineStep(st, before, encoder)
    {
      hide EncoderSteps;
      h := before;
      var delta := h.target - encoder;
      var steps := EncoderSteps(st, delta);
      if -2 <= delta <= 2 {
        if delta < 0 {
          steps := -1;
          h := h.(stable := 0);
        } else if delta > 0 {
          steps := 1;
          h := h.(stable := 0);
        } else {
          steps := 0;
          h := h.(stable := h.stable + 1);
        }
        h := h.(unstable := 0);
      } else {
        h := h.(unstable := h.unstable + 1);
      }
      h := h.(commanded := Coerce(-st.maxSteps, st.maxSteps, steps));
      if delta == 0 && h.stable >= 2 {
        h := h.(commanded := 0, motion := Standby);
      }
    }

    method CheckLimitSwitches(i: nat, r: Reading)
      requires Valid() && i < HpCount
      modifies hps
      ensures hps[i] == CheckLimits(old(hps[i]), r)
      ensures forall k :: 0 <= k < HpCount && k != i ==> hps[k] == old(hps[k])
    {
      var lowLimit := hps[i].commanded < 0 && r.lowSwitch;
      var highLimit := hps[i].commanded > 0 && r.highSwitch;
      if lowLimit || highLimit {
        hps[i] := hps[i].(commanded := 0);
      }
    }

    method MotionComplete() returns (complete: bool)
      requires Valid()
      ensures complete == AllStandby(State())
    {
      complete := true;
      for i := 0 to HpCount
        invariant complete == forall k :: 0 <= k < i ==> hps[k].motion == Standby
      {
        complete := complete && hps[i].motion == Standby;
      }
    }

    method EnableChaseAll(rs: Readings) returns (ok: bool)
      requires Valid()
      modifies hps
      ensures ok == AllStandby(old(State())) && State() == Chase(old(State()), rs)
      ensures ok <==> forall i :: 0 <= i < HpCount ==> old(State())[i].motion.Standby?
      ensures if ok then forall i :: 0 <= i < HpCount ==> State()[i].motion.Chasing? else State() == old(State())
    {
      ok := MotionComplete();
      if ok {
        for i := 0 to HpCount
          invariant forall k :: 0 <= k < i ==> hps[k] == old(hps[k]).(motion := Chasing, lastEncoder := rs[k].encoder)
          invariant forall k :: i <= k < HpCount ==> hps[k] == old(hps[k])
        {
          hps[i] := hps[i].(motion := Chasing, lastEncoder := rs[i].encoder);
        }
      }
    }

    method DisableChaseAll()
      requires Valid()
      modifies hps
      ensures State() == Apply(st, old(State()), Call.DisableChaseAll)
      ensures forall i :: 0 <= i < HpCount ==> State()[i] == old(State())[i].(motion := Standby)
    {
      for i := 0 to HpCount
        invariant forall k :: 0 <= k < i ==> hps[k] == old(hps[k]).(motion := Standby)
        invariant forall k :: i <= k < HpCount ==> hps[k] == old(hps[k])
      {
        hps[i] := hps[i].(motion := Standby);
      }
    }

    method StopMotion(hp: int)
      requires Valid() && hp < HpCount
      modifies hps
      ensures State() == Apply(st, old(State()), if hp < 0 then StopAll else Stop(hp))
      ensures forall i :: 0 <= i < HpCount ==>
                State()[i]
                == if hp < 0 || hp == i then old(State())[i].(motion := Standby, queued := 0) else old(State())[i]
    {
      if hp < 0 {
        for i := 0 to HpCount
          invariant forall k :: 0 <= k < i ==> hps[k] == StoppedOne(old(hps[k]))
          invariant forall k :: i <= k < HpCount ==> hps[k] == old(hps[k])
        {
          hps[i] := hps[i].(queued := 0, motion := Standby);
        }
      } else {
        hps[hp] := hps[hp].(queued := 0, motion := Standby);
      }
    }

    method ResetWait()
      requires Valid()
      modifies hps
      ensures State() == Rearmed(old(State()))
    {
      for i := 0 to HpCount
        invariant forall k :: 0 <= k < i ==> hps[k] == Armed(old(hps[k]), k)
        invariant forall k :: i <= k < HpCount ==> hps[k] == old(hps[k])
      {
        hps[i] := hps[i].(waitTension := if CanSeeTension(i) then CanWait else NoWait,
                          waitCompression := if CanSeeCompression(i) then CanWait else NoWait,
                          samples := 0);
      }
    }

    method StartRaise(rs: Readings)
      requires Valid()
      modifies hps
      ensures State() == Apply(st, old(State()), Call.StartRaise(rs))
      ensures forall i :: 0 <= i < HpCount ==> Rests(State()[i], i) && State()[i].motion.Chasing?
    {
      StopMotion(-1);
      var ok := EnableChaseAll(rs);
      ResetWait();
    }

    method StartLower()
      requires Valid()
      modifies hps
      ensures State() == Apply(st, old(State()), Call.StartLower)
      ensures forall i :: 0 <= i < HpCount ==> Rests(State()[i], i) && State()[i].motion.Standby?
    {
      StopMotion(-1);
      ResetWait();
    }

    // ----- moves -----------------------------------------------------------------------------------------

    /** Sets the proportional step limits from the queues. */
    method ScaleSteps()
      requires Valid()
      modifies hps
      ensures State() == Rescale(st, old(State()))
    {
      var longest := 0;
      hide Scaled;
      ghost var qs := Queues(State());
      assert qs[..0] == [];
      for i := 0 to HpCount
        invariant longest == Longest(qs[..i])
      {
        assert qs[..i + 1][..i] == qs[..i];
        if Abs(hps[i].queued) > longest {
          longest := Abs(hps[i].queued);
        }
      }
      assert qs[..HpCount] == qs;
      for i := 0 to HpCount
        invariant forall k :: 0 <= k < i ==> hps[k] == old(hps[k]).(scaled := Scaled(st, old(hps[k]).queued, longest))
        invariant forall k :: i <= k < HpCount ==> hps[k] == old(hps[k])
      {
        hps[i] := hps[i].(scaled := Scaled(st, hps[i].queued, longest));
      }
    }

    method MoveHardpoint(steps: int, hp: nat) returns (ok: bool)
      requires Valid() && hp < HpCount
      modifies hps
      ensures ok == (steps != 0) && State() == MovedOne(st, old(State()), steps, hp)
    {
      if steps == 0 {
        return false;
      }
      hps[hp] := hps[hp].(queued := steps, motion := Stepping);
      ScaleSteps();
      return true;
    }

    method Move(wanted: seq<int>) returns (ok: bool)
      requires Valid() && |wanted| == HpCount
      modifies hps
      ensures ok == Accepts(old(State()), seq(HpCount, i requires 0 <= i < HpCount => wanted[i] != 0))
      ensures State() == Moved(st, old(State()), wanted)
      ensures ok <==> forall i :: 0 <= i < HpCount && wanted[i] != 0 ==> old(State())[i].motion.Standby?
      ensures if ok then forall i :: 0 <= i < HpCount ==> OnItsWay(wanted[i], State()[i]) else State() == old(State())
    {
      ghost var was := State();
      ok := true;
      for i := 0 to HpCount
        invariant ok == forall k :: 0 <= k < i ==> wanted[k] != 0 ==> hps[k].motion == Standby
      {
        ok := ok && (hps[i].motion == Standby || wanted[i] == 0);
      }
      if !ok {
        return;
      }
      for i := 0 to HpCount
        invariant forall k :: 0 <= k < i ==> hps[k] == Queue(old(hps[k]), wanted[k], Stepping)
        invariant forall k :: i <= k < HpCount ==> hps[k] == old(hps[k])
      {
        hps[i] := hps[i].(queued := wanted[i], motion := if wanted[i] != 0 then Stepping else Standby);
      }
      assert hps[..] == seq(HpCount, i requires 0 <= i < HpCount => Queue(old(State())[i], wanted[i], Stepping));
      ScaleSteps();
      MovesSteps(st, was, wanted);
    }

    method MoveToEncoder(values: seq<int>, rs: Readings) returns (ok: bool)
      requires Valid() && |values| == HpCount
      modifies hps
      ensures ok == Accepts(old(State()), seq(HpCount, i requires 0 <= i < HpCount => values[i] != rs[i].encoder))
      ensures State() == MovedToEncoder(st, old(State()), values, rs)
      ensures ok <==> forall i :: 0 <= i < HpCount && values[i] != rs[i].encoder ==> old(State())[i].motion.Standby?
      ensures if ok then forall i :: 0 <= i < HpCount ==> Aimed(st, values[i], rs[i].encoder, State()[i])
              else State() == old(State())
    {
      hide Aimed;
      ghost var was := State();
      ok := true;
      for i := 0 to HpCount
        invariant ok == forall k :: 0 <= k < i ==> values[k] != rs[k].encoder ==> hps[k].motion == Standby
      {
        ok := ok && (hps[i].motion == Standby || values[i] == rs[i].encoder);
      }
      if !ok {
        return;
      }
      for i := 0 to HpCount
        invariant forall k :: 0 <= k < i ==> hps[k] == Aim(st, old(hps[k]), values[k], rs[k].encoder)
        invariant forall k :: i <= k < HpCount ==> hps[k] == old(hps[k])
      {
        AimMotor(i, values[i], rs[i].encoder);
      }
      assert hps[..] == seq(HpCount, i requires 0 <= i < HpCount => Aim(st, old(State())[i], values[i], rs[i].encoder));
      ScaleSteps();
      MovesToEncoder(st, was, values, rs);
    }

    method AimMotor(i: nat, target: int, encoder: int)
      requires Valid() && i < HpCount
      modifies hps
      ensures hps[i] == Aim(st, old(hps[i]), target, encoder)
      ensures forall k :: 0 <= k < HpCount && k != i ==> hps[k] == old(hps[k])
    {
      hide EncoderSteps;
      var delta := target - encoder;
      if delta > 0 {
        delta := delta - 4;
        if delta < 0 { delta := 0; }
      } else if delta < 0 {
        delta := delta + 4;
        if delta > 0 { delta := 0; }
      }
      var steps := EncoderSteps(st, delta);
      hps[i] := hps[i].(target := target, lastEncoder := encoder, stable := 0, unstable := 0,
                        queued := steps, motion := if steps != 0 then QuickPositioning else Standby);
    }

    // ----- raise and lower force checks --------------------------------------------------------------------

    /** hpRaiseLowerForcesInTolerance: evaluates and, where needed, changes every hardpoint, and records
        which ones are outside their limits. */
    method HpForcesInTolerance(raise: bool, elevation: real, rs: Readings, info: RaisingLoweringInfo) returns (ok: bool)
      requires Valid() && info.waitHardpoint.Length == HpCount && info.waitHardpoint as object != hps
      modifies hps, info.waitHardpoint
      ensures ok == AllInTolerance(st, old(State()), raise, elevation, rs)
      ensures State() == Evaluated(st, old(State()), raise, elevation, rs)
      ensures forall i :: 0 <= i < HpCount ==>
                info.waitHardpoint[i] == !ForceFits(st, raise, old(State())[i].motion, rs[i].force)
      ensures ok <==> forall i :: 0 <= i < HpCount ==> Tolerated(st, raise, elevation, i, old(State())[i], rs[i])
      ensures forall i :: 0 <= i < HpCount ==> Evaluates(st, raise, elevation, i, old(State())[i], rs[i], State()[i])
    {
      hide EvaluateOne, InLimits, ForceFits, Tolerated, Evaluates;
      ok := true;
      ghost var was := State();
      forall i | 0 <= i < HpCount
        ensures EvaluateOne(st, raise, elevation, i, was[i], rs[i]).1
             == Tolerated(st, raise, elevation, i, was[i], rs[i])
        ensures Evaluates(st, raise, elevation, i, was[i], rs[i], EvaluateOne(st, raise, elevation, i, was[i], rs[i]).0)
        ensures InLimits(st, raise, was[i].motion, rs[i].force) == ForceFits(st, raise, was[i].motion, rs[i].force)
      {
        ToleranceExactly(st, raise, elevation, i, was[i], rs[i]);
        InLimitsIs(st, raise, was[i].motion, rs[i].force);
      }
      for i := 0 to HpCount
        invariant forall k :: 0 <= k < i ==> hps[k] == EvaluateOne(st, raise, elevation, k, old(hps[k]), rs[k]).0
        invariant forall k :: i <= k < HpCount ==> hps[k] == old(hps[k])
        invariant ok == forall k :: 0 <= k < i ==> EvaluateOne(st, raise, elevation, k, old(hps[k]), rs[k]).1
        invariant forall k :: 0 <= k < i ==>
                    info.waitHardpoint[k] == !InLimits(st, raise, old(hps[k]).motion, rs[k].force)
      {
        var inRange := EvaluateHardpoint(i, raise, elevation, rs[i], info);
        ok := ok && inRange;
      }
    }

    method EvaluateHardpoint(i: nat, raise: bool, elevation: real, r: Reading, info: RaisingLoweringInfo)
      returns (inRange: bool)
      requires Valid() && i < HpCount && info.waitHardpoint.Length == HpCount && info.waitHardpoint as object != hps
      modifies hps, info.waitHardpoint
      ensures (hps[i], inRange) == EvaluateOne(st, raise, elevation, i, old(hps[i]), r)
      ensures forall k :: 0 <= k < HpCount && k != i ==>
                hps[k] == old(hps[k]) && info.waitHardpoint[k] == old(info.waitHardpoint[k])
      ensures info.waitHardpoint[i] == !InLimits(st, raise, old(hps[i]).motion, r.force)
    {
      hide CheckTension, CheckCompression, CanSeeTension, CanSeeCompression, CheckLimits;
      var low, high := BaseLow(st, raise), BaseHigh(st, raise);
      if hps[i].motion == WaitingTension {
        low := BaseLow(st, raise) / 2.0;
      } else if hps[i].motion == WaitingCompression {
        high := (BaseLow(st, raise) + BaseHigh(st, raise)) / 2.0;
      }
      inRange := low <= r.force <= high;
      info.waitHardpoint[i] := !inRange;
      if elevation < st.tensionElevation && CanSeeTension(i) {
        inRange := TensionInTolerance(i, raise, inRange, low, r);
      } else if elevation < st.compressionElevation && CanSeeCompression(i) {
        inRange := CompressionInTolerance(i, raise, inRange, high, r);
      }
      CheckLimitSwitches(i, r);
    }

    method TensionInTolerance(i: nat, raise: bool, inRange: bool, low: real, r: Reading) returns (ok: bool)
      requires Valid() && i < HpCount && inRange == InLimits(st, raise, hps[i].motion, r.force)
      requires low == LowLimit(st, raise, hps[i].motion)
      modifies hps
      ensures (hps[i], ok) == CheckTension(st, raise, i, old(hps[i]), r)
      ensures forall k :: 0 <= k < HpCount && k != i ==> hps[k] == old(hps[k])
    {
      ok := inRange;
      if hps[i].motion == Chasing {
        if r.encoder > st.highProximity[i] {
          if hps[i].waitTension != CanWait {
            hps[i] := hps[i].(waitTension := AlreadyWaited);
          } else if r.force <= low {
            hps[i] := hps[i].(motion := WaitingTension, commanded := 0, waitTension := Waiting);
            ok := true;
          }
        }
      } else if hps[i].motion == WaitingTension {
        ok := WaitingInTolerance(i, inRange);
      }
    }

    method CompressionInTolerance(i: nat, raise: bool, inRange: bool, high: real, r: Reading) returns (ok: bool)
      requires Valid() && i < HpCount && inRange == InLimits(st, raise, hps[i].motion, r.force)
      requires high == HighLimit(st, raise, hps[i].motion)
      modifies hps
      ensures (hps[i], ok) == CheckCompression(st, raise, i, old(hps[i]), r)
      ensures forall k :: 0 <= k < HpCount && k != i ==> hps[k] == old(hps[k])
    {
      ok := inRange;
      if hps[i].motion == Chasing {
        if r.encoder < st.lowProximity[i] {
          if hps[i].waitCompression != CanWait {
            hps[i] := hps[i].(waitCompression := AlreadyWaited);
          } else if r.force >= high {
            hps[i] := hps[i].(motion := WaitingCompression, commanded := 0, waitCompression := Waiting);
            ok := true;
          }
        }
      } else if hps[i].motion == WaitingCompression {
        ok := WaitingInTolerance(i, inRange);
      }
    }

    method WaitingInTolerance(i: nat, inRange: bool) returns (ok: bool)
      requires Valid() && i < HpCount
      modifies hps
      ensures (hps[i], ok) == KeepWaiting(st, old(hps[i]), inRange)
      ensures forall k :: 0 <= k < HpCount && k != i ==> hps[k] == old(hps[k])
    {
      if inRange {
        hps[i] := hps[i].(samples := (hps[i].samples + 1) % 0x1_0000);
        if hps[i].samples < st.readoutsToChase {
          return false;
        }
        hps[i] := hps[i].(motion := Chasing, samples := 0);
      } else {
        hps[i] := hps[i].(samples := 0);
      }
      return true;
    }
  }
}
