/** The six hardpoint step motors as values: what each call of PositionController does to them. */
module Hardpoints {
  import opened Arithmetic

  const HpCount := 6

  datatype Motion =
    | Standby | Chasing | Stepping | QuickPositioning | FinePositioning | WaitingTension | WaitingCompression

  datatype Wait = NoWait | CanWait | Waiting | AlreadyWaited

  datatype Hardpoint = Hardpoint(motion: Motion, queued: int, commanded: int, scaled: int,
                                 target: int, stable: int, unstable: int, lastEncoder: int,
                                 waitTension: Wait, waitCompression: Wait, samples: nat)

  /** What is measured at a hardpoint. The low switch is limit switch 2, the high one switch 1. */
  datatype Reading = Reading(encoder: int, force: real, lowSwitch: bool, highSwitch: bool)

  /** `nanCast` is what the platform makes of casting the 0/0 of an empty move to an integer. */
  datatype Settings = Settings(maxSteps: int, forceToSteps: real, encoderToSteps: real,
                               raiseLow: real, raiseHigh: real, lowerLow: real, lowerHigh: real,
                               tensionElevation: real, compressionElevation: real, readoutsToChase: int,
                               lowProximity: seq<int>, highProximity: seq<int>, nanCast: int)

  predicate SettingsOk(st: Settings) {
    1 <= st.maxSteps <= 32767 && |st.lowProximity| == HpCount && |st.highProximity| == HpCount
  }

  type Readings = r: seq<Reading> | |r| == HpCount witness seq(HpCount, _ => Reading(0, 0.0, false, false))
  type Hexapod = h: seq<Hardpoint> | |h| == HpCount
    witness seq(HpCount, _ => Hardpoint(Standby, 0, 0, 0, 0, 0, 0, 0, NoWait, NoWait, 0))

  predicate CanSeeTension(i: int) { i == 1 || i == 4 }

  predicate CanSeeCompression(i: int) { i == 0 || i == 2 || i == 3 }

  function Armed(h: Hardpoint, i: int): Hardpoint {
    h.(waitTension := if CanSeeTension(i) then CanWait else NoWait,
       waitCompression := if CanSeeCompression(i) then CanWait else NoWait,
       samples := 0)
  }

  function Initial(st: Settings, i: int): Hardpoint {
    Armed(Hardpoint(Standby, 0, 0, st.maxSteps, 0, 0, 0, 0, NoWait, NoWait, 0), i)
  }

  // ----- updateSteps -----------------------------------------------------------------------------------

  predicate Blocked(commanded: int, r: Reading) {
    (commanded < 0 && r.lowSwitch) || (commanded > 0 && r.highSwitch)
  }

  function CheckLimits(h: Hardpoint, r: Reading): Hardpoint {
    if Blocked(h.commanded, r) then h.(commanded := 0) else h
  }

  function ChaseSteps(st: Settings, force: real): int {
    Coerce(-st.maxSteps, st.maxSteps, Trunc(force * st.forceToSteps))
  }

  function Min(a: int, b: int): int { if a < b then a else b }

  function Max(a: int, b: int): int { if a > b then a else b }

  /** The step offered to a motor that works off its queue. */
  function Offered(h: Hardpoint): int { Coerce(-h.scaled, h.scaled, h.queued) }

  /** One queue-driven update; `done` is the state that follows an empty one. */
  function WorkOff(h: Hardpoint, done: Motion): Hardpoint {
    var step := Offered(h);
    var h' := h.(queued := h.queued - step, commanded := step);
    if h'.queued == 0 && h'.commanded == 0 then h'.(motion := done) else h'
  }

  /** Motor steps for an encoder distance. */
  function EncoderSteps(st: Settings, delta: int): int { Trunc(delta as real * st.encoderToSteps) }

  function FineStep(st: Settings, h: Hardpoint, encoder: int): Hardpoint {
    var delta := h.target - encoder;
    var steps := if delta < -2 || delta > 2 then EncoderSteps(st, delta) else Sign(delta);
    var h' := if delta < -2 || delta > 2 then h.(unstable := h.unstable + 1)
              else h.(unstable := 0, stable := if delta == 0 then h.stable + 1 else 0);
    var h'' := h'.(commanded := Coerce(-st.maxSteps, st.maxSteps, steps));
    if delta == 0 && h''.stable >= 2 then h''.(commanded := 0, motion := Standby) else h''
  }

  function Drive(st: Settings, h: Hardpoint, r: Reading): Hardpoint {
    match h.motion
    case Standby => h.(commanded := 0, queued := 0)
    case Chasing => h.(lastEncoder := r.encoder, commanded := ChaseSteps(st, r.force))
    case Stepping => WorkOff(h.(lastEncoder := r.encoder), Standby)
    case QuickPositioning => WorkOff(h.(lastEncoder := r.encoder), FinePositioning)
    case FinePositioning => FineStep(st, h.(lastEncoder := r.encoder), r.encoder)
    case WaitingTension => h.(lastEncoder := r.encoder, commanded := Min(0, ChaseSteps(st, r.force)))
    case WaitingCompression => h.(lastEncoder := r.encoder, commanded := Max(0, ChaseSteps(st, r.force)))
  }

  function UpdateOne(st: Settings, h: Hardpoint, r: Reading): Hardpoint {
    CheckLimits(Drive(st, h, r), r)
  }

  // ----- moves -----------------------------------------------------------------------------------------

  /** The longest queue. */
  function Longest(qs: seq<int>): (q: nat)
    ensures forall i :: 0 <= i < |qs| ==> Abs(qs[i]) <= q
    ensures q > 0 ==> exists i :: 0 <= i < |qs| && Abs(qs[i]) == q
  {
    if qs == [] then 0
    else
      var rest := Longest(qs[..|qs| - 1]);
      var last := Abs(qs[|qs| - 1]);
      assert forall i :: 0 <= i < |qs| - 1 ==> qs[i] == qs[..|qs| - 1][i];
      if last > rest then last else rest
  }

  /** Per-loop step limit in proportion to the longest queue, at least one. */
  function Scaled(st: Settings, q: int, longest: nat): int
    requires SettingsOk(st)
  {
    var share := if longest == 0 then st.nanCast else FloorDiv(st.maxSteps * Abs(q), longest);
    if share == 0 then 1 else share
  }

  function Queues(s: Hexapod): (qs: seq<int>)
    ensures |qs| == HpCount
  {
    seq(HpCount, i requires 0 <= i < HpCount => s[i].queued)
  }

  function Rescale(st: Settings, s: Hexapod): Hexapod
    requires SettingsOk(st)
  {
    seq(HpCount, i requires 0 <= i < HpCount => s[i].(scaled := Scaled(st, s[i].queued, Longest(Queues(s)))))
  }

  /** Whether every hardpoint asked to move is idle. */
  predicate Accepts(s: Hexapod, wanted: seq<bool>)
    requires |wanted| == HpCount
  {
    forall i :: 0 <= i < HpCount ==> wanted[i] ==> s[i].motion == Standby
  }

  function Queue(h: Hardpoint, steps: int, moving: Motion): Hardpoint {
    h.(queued := steps, motion := if steps != 0 then moving else Standby)
  }

  /** The encoder distance worked off quickly: four counts short of the target, never past it. */
  function QuickDelta(delta: int): int {
    if delta > 0 then Max(0, delta - 4) else if delta < 0 then Min(0, delta + 4) else 0
  }

  function Aim(st: Settings, h: Hardpoint, target: int, encoder: int): Hardpoint {
    Queue(h.(target := target, lastEncoder := encoder, stable := 0, unstable := 0),
          EncoderSteps(st, QuickDelta(target - encoder)), QuickPositioning)
  }

  // ----- raise and lower force checks --------------------------------------------------------------------

  function BaseLow(st: Settings, raise: bool): real { if raise then st.raiseLow else st.lowerLow }

  function BaseHigh(st: Settings, raise: bool): real { if raise then st.raiseHigh else st.lowerHigh }

  /** A hardpoint waiting in tension has to come back half way, one in compression to the middle. */
  function LowLimit(st: Settings, raise: bool, m: Motion): real {
    if m == WaitingTension then BaseLow(st, raise) / 2.0 else BaseLow(st, raise)
  }

  function HighLimit(st: Settings, raise: bool, m: Motion): real {
    if m == WaitingCompression then (BaseLow(st, raise) + BaseHigh(st, raise)) / 2.0 else BaseHigh(st, raise)
  }

  predicate InLimits(st: Settings, raise: bool, m: Motion, force: real) {
    LowLimit(st, raise, m) <= force <= HighLimit(st, raise, m)
  }

  /** The waiting branch shared by tension and compression. The sample counter is 16 bits wide. */
  function KeepWaiting(st: Settings, h: Hardpoint, inRange: bool): (Hardpoint, bool) {
    if !inRange then (h.(samples := 0), true)
    else
      var n := (h.samples + 1) % 0x1_0000;
      if n < st.readoutsToChase then (h.(samples := n), false)
      else (h.(motion := Chasing, samples := 0), true)
  }

  function CheckTension(st: Settings, raise: bool, i: int, h: Hardpoint, r: Reading): (Hardpoint, bool)
    requires SettingsOk(st) && 0 <= i < HpCount
  {
    var inRange := InLimits(st, raise, h.motion, r.force);
    if h.motion == Chasing && r.encoder > st.highProximity[i] then
      if h.waitTension != CanWait then (h.(waitTension := AlreadyWaited), inRange)
      else if r.force <= LowLimit(st, raise, h.motion) then
        (h.(motion := WaitingTension, commanded := 0, waitTension := Waiting), true)
      else (h, inRange)
    else if h.motion == WaitingTension then KeepWaiting(st, h, inRange)
    else (h, inRange)
  }

  function CheckCompression(st: Settings, raise: bool, i: int, h: Hardpoint, r: Reading): (Hardpoint, bool)
    requires SettingsOk(st) && 0 <= i < HpCount
  {
    var inRange := InLimits(st, raise, h.motion, r.force);
    if h.motion == Chasing && r.encoder < st.lowProximity[i] then
      if h.waitCompression != CanWait then (h.(waitCompression := AlreadyWaited), inRange)
      else if r.force >= HighLimit(st, raise, h.motion) then
        (h.(motion := WaitingCompression, commanded := 0, waitCompression := Waiting), true)
      else (h, inRange)
    else if h.motion == WaitingCompression then KeepWaiting(st, h, inRange)
    else (h, inRange)
  }

  function EvaluateOne(st: Settings, raise: bool, elevation: real, i: int, h: Hardpoint, r: Reading): (Hardpoint, bool)
    requires SettingsOk(st) && 0 <= i < HpCount
  {
    var e := if elevation < st.tensionElevation && CanSeeTension(i) then CheckTension(st, raise, i, h, r)
             else if elevation < st.compressionElevation && CanSeeCompression(i) then
               CheckCompression(st, raise, i, h, r)
             else (h, InLimits(st, raise, h.motion, r.force));
    (CheckLimits(e.0, r), e.1)
  }

  // ----- the calls ---------------------------------------------------------------------------------------

  /** Every public call that can change the hardpoints, with what it reads. */
  datatype Call =
    | EnableChaseAll(readings: Readings)
    | DisableChaseAll
    | StartRaise(readings: Readings)
    | StartLower
    | Evaluate(raise: bool, elevation: real, readings: Readings)
    | MoveHardpoint(steps: int, hp: int)
    | Move(wanted: seq<int>)
    | MoveToEncoder(values: seq<int>, readings: Readings)
    | StopAll
    | Stop(hp: int)
    | UpdateSteps(readings: Readings)

  predicate CallOk(c: Call) {
    match c
    case MoveHardpoint(_, hp) => 0 <= hp < HpCount
    case Stop(hp) => 0 <= hp < HpCount
    case Move(wanted) => |wanted| == HpCount
    case MoveToEncoder(values, _) => |values| == HpCount
    case _ => true
  }

  function StoppedOne(h: Hardpoint): Hardpoint { h.(queued := 0, motion := Standby) }

  function Stopped(s: Hexapod): Hexapod {
    seq(HpCount, i requires 0 <= i < HpCount => StoppedOne(s[i]))
  }

  predicate AllStandby(s: Hexapod) { forall i :: 0 <= i < HpCount ==> s[i].motion == Standby }

  function Chase(s: Hexapod, rs: Readings): Hexapod {
    if AllStandby(s) then
      seq(HpCount, i requires 0 <= i < HpCount => s[i].(motion := Chasing, lastEncoder := rs[i].encoder))
    else s
  }

  function Rearmed(s: Hexapod): Hexapod {
    seq(HpCount, i requires 0 <= i < HpCount => Armed(s[i], i))
  }

  function Moved(st: Settings, s: Hexapod, wanted: seq<int>): Hexapod
    requires SettingsOk(st) && |wanted| == HpCount
  {
    if Accepts(s, seq(HpCount, i requires 0 <= i < HpCount => wanted[i] != 0)) then
      Rescale(st, seq(HpCount, i requires 0 <= i < HpCount => Queue(s[i], wanted[i], Stepping)))
    else s
  }

  function MovedToEncoder(st: Settings, s: Hexapod, values: seq<int>, rs: Readings): Hexapod
    requires SettingsOk(st) && |values| == HpCount
  {
    if Accepts(s, seq(HpCount, i requires 0 <= i < HpCount => values[i] != rs[i].encoder)) then
      Rescale(st, seq(HpCount, i requires 0 <= i < HpCount => Aim(st, s[i], values[i], rs[i].encoder)))
    else s
  }

  function MovedOne(st: Settings, s: Hexapod, steps: int, hp: int): Hexapod
    requires SettingsOk(st) && 0 <= hp < HpCount
  {
    if steps == 0 then s else Rescale(st, s[hp := s[hp].(queued := steps, motion := Stepping)])
  }

  function Evaluated(st: Settings, s: Hexapod, raise: bool, elevation: real, rs: Readings): Hexapod
    requires SettingsOk(st)
  {
    seq(HpCount, i requires 0 <= i < HpCount => EvaluateOne(st, raise, elevation, i, s[i], rs[i]).0)
  }

  /** The result of hpRaiseLowerForcesInTolerance. */
  predicate AllInTolerance(st: Settings, s: Hexapod, raise: bool, elevation: real, rs: Readings)
    requires SettingsOk(st)
  {
    forall i :: 0 <= i < HpCount ==> EvaluateOne(st, raise, elevation, i, s[i], rs[i]).1
  }

  function Updated(st: Settings, s: Hexapod, rs: Readings): Hexapod {
    seq(HpCount, i requires 0 <= i < HpCount => UpdateOne(st, s[i], rs[i]))
  }

  function Apply(st: Settings, s: Hexapod, c: Call): Hexapod
    requires SettingsOk(st) && CallOk(c)
  {
    match c
    case EnableChaseAll(rs) => Chase(s, rs)
    case DisableChaseAll => seq(HpCount, i requires 0 <= i < HpCount => s[i].(motion := Standby))
    case StartRaise(rs) => Rearmed(Chase(Stopped(s), rs))
    case StartLower => Rearmed(Stopped(s))
    case Evaluate(raise, elevation, rs) => Evaluated(st, s, raise, elevation, rs)
    case MoveHardpoint(steps, hp) => MovedOne(st, s, steps, hp)
    case Move(wanted) => Moved(st, s, wanted)
    case MoveToEncoder(values, rs) => MovedToEncoder(st, s, values, rs)
    case StopAll => Stopped(s)
    case Stop(hp) => s[hp := StoppedOne(s[hp])]
    case UpdateSteps(rs) => Updated(st, s, rs)
  }

  /** The state after a sequence of calls. */
  function Run(st: Settings, s: Hexapod, cs: seq<Call>): Hexapod
    requires SettingsOk(st) && forall k :: 0 <= k < |cs| ==> CallOk(cs[k])
    decreases |cs|
  {
    if cs == [] then s else Apply(st, Run(st, s, cs[..|cs| - 1]), cs[|cs| - 1])
  }
}
