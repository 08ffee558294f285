/** The data a bus list renders: force demands, motor steps and the broadcast of each list kind. */
module BusInputs {
  import opened Sequences
  import opened Modbus
  import opened BusLayout
  import opened RoundRobin

  const FaCount := 156
  const FaSecondaryCount := 112
  const HpCount := 6

  /** Published data read by a rendering. `stack` is whatever the uninitialised step array of
      RaisedBusList held; only the bytes of hardpoint addresses are overwritten. */
  datatype Inputs = Inputs(valvesOpened: bool, primary: seq<int>, secondary: seq<int>,
                           stepsCommanded: seq<int>, stack: Steps)

  predicate InputsOk(i: Inputs) {
    |i.primary| == FaCount && |i.secondary| == FaSecondaryCount && |i.stepsCommanded| == HpCount
  }

  predicate FaOk(d: Ilc) {
    1 <= d.address <= 48 && d.dataIndex < FaCount && (d.address > 16 ==> 0 <= d.secondaryIndex < FaSecondaryCount)
  }

  predicate HpOk(d: Ilc) { 1 <= d.address <= 78 && d.dataIndex < HpCount }

  predicate HmOk(d: Ilc) { d.dataIndex < HpCount }

  predicate FasOk(fas: seq<Ilc>) { forall j :: 0 <= j < |fas| ==> FaOk(fas[j]) }

  predicate HpsOk(hps: seq<Ilc>) { forall j :: 0 <= j < |hps| ==> HpOk(hps[j]) }

  predicate HmsOk(hms: seq<Ilc>) { forall j :: 0 <= j < |hms| ==> HmOk(hms[j]) }

  /** What the tables the source indexes by address and data index need, and an enabled actuator
      for the status query of every force actuator subnet. */
  ghost predicate NetOk(net: Subnet) {
    && FasOk(net.fas) && HpsOk(net.hps) && HmsOk(net.hms)
    && (net.fas != [] ==> SomeEnabled(net.fas))
  }

  function SaaOf(fas: seq<Ilc>, primary: seq<int>): Saa
    requires |primary| == FaCount && FasOk(fas)
  {
    if fas == [] then seq(16, _ => 0)
    else
      var rest := SaaOf(fas[..|fas| - 1], primary);
      var d := fas[|fas| - 1];
      if d.address <= 16 then rest[d.address - 1 := primary[d.dataIndex]] else rest
  }

  function DaaPrimaryOf(fas: seq<Ilc>, primary: seq<int>): Daa
    requires |primary| == FaCount && FasOk(fas)
  {
    if fas == [] then seq(32, _ => 0)
    else
      var rest := DaaPrimaryOf(fas[..|fas| - 1], primary);
      var d := fas[|fas| - 1];
      if d.address <= 16 then rest else rest[d.address - 17 := primary[d.dataIndex]]
  }

  function DaaSecondaryOf(fas: seq<Ilc>, secondary: seq<int>): Daa
    requires |secondary| == FaSecondaryCount && FasOk(fas)
  {
    if fas == [] then seq(32, _ => 0)
    else
      var rest := DaaSecondaryOf(fas[..|fas| - 1], secondary);
      var d := fas[|fas| - 1];
      if d.address <= 16 then rest else rest[d.address - 17 := secondary[d.secondaryIndex]]
  }

  /** A step count as the byte the motor controller gets: sign swapped, low eight bits. */
  function StepByte(steps: int): Byte { (-steps) % 256 }

  function StepsOf(hps: seq<Ilc>, commanded: seq<int>, stack: Steps): Steps
    requires |commanded| == HpCount && HpsOk(hps)
  {
    if hps == [] then stack
    else
      var d := hps[|hps| - 1];
      StepsOf(hps[..|hps| - 1], commanded, stack)[d.address - 1 := StepByte(commanded[d.dataIndex])]
  }

  function Valves(open: bool): Byte { if open then 255 else 0 }

  function FaBroadcast(kind: ListKind, counter: Byte, i: Inputs, fas: seq<Ilc>): Command
    requires InputsOk(i) && FasOk(fas)
  {
    match kind
    case Freeze => PneumaticFreeze(counter)
    case _ => ForceDemand(counter, Valves(i.valvesOpened), SaaOf(fas, i.primary),
                          DaaPrimaryOf(fas, i.primary), DaaSecondaryOf(fas, i.secondary))
  }

  function HpBroadcast(kind: ListKind, counter: Byte, i: Inputs, hps: seq<Ilc>): Command
    requires InputsOk(i) && HpsOk(hps)
  {
    match kind
    case Raised => StepMotor(counter, StepsOf(hps, i.stepsCommanded, i.stack))
    case _ => HardpointFreeze(counter)
  }

  function FaBroadcastWidth(kind: ListKind): nat { if kind.Freeze? then 7 else 248 }

  function HpBroadcastWidth(kind: ListKind): nat { if kind.Raised? then 85 else 7 }

  /** A subnet rendered from scratch with the current data. */
  function FreshView(kind: ListKind, counter: Byte, i: Inputs, net: Subnet, target: nat, sampled: bool): View
    requires InputsOk(i) && NetOk(net)
  {
    View(FaBroadcast(kind, counter, i, net.fas), target, HpBroadcast(kind, counter, i, net.hps), sampled)
  }

  /** The distinct addresses of a subnet's actuators give each its own setpoint slot. */
  lemma {:induction false} SlotOfActuator(fas: seq<Ilc>, i: Inputs, j: nat)
    requires InputsOk(i) && j < |fas| && FasOk(fas)
    requires forall k :: 0 <= k < |fas| && k != j ==> fas[k].address != fas[j].address
    ensures var d := fas[j];
            && (d.address <= 16 ==> SaaOf(fas, i.primary)[d.address - 1] == i.primary[d.dataIndex])
            && (d.address > 16 ==> DaaPrimaryOf(fas, i.primary)[d.address - 17] == i.primary[d.dataIndex])
            && (d.address > 16 ==> DaaSecondaryOf(fas, i.secondary)[d.address - 17] == i.secondary[d.secondaryIndex])
  {
    if j < |fas| - 1 {
      SlotOfActuator(fas[..|fas| - 1], i, j);
    }
  }

  /** Slots of absent addresses demand no force. */
  lemma {:induction false} SlotOfNobody(fas: seq<Ilc>, i: Inputs, a: Byte)
    requires InputsOk(i) && 1 <= a <= 48 && FasOk(fas) && forall k :: 0 <= k < |fas| ==> fas[k].address != a
    ensures a <= 16 ==> SaaOf(fas, i.primary)[a - 1] == 0
    ensures a > 16 ==> DaaPrimaryOf(fas, i.primary)[a - 17] == 0 && DaaSecondaryOf(fas, i.secondary)[a - 17] == 0
  {
    if fas != [] {
      SlotOfNobody(fas[..|fas| - 1], i, a);
    }
  }

  /** Value a motor controller reads from its signed step byte. */
  function FromStepByte(b: Byte): int { if b >= 128 then b - 256 else b }

  /** A hardpoint's controller receives its commanded steps with the sign swapped, provided they
      fit a signed byte after the swap. */
  lemma {:induction false} StepOfHardpoint(hps: seq<Ilc>, commanded: seq<int>, stack: Steps, j: nat)
    requires |commanded| == HpCount && j < |hps| && HpsOk(hps)
    requires forall k :: 0 <= k < |hps| && k != j ==> hps[k].address != hps[j].address
    ensures FromStepByte(StepsOf(hps, commanded, stack)[hps[j].address - 1]) == -commanded[hps[j].dataIndex]
       <==> -127 <= commanded[hps[j].dataIndex] <= 128
  {
    if j < |hps| - 1 {
      StepOfHardpoint(hps[..|hps| - 1], commanded, stack, j);
    }
  }
}
