/** What a bus list puts on the wire, byte by byte, said without the commands and encodings the lists are built
    from: which devices are addressed in which order, with which function codes, setpoints and steps. */
module Wire {
  import opened Sequences
  import opened Modbus
  import opened BusLayout
  import opened BusInputs

  /** A frame with its checksum, and whether the FPGA waits for a reply to it. */
  function Framed(payload: seq<Byte>, reply: bool): Adu { Adu(payload + CrcBytes(payload), reply) }

  /** Every enabled device asked for each function code in turn. */
  function AskEach(codes: seq<Byte>, devices: seq<Ilc>): seq<Adu> {
    if devices == [] then []
    else
      var last := devices[|devices| - 1];
      AskEach(codes, devices[..|devices| - 1])
      + if last.disabled then []
        else seq(|codes|, k requires 0 <= k < |codes| => Framed([last.address, codes[k]], true))
  }

  /** All frames of a subnet, the two broadcasts given: 76 asks a force actuator for its force, 18 any device for its
      server status, 67 a hardpoint for its force, 119 and 121 a monitor for pressure and status, 122 for its LVDT. */
  function WireFrames(net: Subnet, target: nat, sampled: bool, fa: seq<Byte>, hp: seq<Byte>): seq<Adu>
    requires net.fas != [] ==> target < |net.fas|
  {
    (if net.fas == [] then []
     else [Framed(fa, false)] + AskEach([76], net.fas) + [Framed([net.fas[target].address, 18], true)])
    + (if net.hps == [] then [] else [Framed(hp, false)] + AskEach([67, 18], net.hps))
    + AskEach([119, 121, 18], net.hms)
    + (if sampled then AskEach([122], net.hms) else [])
  }

  /** Three bytes, the most significant first, hold the low 24 bits of `x`. */
  predicate Holds24(bs: seq<Byte>, at: nat, x: int) {
    at + 3 <= |bs| && (bs[at] * 0x1_0000 + bs[at + 1] * 0x100 + bs[at + 2] - x) % 0x100_0000 == 0
  }

  /** No other device has the address of device `j`. */
  predicate OwnAddress(devices: seq<Ilc>, j: nat)
    requires j < |devices|
  {
    forall k :: 0 <= k < |devices| && k != j ==> devices[k].address != devices[j].address
  }

  /** A force demand: valves 255 exactly if they are opened, and each actuator's setpoints in its own slot. */
  predicate DemandBytes(bs: seq<Byte>, counter: Byte, i: Inputs, fas: seq<Ilc>)
    requires InputsOk(i) && FasOk(fas)
  {
    && |bs| == 244 && bs[0] == 249 && bs[1] == 75 && bs[2] == counter && bs[3] == (if i.valvesOpened then 255 else 0)
    && (forall j :: 0 <= j < |fas| && OwnAddress(fas, j) ==> SlotHolds(bs, i, fas[j]))
  }

  predicate SlotHolds(bs: seq<Byte>, i: Inputs, d: Ilc)
    requires InputsOk(i) && FaOk(d)
  {
    if d.address <= 16 then Holds24(bs, 4 + 3 * (d.address - 1), i.primary[d.dataIndex])
    else
      && Holds24(bs, 52 + 6 * (d.address - 17), i.primary[d.dataIndex])
      && Holds24(bs, 55 + 6 * (d.address - 17), i.secondary[d.secondaryIndex])
  }

  /** A step broadcast: to each hardpoint its commanded steps with the sign swapped, in the low eight bits. */
  predicate StepBytes(bs: seq<Byte>, counter: Byte, i: Inputs, hps: seq<Ilc>)
    requires InputsOk(i) && HpsOk(hps)
  {
    && |bs| == 81 && bs[0] == 248 && bs[1] == 66 && bs[2] == counter
    && (forall j :: 0 <= j < |hps| && OwnAddress(hps, j) ==>
          Steps8(bs[2 + hps[j].address], i.stepsCommanded[hps[j].dataIndex]))
  }

  /** The byte is the low eight bits of the steps with the sign swapped. */
  predicate Steps8(b: Byte, steps: int) { (b + steps) % 256 == 0 }

  /** The broadcast to the force actuators. */
  predicate FaBytes(bs: seq<Byte>, kind: ListKind, counter: Byte, i: Inputs, fas: seq<Ilc>)
    requires InputsOk(i) && FasOk(fas)
  {
    if kind.Freeze? then bs == [249, 68, counter] else DemandBytes(bs, counter, i, fas)
  }

  /** The broadcast to the hardpoints. */
  predicate HpBytes(bs: seq<Byte>, kind: ListKind, counter: Byte, i: Inputs, hps: seq<Ilc>)
    requires InputsOk(i) && HpsOk(hps)
  {
    if kind.Raised? then StepBytes(bs, counter, i, hps) else bs == [248, 68, counter]
  }

  /** The frames transmitted for a subnet carry the given data. On a freeze list subnet with both actuators and
      hardpoints an update (`patched`) replaces the second broadcast by the first one's, and leaves that as it was. */
  ghost predicate Sends(adus: seq<Adu>, kind: ListKind, counter: Byte, i: Inputs, net: Subnet,
                        target: nat, sampled: bool, patched: bool)
    requires InputsOk(i) && NetOk(net)
  {
    && (net.fas != [] ==> target < |net.fas|)
    && var spoilt := patched && kind.Freeze? && net.fas != [] && net.hps != [];
       exists fa: seq<Byte>, hp: seq<Byte> ::
         && adus == WireFrames(net, target, sampled, fa, hp)
         && (!spoilt ==> FaBytes(fa, kind, counter, i, net.fas) && HpBytes(hp, kind, counter, i, net.hps))
         && (spoilt ==> hp == [249, 68, counter])
  }

  // ----- setpoints in their slots --------------------------------------------------------------------------------

  lemma I24Holds(x: int)
    ensures Holds24(I24(x), 0, x)
  {
    var q, hi, mid, lo := x / 0x100_0000, x / 0x1_0000 % 256, x / 0x100 % 256, x % 256;
    TwoDigits(x);
    TwoDigits(x / 0x100);
    TwoDigits(x / 0x1_0000);
    assert hi * 0x1_0000 + mid * 0x100 + lo - x == 0x100_0000 * -q;
    Multiple(-q);
  }

  lemma TwoDigits(x: int)
    ensures x == 256 * (x / 256) + x % 256
    ensures x / 0x100 / 0x100 == x / 0x1_0000 && x / 0x1_0000 / 0x100 == x / 0x100_0000
  {
  }

  lemma Multiple(q: int)
    ensures 0x100_0000 * q % 0x100_0000 == 0
  {
  }

  lemma {:induction false} I24sAt(xs: seq<int>, k: nat)
    requires k < |xs|
    ensures I24s(xs)[3 * k..3 * k + 3] == I24(xs[k])
  {
    hide I24;
    var n := |xs| - 1;
    if k < n { I24sAt(xs[..n], k); }
  }

  lemma {:induction false} I24PairsAt(p: seq<int>, s: seq<int>, n: nat, k: nat)
    requires n <= |p| && n <= |s| && k < n
    ensures I24Pairs(p, s, n)[6 * k..6 * k + 3] == I24(p[k])
    ensures I24Pairs(p, s, n)[6 * k + 3..6 * k + 6] == I24(s[k])
  {
    hide I24;
    if k < n - 1 { I24PairsAt(p, s, n - 1, k); }
  }

  lemma HoldsPart(bs: seq<Byte>, at: nat, x: int)
    requires at + 3 <= |bs| && bs[at..at + 3] == I24(x)
    ensures Holds24(bs, at, x)
  {
    hide I24;
    I24Holds(x);
    assert bs[at] == I24(x)[0] && bs[at + 1] == I24(x)[1] && bs[at + 2] == I24(x)[2];
  }

  lemma InMiddle(h: seq<Byte>, a: seq<Byte>, b: seq<Byte>, at: nat)
    requires at + 3 <= |a|
    ensures (h + a + b)[|h| + at..|h| + at + 3] == a[at..at + 3]
  {
  }

  lemma InTail(h: seq<Byte>, b: seq<Byte>, at: nat)
    requires at + 3 <= |b|
    ensures (h + b)[|h| + at..|h| + at + 3] == b[at..at + 3]
  {
  }

  /** Where the setpoints are within the bytes of a demand. */
  lemma DemandSlots(counter: Byte, valves: Byte, saa: Saa, p: Daa, s: Daa, k: nat)
    ensures var bs := Payload(ForceDemand(counter, valves, saa, p, s));
            && |bs| == 244 && bs[..4] == [249, 75, counter, valves]
            && (k < 16 ==> Holds24(bs, 4 + 3 * k, saa[k]))
            && (k < 32 ==> Holds24(bs, 52 + 6 * k, p[k]) && Holds24(bs, 55 + 6 * k, s[k]))
  {
    hide I24, Holds24, I24s, I24Pairs;
    var bs := Payload(ForceDemand(counter, valves, saa, p, s));
    var h, a, b := [249, 75, counter, valves], I24s(saa), I24Pairs(p, s, 32);
    assert bs == h + a + b;
    if k < 16 {
      I24sAt(saa, k);
      InMiddle(h, a, b, 3 * k);
      HoldsPart(bs, 4 + 3 * k, saa[k]);
    }
    if k < 32 {
      I24PairsAt(p, s, 32, k);
      InTail(h + a, b, 6 * k);
      InTail(h + a, b, 6 * k + 3);
      HoldsPart(bs, 52 + 6 * k, p[k]);
      HoldsPart(bs, 55 + 6 * k, s[k]);
    }
  }

  lemma FaPayload(kind: ListKind, counter: Byte, i: Inputs, fas: seq<Ilc>)
    requires InputsOk(i) && FasOk(fas)
    ensures FaBytes(Payload(FaBroadcast(kind, counter, i, fas)), kind, counter, i, fas)
  {
    if !kind.Freeze? {
      hide Holds24, Payload, SaaOf, DaaPrimaryOf, DaaSecondaryOf;
      var saa, p, s := SaaOf(fas, i.primary), DaaPrimaryOf(fas, i.primary), DaaSecondaryOf(fas, i.secondary);
      var c := FaBroadcast(kind, counter, i, fas);
      DemandSlots(counter, if i.valvesOpened then 255 else 0, saa, p, s, 0);
      assert c == ForceDemand(counter, if i.valvesOpened then 255 else 0, saa, p, s);
      var bs := Payload(c);
      assert bs[..4] == [249, 75, counter, if i.valvesOpened then 255 else 0];
      assert bs[0] == bs[..4][0] && bs[1] == bs[..4][1] && bs[2] == bs[..4][2] && bs[3] == bs[..4][3];
      forall j | 0 <= j < |fas| && OwnAddress(fas, j)
        ensures SlotHolds(bs, i, fas[j])
      {
        SlotOfActuator(fas, i, j);
        var k := if fas[j].address <= 16 then fas[j].address - 1 else fas[j].address - 17;
        DemandSlots(counter, if i.valvesOpened then 255 else 0, saa, p, s, k);
      }
    }
  }

  lemma {:induction false} StepSlot(hps: seq<Ilc>, commanded: seq<int>, stack: Steps, j: nat)
    requires |commanded| == HpCount && j < |hps| && HpsOk(hps) && OwnAddress(hps, j)
    ensures Steps8(StepsOf(hps, commanded, stack)[hps[j].address - 1], commanded[hps[j].dataIndex])
  {
    var n := |hps| - 1;
    if j < n {
      StepSlot(hps[..n], commanded, stack, j);
    }
  }

  lemma StepPayload(counter: Byte, steps: Steps)
    ensures var bs := Payload(StepMotor(counter, steps));
            && |bs| == 81 && bs[0] == 248 && bs[1] == 66 && bs[2] == counter
            && forall k :: 0 <= k < 78 ==> bs[3 + k] == steps[k]
  {
  }

  lemma HpPayload(kind: ListKind, counter: Byte, i: Inputs, hps: seq<Ilc>)
    requires InputsOk(i) && HpsOk(hps)
    ensures HpBytes(Payload(HpBroadcast(kind, counter, i, hps)), kind, counter, i, hps)
  {
    if kind.Raised? {
      hide StepsOf, Payload, Steps8;
      var steps := StepsOf(hps, i.stepsCommanded, i.stack);
      var bs := Payload(StepMotor(counter, steps));
      StepPayload(counter, steps);
      forall j | 0 <= j < |hps| && OwnAddress(hps, j)
        ensures Steps8(bs[2 + hps[j].address], i.stepsCommanded[hps[j].dataIndex])
      {
        StepSlot(hps, i.stepsCommanded, i.stack, j);
        assert bs[3 + (hps[j].address - 1)] == steps[hps[j].address - 1];
      }
    }
  }

  // ----- the commands on the wire ----------------------------------------------------------------------------------

  lemma TransmittedConcat(a: seq<Command>, b: seq<Command>)
    ensures TransmittedAll(a + b) == TransmittedAll(a) + TransmittedAll(b)
  {
    hide Transmitted;
    var ab := a + b;
    var x := seq(|a|, i requires 0 <= i < |a| => Transmitted(a[i]));
    var y := seq(|b|, i requires 0 <= i < |b| => Transmitted(b[i]));
    assert seq(|ab|, i requires 0 <= i < |ab| => Transmitted(ab[i])) == x + y;
    FlattenConcat(x, y);
  }

  lemma TransmittedOne(c: Command)
    ensures TransmittedAll([c]) == Transmitted(c)
  {
    hide Transmitted;
    var one := [c];
    assert seq(|one|, i requires 0 <= i < |one| => Transmitted(one[i])) == [Transmitted(c)];
    FlattenOne(Transmitted(c));
  }

  lemma TransmittedTwo(c: Command, d: Command)
    ensures TransmittedAll([c, d]) == Transmitted(c) + Transmitted(d)
  {
    hide Transmitted, TransmittedAll;
    assert [c, d] == [c] + [d];
    TransmittedConcat([c], [d]);
    TransmittedOne(c);
    TransmittedOne(d);
  }

  lemma TransmittedThree(c: Command, d: Command, e: Command)
    ensures TransmittedAll([c, d, e]) == Transmitted(c) + Transmitted(d) + Transmitted(e)
  {
    hide Transmitted, TransmittedAll;
    assert [c, d, e] == [c, d] + [e];
    TransmittedConcat([c, d], [e]);
    TransmittedTwo(c, d);
    TransmittedOne(e);
  }

  lemma TransmittedNone()
    ensures TransmittedAll([]) == []
  {
  }

  lemma {:induction false} QueriesAsk(kind: QueryKind, devices: seq<Ilc>)
    requires kind.ForceStatus?
    ensures TransmittedAll(Queries(kind, devices)) == AskEach([76], devices)
  {
    hide TransmittedAll;
    TransmittedNone();
    if devices != [] {
      var n := |devices| - 1;
      QueriesAsk(kind, devices[..n]);
      var q := if devices[n].disabled then [] else [Query(kind, devices[n].address)];
      TransmittedConcat(Queries(kind, devices[..n]), q);
      TransmittedOne(Query(kind, devices[n].address));
    }
  }

  lemma {:induction false} HpQueriesAsk(hps: seq<Ilc>)
    ensures TransmittedAll(HpQueries(hps)) == AskEach([67, 18], hps)
  {
    hide TransmittedAll;
    TransmittedNone();
    if hps != [] {
      var n, a := |hps| - 1, hps[|hps| - 1].address;
      HpQueriesAsk(hps[..n]);
      var q := if hps[n].disabled then [] else [Query(HardpointStatus, a), Query(ServerStatus, a)];
      TransmittedConcat(HpQueries(hps[..n]), q);
      TransmittedTwo(Query(HardpointStatus, a), Query(ServerStatus, a));
    }
  }

  lemma {:induction false} HmCommandsAsk(hms: seq<Ilc>)
    ensures TransmittedAll(HmCommands(hms)) == AskEach([119, 121, 18], hms)
  {
    hide TransmittedAll, Transmitted, Framed;
    TransmittedNone();
    if hms != [] {
      var n, a := |hms| - 1, hms[|hms| - 1].address;
      HmCommandsAsk(hms[..n]);
      var q := if hms[n].disabled then [] else [Query(DcaPressure, a), Query(DcaStatus, a), Query(ServerStatus, a)];
      TransmittedConcat(HmCommands(hms[..n]), q);
      MonitorFrames(a);
    }
  }

  lemma MonitorFrames(a: Byte)
    ensures TransmittedAll([Query(DcaPressure, a), Query(DcaStatus, a), Query(ServerStatus, a)])
         == [Framed([a, 119], true), Framed([a, 121], true), Framed([a, 18], true)]
  {
    hide TransmittedAll;
    TransmittedThree(Query(DcaPressure, a), Query(DcaStatus, a), Query(ServerStatus, a));
  }

  lemma {:induction false} LvdtCommandsAsk(hms: seq<Ilc>, sampled: bool)
    ensures TransmittedAll(LvdtCommands(hms, sampled)) == if sampled then AskEach([122], hms) else []
  {
    hide TransmittedAll;
    TransmittedNone();
    if hms != [] {
      var n := |hms| - 1;
      LvdtCommandsAsk(hms[..n], sampled);
      var q := if hms[n].disabled then [] else [LvdtCommand(hms[n].address, sampled)];
      TransmittedConcat(LvdtCommands(hms[..n], sampled), q);
      TransmittedOne(LvdtCommand(hms[n].address, sampled));
    }
  }

  predicate Broadcast(c: Command) { c.ForceDemand? || c.StepMotor? || c.PneumaticFreeze? || c.HardpointFreeze? }

  lemma FaTransmits(fas: seq<Ilc>, broadcast: Command, target: nat)
    requires fas != [] && target < |fas| && Broadcast(broadcast)
    ensures TransmittedAll(FaCommands(fas, broadcast, target))
         == [Framed(Payload(broadcast), false)] + AskEach([76], fas) + [Framed([fas[target].address, 18], true)]
  {
    hide TransmittedAll, Transmitted, Payload, Queries, AskEach, Framed;
    var head, mid, tail := [broadcast, Timestamp], Queries(ForceStatus, fas), Query(ServerStatus, fas[target].address);
    TransmittedConcat(head + mid, [tail]);
    TransmittedConcat(head, mid);
    BroadcastFrame(broadcast);
    TransmittedOne(tail);
    QueriesAsk(ForceStatus, fas);
    StatusFrame(fas[target].address);
  }

  /** A broadcast and the time stamp after it. */
  lemma BroadcastFrame(broadcast: Command)
    requires Broadcast(broadcast)
    ensures TransmittedAll([broadcast, Timestamp]) == [Framed(Payload(broadcast), false)]
  {
    hide TransmittedAll, Payload;
    TransmittedTwo(broadcast, Timestamp);
  }

  lemma StatusFrame(a: Byte)
    ensures Transmitted(Query(ServerStatus, a)) == [Framed([a, 18], true)]
  {
  }

  lemma HpTransmits(hps: seq<Ilc>, broadcast: Command)
    requires hps != [] && Broadcast(broadcast)
    ensures TransmittedAll(HpCommands(hps, broadcast)) == [Framed(Payload(broadcast), false)] + AskEach([67, 18], hps)
  {
    hide TransmittedAll, Payload, HpQueries, AskEach, Framed;
    TransmittedConcat([broadcast, Timestamp], HpQueries(hps));
    BroadcastFrame(broadcast);
    HpQueriesAsk(hps);
  }

  /** The frames of a view. */
  lemma ViewTransmits(net: Subnet, v: View)
    requires ViewOk(net, v)
    requires (net.fas != [] ==> Broadcast(v.faBroadcast)) && (net.hps != [] ==> Broadcast(v.hpBroadcast))
    ensures TransmittedAll(SubnetCommands(net, v))
         == WireFrames(net, v.target, v.lvdt, Payload(v.faBroadcast), Payload(v.hpBroadcast))
  {
    hide TransmittedAll, Payload, FaCommands, HpCommands, HmCommands, LvdtCommands, AskEach;
    var fa, hp := FaCommands(net.fas, v.faBroadcast, v.target), HpCommands(net.hps, v.hpBroadcast);
    var hm, lv := HmCommands(net.hms), LvdtCommands(net.hms, v.lvdt);
    TransmittedConcat(fa + hp + hm, lv);
    TransmittedConcat(fa + hp, hm);
    TransmittedConcat(fa, hp);
    HmCommandsAsk(net.hms);
    LvdtCommandsAsk(net.hms, v.lvdt);
    NoDevices(net, v);
    if net.fas != [] { FaTransmits(net.fas, v.faBroadcast, v.target); }
    if net.hps != [] { HpTransmits(net.hps, v.hpBroadcast); }
  }

  lemma NoDevices(net: Subnet, v: View)
    requires ViewOk(net, v)
    ensures net.fas == [] ==> TransmittedAll(FaCommands(net.fas, v.faBroadcast, v.target)) == []
    ensures net.hps == [] ==> TransmittedAll(HpCommands(net.hps, v.hpBroadcast)) == []
  {
  }

  /** A view holding the broadcasts of a list kind, put into a frame body and executed, sends its data. */
  lemma BodySends(t: Timing, kind: ListKind, counter: Byte, i: Inputs, net: Subnet, v: View, patched: bool)
    requires InputsOk(i) && NetOk(net) && ViewOk(net, v)
    requires var spoilt := patched && kind.Freeze? && net.fas != [] && net.hps != [];
             && (net.fas != [] && !spoilt ==> v.faBroadcast == FaBroadcast(kind, counter, i, net.fas))
             && (net.hps != [] && !spoilt ==> v.hpBroadcast == HpBroadcast(kind, counter, i, net.hps))
             && (spoilt ==> v.hpBroadcast == PneumaticFreeze(counter) && Broadcast(v.faBroadcast))
    ensures Sends(Scan(BodyWords(IlcEncoder(t), net, v), []), kind, counter, i, net, v.target, v.lvdt, patched)
  {
    hide Scan, BodyWords, TransmittedAll, SubnetCommands, IlcEncoder, FaBytes, HpBytes, Payload, AskEach;
    BodyTransmits(t, net, v);
    ViewTransmits(net, v);
    var spoilt := patched && kind.Freeze? && net.fas != [] && net.hps != [];
    FaPayload(kind, counter, i, net.fas);
    HpPayload(kind, counter, i, net.hps);
    FreezePayload(counter);
    var adus := Scan(BodyWords(IlcEncoder(t), net, v), []);
    var fa := Payload(if spoilt then v.faBroadcast else FaBroadcast(kind, counter, i, net.fas));
    var hp := Payload(if spoilt then v.hpBroadcast else HpBroadcast(kind, counter, i, net.hps));
    assert adus == WireFrames(net, v.target, v.lvdt, fa, hp);
  }

  /** The status target of a subnet without actuators, and the sampling of one without monitors, do not matter. */
  lemma SendsSame(adus: seq<Adu>, kind: ListKind, counter: Byte, i: Inputs, net: Subnet,
                  was: nat, target: nat, before: bool, sampled: bool, patched: bool)
    requires InputsOk(i) && NetOk(net) && Sends(adus, kind, counter, i, net, was, before, patched)
    requires (net.fas != [] ==> target == was) && (net.hms != [] ==> sampled == before)
    ensures Sends(adus, kind, counter, i, net, target, sampled, patched)
  {
    hide FaBytes, HpBytes;
    var spoilt := patched && kind.Freeze? && net.fas != [] && net.hps != [];
    var fa, hp :|
      && adus == WireFrames(net, was, before, fa, hp)
      && (!spoilt ==> FaBytes(fa, kind, counter, i, net.fas) && HpBytes(hp, kind, counter, i, net.hps))
      && (spoilt ==> hp == [249, 68, counter]);
    assert adus == WireFrames(net, target, sampled, fa, hp);
  }

  lemma FreezePayload(counter: Byte)
    ensures Payload(PneumaticFreeze(counter)) == [249, 68, counter]
  {
  }
}
