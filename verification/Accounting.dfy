/** Expected response counts against the replies the transmitted frames will provoke. */
module Accounting {
  import opened Sequences
  import opened Modbus
  import opened BusLayout
  import opened RoundRobin

  function FaExpected(net: Subnet, target: nat, j: nat): nat
    requires j < |net.fas|
  {
    if net.fas[j].disabled then 0 else if j == target then 2 else 1
  }

  function HpExpected(net: Subnet, j: nat): nat
    requires j < |net.hps|
  {
    if net.hps[j].disabled then 0 else 2
  }

  function HmExpected(net: Subnet, sampled: bool, j: nat): nat
    requires j < |net.hms|
  {
    if net.hms[j].disabled then 0 else if sampled then 4 else 3
  }

  /** Frames addressed to device `a` after which the FPGA waits for its reply. */
  function Replies(adus: seq<Adu>, a: Byte): nat {
    if adus == [] then 0
    else (if adus[0].reply && |adus[0].bytes| > 0 && adus[0].bytes[0] == a then 1 else 0) + Replies(adus[1..], a)
  }

  function Asks(c: Command, a: Byte): nat {
    if c.Query? && c.address == a then 1 else 0
  }

  function Asked(cs: seq<Command>, a: Byte): nat {
    if cs == [] then 0 else Asked(cs[..|cs| - 1], a) + Asks(cs[|cs| - 1], a)
  }

  function EnabledAt(devices: seq<Ilc>, a: Byte): nat {
    if devices == [] then 0
    else
      var last := devices[|devices| - 1];
      EnabledAt(devices[..|devices| - 1], a) + if !last.disabled && last.address == a then 1 else 0
  }

  lemma {:induction false} RepliesConcat(x: seq<Adu>, y: seq<Adu>, a: Byte)
    ensures Replies(x + y, a) == Replies(x, a) + Replies(y, a)
  {
    if x == [] {
      assert x + y == y;
    } else {
      assert (x + y)[1..] == x[1..] + y;
      RepliesConcat(x[1..], y, a);
    }
  }

  lemma {:induction false} AskedConcat(x: seq<Command>, y: seq<Command>, a: Byte)
    ensures Asked(x + y, a) == Asked(x, a) + Asked(y, a)
  {
    if y == [] {
      assert x + y == x;
    } else {
      assert (x + y)[..|x + y| - 1] == x + y[..|y| - 1];
      AskedConcat(x, y[..|y| - 1], a);
    }
  }

  lemma AskedOne(c: Command, a: Byte)
    ensures Asked([c], a) == Asks(c, a)
  {
    assert [c][..0] == [];
  }

  lemma AskedTwo(c: Command, d: Command, a: Byte)
    ensures Asked([c, d], a) == Asks(c, a) + Asks(d, a)
  {
    assert [c, d] == [c] + [d];
    AskedConcat([c], [d], a);
    AskedOne(c, a);
    AskedOne(d, a);
  }

  lemma TransmittedReplies(c: Command, a: Byte)
    ensures Replies(Transmitted(c), a) == Asks(c, a)
  {
    hide Crc, I24s, I24Pairs;
    match c
    case NopLvdt =>
    case Timestamp =>
    case _ =>
      var adu := Adu(Payload(c) + CrcBytes(Payload(c)), c.Query?);
      assert Transmitted(c) == [adu];
      assert [adu][1..] == [];
  }

  /** The replies to a command list are its queries. */
  lemma {:induction false} RepliesAreAsked(cs: seq<Command>, a: Byte)
    ensures Replies(TransmittedAll(cs), a) == Asked(cs, a)
    decreases |cs|
  {
    hide Transmitted;
    if cs != [] {
      var front, last := cs[..|cs| - 1], cs[|cs| - 1];
      var parts := seq(|cs|, i requires 0 <= i < |cs| => Transmitted(cs[i]));
      var head := seq(|front|, i requires 0 <= i < |front| => Transmitted(front[i]));
      assert parts == head + [Transmitted(last)];
      FlattenConcat(head, [Transmitted(last)]);
      FlattenOne(Transmitted(last));
      RepliesConcat(TransmittedAll(front), Transmitted(last), a);
      RepliesAreAsked(front, a);
      TransmittedReplies(last, a);
    }
  }

  lemma {:induction false} QueriesAsked(kind: QueryKind, devices: seq<Ilc>, a: Byte)
    ensures Asked(Queries(kind, devices), a) == EnabledAt(devices, a)
  {
    if devices != [] {
      var front, last := devices[..|devices| - 1], devices[|devices| - 1];
      QueriesAsked(kind, front, a);
      if !last.disabled {
        AskedConcat(Queries(kind, front), [Query(kind, last.address)], a);
        AskedOne(Query(kind, last.address), a);
      } else {
        assert Queries(kind, front) + [] == Queries(kind, front);
      }
    }
  }

  lemma {:induction false} HpQueriesAsked(hps: seq<Ilc>, a: Byte)
    ensures Asked(HpQueries(hps), a) == 2 * EnabledAt(hps, a)
  {
    if hps != [] {
      var front, last := hps[..|hps| - 1], hps[|hps| - 1];
      HpQueriesAsked(front, a);
      if !last.disabled {
        var own := [Query(HardpointStatus, last.address), Query(ServerStatus, last.address)];
        AskedConcat(HpQueries(front), own, a);
        AskedTwo(own[0], own[1], a);
      } else {
        assert HpQueries(front) + [] == HpQueries(front);
      }
    }
  }

  lemma {:induction false} HmCommandsAsked(hms: seq<Ilc>, a: Byte)
    ensures Asked(HmCommands(hms), a) == 3 * EnabledAt(hms, a)
  {
    if hms != [] {
      var front, last := hms[..|hms| - 1], hms[|hms| - 1];
      HmCommandsAsked(front, a);
      if !last.disabled {
        var a' := last.address;
        var x, y := [Query(DcaPressure, a'), Query(DcaStatus, a')], [Query(ServerStatus, a')];
        assert HmCommands(hms) == HmCommands(front) + (x + y);
        AskedConcat(HmCommands(front), x + y, a);
        AskedConcat(x, y, a);
        AskedTwo(x[0], x[1], a);
        AskedOne(y[0], a);
      } else {
        assert HmCommands(front) + [] == HmCommands(front);
      }
    }
  }

  lemma {:induction false} LvdtCommandsAsked(hms: seq<Ilc>, sampled: bool, a: Byte)
    ensures Asked(LvdtCommands(hms, sampled), a) == if sampled then EnabledAt(hms, a) else 0
  {
    if hms != [] {
      var front, last := hms[..|hms| - 1], hms[|hms| - 1];
      LvdtCommandsAsked(front, sampled, a);
      if !last.disabled {
        AskedConcat(LvdtCommands(front, sampled), [LvdtCommand(last.address, sampled)], a);
        AskedOne(LvdtCommand(last.address, sampled), a);
      } else {
        assert LvdtCommands(front, sampled) + [] == LvdtCommands(front, sampled);
      }
    }
  }

  function FaAsked(fas: seq<Ilc>, target: nat, a: Byte): nat
    requires fas != [] ==> target < |fas|
  {
    if fas == [] then 0 else EnabledAt(fas, a) + if fas[target].address == a then 1 else 0
  }

  lemma FaCommandsAsked(fas: seq<Ilc>, broadcast: Command, target: nat, a: Byte)
    requires (fas != [] ==> target < |fas|) && !broadcast.Query?
    ensures Asked(FaCommands(fas, broadcast, target), a) == FaAsked(fas, target, a)
  {
    hide Asked, EnabledAt;
    if fas == [] {
      AskedNone(a);
    } else {
      var head, mid := [broadcast, Timestamp], Queries(ForceStatus, fas);
      var tail := [Query(ServerStatus, fas[target].address)];
      AskedConcat(head + mid, tail, a);
      AskedConcat(head, mid, a);
      AskedTwo(broadcast, Timestamp, a);
      QueriesAsked(ForceStatus, fas, a);
      AskedOne(tail[0], a);
    }
  }

  lemma AskedNone(a: Byte)
    ensures Asked([], a) == 0 && EnabledAt([], a) == 0
  {
  }

  lemma HpCommandsAsked(hps: seq<Ilc>, broadcast: Command, a: Byte)
    requires !broadcast.Query?
    ensures Asked(HpCommands(hps, broadcast), a) == 2 * EnabledAt(hps, a)
  {
    hide Asked, EnabledAt;
    if hps == [] {
      AskedNone(a);
    } else {
      AskedConcat([broadcast, Timestamp], HpQueries(hps), a);
      AskedTwo(broadcast, Timestamp, a);
      HpQueriesAsked(hps, a);
    }
  }

  /** Queries for address `a` in the frame of a subnet. */
  lemma SubnetAsked(net: Subnet, v: View, a: Byte)
    requires ViewOk(net, v) && !v.faBroadcast.Query? && !v.hpBroadcast.Query?
    ensures Asked(SubnetCommands(net, v), a)
         == FaAsked(net.fas, v.target, a) + 2 * EnabledAt(net.hps, a)
            + (if v.lvdt then 4 else 3) * EnabledAt(net.hms, a)
  {
    hide Asked, EnabledAt, FaCommands, HpCommands;
    var fa, hp := FaCommands(net.fas, v.faBroadcast, v.target), HpCommands(net.hps, v.hpBroadcast);
    var hm, lv := HmCommands(net.hms), LvdtCommands(net.hms, v.lvdt);
    AskedConcat(fa + hp + hm, lv, a);
    AskedConcat(fa + hp, hm, a);
    AskedConcat(fa, hp, a);
    FaCommandsAsked(net.fas, v.faBroadcast, v.target, a);
    HpCommandsAsked(net.hps, v.hpBroadcast, a);
    HmCommandsAsked(net.hms, a);
    LvdtCommandsAsked(net.hms, v.lvdt, a);
  }

  /** No two devices of a subnet share an address. */
  ghost predicate DistinctAddresses(net: Subnet) {
    var all := net.fas + net.hps + net.hms;
    forall i, j :: 0 <= i < j < |all| ==> all[i].address != all[j].address
  }

  lemma {:induction false} EnabledAtAbsent(devices: seq<Ilc>, a: Byte)
    requires forall i :: 0 <= i < |devices| ==> devices[i].address != a
    ensures EnabledAt(devices, a) == 0
  {
    if devices != [] { EnabledAtAbsent(devices[..|devices| - 1], a); }
  }

  lemma {:induction false} EnabledAtOne(devices: seq<Ilc>, j: nat)
    requires j < |devices|
    requires forall i :: 0 <= i < |devices| && i != j ==> devices[i].address != devices[j].address
    ensures EnabledAt(devices, devices[j].address) == if devices[j].disabled then 0 else 1
  {
    var front := devices[..|devices| - 1];
    if j == |devices| - 1 {
      EnabledAtAbsent(front, devices[j].address);
    } else {
      EnabledAtOne(front, j);
    }
  }

  lemma DistinctSplit(net: Subnet)
    requires DistinctAddresses(net)
    ensures forall i, j :: 0 <= i < |net.fas| && 0 <= j < |net.fas| && i != j ==>
              net.fas[i].address != net.fas[j].address
    ensures forall i, j :: 0 <= i < |net.hps| && 0 <= j < |net.hps| && i != j ==>
              net.hps[i].address != net.hps[j].address
    ensures forall i, j :: 0 <= i < |net.hms| && 0 <= j < |net.hms| && i != j ==>
              net.hms[i].address != net.hms[j].address
    ensures forall i, j :: 0 <= i < |net.fas| && 0 <= j < |net.hps| ==> net.fas[i].address != net.hps[j].address
    ensures forall i, j :: 0 <= i < |net.fas| && 0 <= j < |net.hms| ==> net.fas[i].address != net.hms[j].address
    ensures forall i, j :: 0 <= i < |net.hps| && 0 <= j < |net.hms| ==> net.hps[i].address != net.hms[j].address
  {
    var all := net.fas + net.hps + net.hms;
    var f, h := |net.fas|, |net.hps|;
    assert forall i :: 0 <= i < f ==> all[i] == net.fas[i];
    assert forall i :: 0 <= i < h ==> all[f + i] == net.hps[i];
    assert forall i :: 0 <= i < |net.hms| ==> all[f + h + i] == net.hms[i];
  }

  /** Replies that the frame of a subnet, as the FPGA reads it, provokes from address `a`. */
  function WireReplies(t: Timing, net: Subnet, v: View, a: Byte): nat
    requires ViewOk(net, v)
  {
    Replies(Scan(BodyWords(IlcEncoder(t), net, v), []), a)
  }

  ghost predicate ViewSound(net: Subnet, v: View) {
    && !v.faBroadcast.Query? && !v.hpBroadcast.Query?
    && (net.fas != [] ==> IsEnabled(net.fas, v.target))
  }

  lemma WireAsked(t: Timing, net: Subnet, v: View, a: Byte)
    requires ViewOk(net, v) && ViewSound(net, v)
    ensures WireReplies(t, net, v, a)
         == FaAsked(net.fas, v.target, a) + 2 * EnabledAt(net.hps, a)
            + (if v.lvdt then 4 else 3) * EnabledAt(net.hms, a)
  {
    hide BodyWords, Scan, SubnetCommands, Asked, EnabledAt, Replies;
    BodyTransmits(t, net, v);
    RepliesAreAsked(SubnetCommands(net, v), a);
    SubnetAsked(net, v, a);
  }

  /** Accounting of force actuators: the expected count is the number of replies on the wire. */
  lemma FaAccounted(t: Timing, net: Subnet, v: View, j: nat)
    requires ViewOk(net, v) && ViewSound(net, v) && DistinctAddresses(net) && j < |net.fas|
    ensures WireReplies(t, net, v, net.fas[j].address) == FaExpected(net, v.target, j)
  {
    hide WireReplies, EnabledAt;
    var a := net.fas[j].address;
    WireAsked(t, net, v, a);
    DistinctSplit(net);
    EnabledAtOne(net.fas, j);
    EnabledAtAbsent(net.hps, a);
    EnabledAtAbsent(net.hms, a);
  }

  lemma HpAccounted(t: Timing, net: Subnet, v: View, j: nat)
    requires ViewOk(net, v) && ViewSound(net, v) && DistinctAddresses(net) && j < |net.hps|
    ensures WireReplies(t, net, v, net.hps[j].address) == HpExpected(net, j)
  {
    hide WireReplies, EnabledAt;
    var a := net.hps[j].address;
    WireAsked(t, net, v, a);
    DistinctSplit(net);
    EnabledAtAbsent(net.fas, a);
    EnabledAtOne(net.hps, j);
    EnabledAtAbsent(net.hms, a);
  }

  lemma HmAccounted(t: Timing, net: Subnet, v: View, j: nat)
    requires ViewOk(net, v) && ViewSound(net, v) && DistinctAddresses(net) && j < |net.hms|
    ensures WireReplies(t, net, v, net.hms[j].address) == HmExpected(net, v.lvdt, j)
  {
    hide WireReplies, EnabledAt;
    var a := net.hms[j].address;
    WireAsked(t, net, v, a);
    DistinctSplit(net);
    EnabledAtAbsent(net.fas, a);
    EnabledAtAbsent(net.hps, a);
    EnabledAtOne(net.hms, j);
  }
}
