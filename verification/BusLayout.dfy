/** What a bus list buffer should hold: the from-scratch rendering of five subnet frames, how an
    in-place patch changes it, and how the FPGA reads it. Pure counterpart of the three bus lists. */
module BusLayout {
  import opened Sequences
  import opened Modbus

  const SubnetCount := 5

  /** One device of a subnet (ILCMap). */
  datatype Ilc = Ilc(address: Byte, dataIndex: nat, secondaryIndex: int, disabled: bool)

  /** Force actuators, hardpoints and hardpoint monitors of a subnet. */
  datatype Subnet = Subnet(fas: seq<Ilc>, hps: seq<Ilc>, hms: seq<Ilc>)

  datatype ListKind = Raised | Active | Freeze

  /** The volatile parts of one subnet frame. */
  datatype View = View(faBroadcast: Command, target: nat, hpBroadcast: Command, lvdt: bool)

  function SubnetAddress(s: nat): Word {
    if s == 0 then 9 else if s == 1 then 10 else if s == 2 then 11
    else if s == 3 then 12 else if s == 4 then 17 else 255
  }

  // ----- rendering ---------------------------------------------------------------------------

  /** One query of the given kind for each enabled device. */
  function Queries(kind: QueryKind, devices: seq<Ilc>): seq<Command> {
    if devices == [] then []
    else
      var last := devices[|devices| - 1];
      Queries(kind, devices[..|devices| - 1]) + if last.disabled then [] else [Query(kind, last.address)]
  }

  function FaCommands(fas: seq<Ilc>, broadcast: Command, target: nat): seq<Command>
    requires fas != [] ==> target < |fas|
  {
    if fas == [] then []
    else [broadcast, Timestamp] + Queries(ForceStatus, fas) + [Query(ServerStatus, fas[target].address)]
  }

  function HpQueries(hps: seq<Ilc>): seq<Command> {
    if hps == [] then []
    else
      var last := hps[|hps| - 1];
      HpQueries(hps[..|hps| - 1])
      + if last.disabled then [] else [Query(HardpointStatus, last.address), Query(ServerStatus, last.address)]
  }

  function HpCommands(hps: seq<Ilc>, broadcast: Command): seq<Command> {
    if hps == [] then [] else [broadcast, Timestamp] + HpQueries(hps)
  }

  function HmCommands(hms: seq<Ilc>): seq<Command> {
    if hms == [] then []
    else
      var last := hms[|hms| - 1];
      HmCommands(hms[..|hms| - 1])
      + if last.disabled then []
        else [Query(DcaPressure, last.address), Query(DcaStatus, last.address), Query(ServerStatus, last.address)]
  }

  function LvdtCommand(address: Byte, sampled: bool): Command {
    if sampled then Query(Lvdt, address) else NopLvdt
  }

  function LvdtCommands(hms: seq<Ilc>, sampled: bool): seq<Command> {
    if hms == [] then []
    else
      var last := hms[|hms| - 1];
      LvdtCommands(hms[..|hms| - 1], sampled) + if last.disabled then [] else [LvdtCommand(last.address, sampled)]
  }

  predicate ViewOk(net: Subnet, v: View) {
    net.fas != [] ==> v.target < |net.fas|
  }

  function SubnetCommands(net: Subnet, v: View): seq<Command>
    requires ViewOk(net, v)
  {
    FaCommands(net.fas, v.faBroadcast, v.target) + HpCommands(net.hps, v.hpBroadcast)
    + HmCommands(net.hms) + LvdtCommands(net.hms, v.lvdt)
  }

  /** Body of a frame: what follows its length word. */
  function BodyWords(e: Encoder, net: Subnet, v: View): seq<Word>
    requires ViewOk(net, v)
  {
    [WaitTriggerWord] + WordsAll(e, SubnetCommands(net, v)) + [TriggerIrqWord]
  }

  function EnabledCount(devices: seq<Ilc>): nat {
    if devices == [] then 0
    else EnabledCount(devices[..|devices| - 1]) + if devices[|devices| - 1].disabled then 0 else 1
  }

  function FaWidth(fas: seq<Ilc>, broadcast: Command): nat {
    if fas == [] then 0 else Width(broadcast) + 1 + 6 * EnabledCount(fas) + 6
  }

  function HpWidth(hps: seq<Ilc>, broadcast: Command): nat {
    if hps == [] then 0 else Width(broadcast) + 1 + 12 * EnabledCount(hps)
  }

  function BodyWidth(net: Subnet, v: View): nat {
    1 + FaWidth(net.fas, v.faBroadcast) + HpWidth(net.hps, v.hpBroadcast) + 24 * EnabledCount(net.hms) + 1
  }

  /** The view is well formed and its frame length fits the 16-bit length word. */
  predicate Fits(net: Subnet, v: View) {
    ViewOk(net, v) && BodyWidth(net, v) < 0x1_0000
  }

  /** A frame put together from its parts. */
  function Wrap(head: seq<Word>, fa: seq<Word>, hp: seq<Word>, hm: seq<Word>, lv: seq<Word>): seq<Word> {
    head + fa + hp + hm + lv + [TriggerIrqWord]
  }

  function Head(s: nat, net: Subnet, v: View): (h: seq<Word>)
    requires BodyWidth(net, v) < 0x1_0000
    ensures |h| == 3
  {
    [SubnetAddress(s), BodyWidth(net, v), WaitTriggerWord]
  }

  /** The whole frame of subnet `s`, length word filled in. */
  function SubnetWords(e: Encoder, s: nat, net: Subnet, v: View): seq<Word>
    requires Fits(net, v)
  {
    Wrap(Head(s, net, v), WordsAll(e, FaCommands(net.fas, v.faBroadcast, v.target)),
         WordsAll(e, HpCommands(net.hps, v.hpBroadcast)), WordsAll(e, HmCommands(net.hms)),
         WordsAll(e, LvdtCommands(net.hms, v.lvdt)))
  }

  ghost predicate AllFit(nets: seq<Subnet>, views: seq<View>) {
    |nets| == |views| && forall s :: 0 <= s < |nets| ==> Fits(nets[s], views[s])
  }

  function SubnetFrames(e: Encoder, nets: seq<Subnet>, views: seq<View>): (fs: seq<seq<Word>>)
    requires AllFit(nets, views)
    ensures |fs| == |nets|
  {
    seq(|nets|, s requires 0 <= s < |nets| => SubnetWords(e, s, nets[s], views[s]))
  }

  /** The whole buffer: the subnet frames one after another. */
  function Render(e: Encoder, nets: seq<Subnet>, views: seq<View>): seq<Word>
    requires AllFit(nets, views)
  {
    Flatten(SubnetFrames(e, nets, views))
  }

  // ----- where the volatile parts are ------------------------------------------------------------

  /** Offset of the server status query within the frame. */
  function StatusOffset(net: Subnet, v: View): nat {
    3 + Width(v.faBroadcast) + 1 + 6 * EnabledCount(net.fas)
  }

  function HpOffset(net: Subnet, v: View): nat { 3 + FaWidth(net.fas, v.faBroadcast) }

  function LvdtOffset(net: Subnet, v: View): nat {
    3 + FaWidth(net.fas, v.faBroadcast) + HpWidth(net.hps, v.hpBroadcast) + 18 * EnabledCount(net.hms)
  }

  /** Where the frame of subnet `s` starts. */
  function Start(nets: seq<Subnet>, views: seq<View>, s: nat): nat
    requires |nets| == |views| && s <= |nets|
  {
    if s == 0 then 0 else Start(nets, views, s - 1) + 2 + BodyWidth(nets[s - 1], views[s - 1])
  }

  lemma WordsAllTwo(e: Encoder, a: Command, b: Command)
    ensures WordsAll(e, [a, b]) == e(a) + e(b)
  {
    assert [a, b] == [a] + [b];
    WordsAllConcat(e, [a], [b]);
    WordsAllOne(e, a);
    WordsAllOne(e, b);
  }

  lemma WordsAllThree(e: Encoder, a: Command, b: Command, c: Command)
    ensures WordsAll(e, [a, b, c]) == e(a) + e(b) + e(c)
  {
    assert [a, b, c] == [a, b] + [c];
    WordsAllConcat(e, [a, b], [c]);
    WordsAllTwo(e, a, b);
    WordsAllOne(e, c);
  }

  lemma {:induction false} QueriesWidth(e: Encoder, kind: QueryKind, devices: seq<Ilc>)
    ensures |WordsAll(e, Queries(kind, devices))| == 6 * EnabledCount(devices)
  {
    if devices != [] {
      var last := devices[|devices| - 1];
      QueriesWidth(e, kind, devices[..|devices| - 1]);
      var q := if last.disabled then [] else [Query(kind, last.address)];
      WordsAllConcat(e, Queries(kind, devices[..|devices| - 1]), q);
      WordsAllOne(e, Query(kind, last.address));
    }
  }

  lemma {:induction false} HpQueriesWidth(e: Encoder, hps: seq<Ilc>)
    ensures |WordsAll(e, HpQueries(hps))| == 12 * EnabledCount(hps)
  {
    if hps != [] {
      var last := hps[|hps| - 1];
      HpQueriesWidth(e, hps[..|hps| - 1]);
      var own := [Query(HardpointStatus, last.address), Query(ServerStatus, last.address)];
      WordsAllConcat(e, HpQueries(hps[..|hps| - 1]), if last.disabled then [] else own);
      WordsAllTwo(e, own[0], own[1]);
    }
  }

  lemma {:induction false} HmCommandsWidth(e: Encoder, hms: seq<Ilc>)
    ensures |WordsAll(e, HmCommands(hms))| == 18 * EnabledCount(hms)
  {
    if hms != [] {
      var last := hms[|hms| - 1];
      HmCommandsWidth(e, hms[..|hms| - 1]);
      var own := [Query(DcaPressure, last.address), Query(DcaStatus, last.address), Query(ServerStatus, last.address)];
      WordsAllConcat(e, HmCommands(hms[..|hms| - 1]), if last.disabled then [] else own);
      WordsAllThree(e, own[0], own[1], own[2]);
    }
  }

  lemma {:induction false} LvdtCommandsWidth(e: Encoder, hms: seq<Ilc>, sampled: bool)
    ensures |WordsAll(e, LvdtCommands(hms, sampled))| == 6 * EnabledCount(hms)
  {
    if hms != [] {
      var last := hms[|hms| - 1];
      LvdtCommandsWidth(e, hms[..|hms| - 1], sampled);
      var own := LvdtCommand(last.address, sampled);
      WordsAllConcat(e, LvdtCommands(hms[..|hms| - 1], sampled), if last.disabled then [] else [own]);
      WordsAllOne(e, own);
    }
  }

  lemma FaCommandsWords(e: Encoder, fas: seq<Ilc>, broadcast: Command, target: nat)
    requires target < |fas|
    ensures WordsAll(e, FaCommands(fas, broadcast, target))
         == e(broadcast) + e(Timestamp) + WordsAll(e, Queries(ForceStatus, fas))
          + e(Query(ServerStatus, fas[target].address))
    ensures |WordsAll(e, FaCommands(fas, broadcast, target))| == FaWidth(fas, broadcast)
  {
    var head := [broadcast, Timestamp];
    var status := Query(ServerStatus, fas[target].address);
    WordsAllTwo(e, broadcast, Timestamp);
    WordsAllConcat(e, head, Queries(ForceStatus, fas));
    WordsAllConcat(e, head + Queries(ForceStatus, fas), [status]);
    WordsAllOne(e, status);
    QueriesWidth(e, ForceStatus, fas);
  }

  lemma HpCommandsWords(e: Encoder, hps: seq<Ilc>, broadcast: Command)
    requires hps != []
    ensures WordsAll(e, HpCommands(hps, broadcast))
         == e(broadcast) + e(Timestamp) + WordsAll(e, HpQueries(hps))
    ensures |WordsAll(e, HpCommands(hps, broadcast))| == HpWidth(hps, broadcast)
  {
    WordsAllTwo(e, broadcast, Timestamp);
    WordsAllConcat(e, [broadcast, Timestamp], HpQueries(hps));
    HpQueriesWidth(e, hps);
  }

  lemma FaPartWidth(e: Encoder, net: Subnet, v: View)
    requires ViewOk(net, v)
    ensures |WordsAll(e, FaCommands(net.fas, v.faBroadcast, v.target))| == FaWidth(net.fas, v.faBroadcast)
  {
    if net.fas != [] { FaCommandsWords(e, net.fas, v.faBroadcast, v.target); }
  }

  lemma PartWidths(e: Encoder, net: Subnet, v: View)
    requires ViewOk(net, v)
    ensures |WordsAll(e, FaCommands(net.fas, v.faBroadcast, v.target))| == FaWidth(net.fas, v.faBroadcast)
    ensures |WordsAll(e, HpCommands(net.hps, v.hpBroadcast))| == HpWidth(net.hps, v.hpBroadcast)
    ensures |WordsAll(e, HmCommands(net.hms))| == 18 * EnabledCount(net.hms)
    ensures |WordsAll(e, LvdtCommands(net.hms, v.lvdt))| == 6 * EnabledCount(net.hms)
  {
    FaPartWidth(e, net, v);
    if net.hps != [] { HpCommandsWords(e, net.hps, v.hpBroadcast); }
    HmCommandsWidth(e, net.hms);
    LvdtCommandsWidth(e, net.hms, v.lvdt);
  }

  lemma WordsAllFour(e: Encoder, a: seq<Command>, b: seq<Command>, c: seq<Command>, d: seq<Command>)
    ensures WordsAll(e, a + b + c + d) == WordsAll(e, a) + WordsAll(e, b) + WordsAll(e, c) + WordsAll(e, d)
  {
    WordsAllConcat(e, a, b);
    WordsAllConcat(e, a + b, c);
    WordsAllConcat(e, a + b + c, d);
  }

  /** The length of a frame body does not depend on the volatile values. */
  lemma BodyLength(e: Encoder, net: Subnet, v: View)
    requires ViewOk(net, v)
    ensures |BodyWords(e, net, v)| == BodyWidth(net, v)
  {
    WordsAllFour(e, FaCommands(net.fas, v.faBroadcast, v.target), HpCommands(net.hps, v.hpBroadcast),
                 HmCommands(net.hms), LvdtCommands(net.hms, v.lvdt));
    PartWidths(e, net, v);
  }

  lemma Regroup(a: Word, n: Word, fa: seq<Word>, hp: seq<Word>, hm: seq<Word>, lv: seq<Word>)
    ensures Wrap([a, n, WaitTriggerWord], fa, hp, hm, lv)
         == [a, n] + ([WaitTriggerWord] + (fa + hp + hm + lv) + [TriggerIrqWord])
  {
  }

  function FrameOf(address: Word, body: seq<Word>): seq<Word>
    requires |body| < 0x1_0000
  {
    [address, |body|] + body
  }

  /** A frame is its address, the length of its body and the body. */
  lemma FrameShape(e: Encoder, s: nat, net: Subnet, v: View)
    requires Fits(net, v)
    ensures |BodyWords(e, net, v)| == BodyWidth(net, v)
    ensures SubnetWords(e, s, net, v) == FrameOf(SubnetAddress(s), BodyWords(e, net, v))
    ensures |SubnetWords(e, s, net, v)| == 2 + BodyWidth(net, v)
  {
    BodyLength(e, net, v);
    WordsAllFour(e, FaCommands(net.fas, v.faBroadcast, v.target), HpCommands(net.hps, v.hpBroadcast),
                 HmCommands(net.hms), LvdtCommands(net.hms, v.lvdt));
    Regroup(SubnetAddress(s), BodyWidth(net, v), WordsAll(e, FaCommands(net.fas, v.faBroadcast, v.target)),
            WordsAll(e, HpCommands(net.hps, v.hpBroadcast)), WordsAll(e, HmCommands(net.hms)),
            WordsAll(e, LvdtCommands(net.hms, v.lvdt)));
  }

  lemma SubnetWidth(e: Encoder, s: nat, net: Subnet, v: View)
    requires Fits(net, v)
    ensures |SubnetWords(e, s, net, v)| == 2 + BodyWidth(net, v)
  {
    PartWidths(e, net, v);
  }

  // ----- patches -------------------------------------------------------------------------------

  lemma SpliceFa(head: seq<Word>, fa: seq<Word>, hp: seq<Word>, hm: seq<Word>, lv: seq<Word>, at: nat, m: seq<Word>)
    requires at + |m| <= |fa|
    ensures Splice(Wrap(head, fa, hp, hm, lv), |head| + at, m) == Wrap(head, Splice(fa, at, m), hp, hm, lv)
  {
    var b := hp + hm + lv + [TriggerIrqWord];
    SpliceInside(head, fa, b, at, m);
    assert Wrap(head, fa, hp, hm, lv) == head + fa + b;
    assert Wrap(head, Splice(fa, at, m), hp, hm, lv) == head + Splice(fa, at, m) + b;
  }

  lemma SpliceHp(head: seq<Word>, fa: seq<Word>, hp: seq<Word>, hm: seq<Word>, lv: seq<Word>, m: seq<Word>)
    requires |m| <= |hp|
    ensures Splice(Wrap(head, fa, hp, hm, lv), |head| + |fa|, m) == Wrap(head, fa, Splice(hp, 0, m), hm, lv)
  {
    var b := hm + lv + [TriggerIrqWord];
    SpliceInside(head + fa, hp, b, 0, m);
    assert Wrap(head, fa, hp, hm, lv) == (head + fa) + hp + b;
    assert Wrap(head, fa, Splice(hp, 0, m), hm, lv) == (head + fa) + Splice(hp, 0, m) + b;
  }

  lemma SpliceLvdt(head: seq<Word>, fa: seq<Word>, hp: seq<Word>, hm: seq<Word>, lv: seq<Word>, m: seq<Word>)
    requires |m| == |lv|
    ensures Splice(Wrap(head, fa, hp, hm, lv), |head| + |fa| + |hp| + |hm|, m) == Wrap(head, fa, hp, hm, m)
  {
    SpliceMiddle(head + fa + hp + hm, lv, [TriggerIrqWord], m);
  }

  lemma SpliceFirst(x: seq<Word>, y: seq<Word>, rest: seq<Word>)
    requires |x| == |y|
    ensures Splice(x + rest, 0, y) == y + rest
  {
  }

  lemma SpliceLast(a: seq<Word>, x: seq<Word>, y: seq<Word>)
    requires |x| == |y|
    ensures Splice(a + x, |a|, y) == a + y
  {
  }

  lemma PatchFaBroadcast(e: Encoder, s: nat, net: Subnet, v: View, c: Command)
    requires Fits(net, v) && net.fas != [] && Width(c) == Width(v.faBroadcast)
    ensures Fits(net, v.(faBroadcast := c))
    ensures 3 + Width(c) <= |SubnetWords(e, s, net, v)|
    ensures Splice(SubnetWords(e, s, net, v), 3, e(c)) == SubnetWords(e, s, net, v.(faBroadcast := c))
  {
    hide WordsAll, FaCommands, HpCommands, HmCommands, LvdtCommands;
    var h, fa := Head(s, net, v), WordsAll(e, FaCommands(net.fas, v.faBroadcast, v.target));
    var hp, hm := WordsAll(e, HpCommands(net.hps, v.hpBroadcast)), WordsAll(e, HmCommands(net.hms));
    var lv := WordsAll(e, LvdtCommands(net.hms, v.lvdt));
    FaBroadcastPart(e, net.fas, v.faBroadcast, v.target, c);
    SpliceFa(h, fa, hp, hm, lv, 0, e(c));
    assert SubnetWords(e, s, net, v.(faBroadcast := c))
        == Wrap(h, WordsAll(e, FaCommands(net.fas, c, v.target)), hp, hm, lv);
  }

  lemma FaBroadcastPart(e: Encoder, fas: seq<Ilc>, broadcast: Command, target: nat, c: Command)
    requires target < |fas| && Width(c) == Width(broadcast)
    ensures Width(c) <= |WordsAll(e, FaCommands(fas, broadcast, target))|
    ensures Splice(WordsAll(e, FaCommands(fas, broadcast, target)), 0, e(c)) == WordsAll(e, FaCommands(fas, c, target))
  {
    hide WordsAll, FaCommands, Queries, Splice;
    FaCommandsWords(e, fas, broadcast, target);
    FaCommandsWords(e, fas, c, target);
    var ts, qs, st := e(Timestamp), WordsAll(e, Queries(ForceStatus, fas)), e(Query(ServerStatus, fas[target].address));
    SpliceFirst(e(broadcast), e(c), ts + qs + st);
    Assoc4(e(broadcast), ts, qs, st);
    Assoc4(e(c), ts, qs, st);
  }

  lemma Assoc4(a: seq<Word>, b: seq<Word>, c: seq<Word>, d: seq<Word>)
    ensures a + b + c + d == a + (b + c + d)
  {
  }

  lemma PatchTarget(e: Encoder, s: nat, net: Subnet, v: View, target: nat)
    requires Fits(net, v) && net.fas != [] && target < |net.fas|
    ensures Fits(net, v.(target := target))
    ensures StatusOffset(net, v) + 6 <= |SubnetWords(e, s, net, v)|
    ensures Splice(SubnetWords(e, s, net, v), StatusOffset(net, v), e(Query(ServerStatus, net.fas[target].address)))
         == SubnetWords(e, s, net, v.(target := target))
  {
    hide WordsAll, FaCommands, HpCommands, HmCommands, LvdtCommands;
    var h, fa := Head(s, net, v), WordsAll(e, FaCommands(net.fas, v.faBroadcast, v.target));
    var hp, hm := WordsAll(e, HpCommands(net.hps, v.hpBroadcast)), WordsAll(e, HmCommands(net.hms));
    var lv := WordsAll(e, LvdtCommands(net.hms, v.lvdt));
    TargetPart(e, net.fas, v.faBroadcast, v.target, target);
    SpliceFa(h, fa, hp, hm, lv, StatusOffset(net, v) - 3, e(Query(ServerStatus, net.fas[target].address)));
    assert SubnetWords(e, s, net, v.(target := target))
        == Wrap(h, WordsAll(e, FaCommands(net.fas, v.faBroadcast, target)), hp, hm, lv);
  }

  lemma TargetPart(e: Encoder, fas: seq<Ilc>, broadcast: Command, was: nat, target: nat)
    requires was < |fas| && target < |fas|
    ensures Width(broadcast) + 1 + 6 * EnabledCount(fas) + 6 == |WordsAll(e, FaCommands(fas, broadcast, was))|
    ensures Splice(WordsAll(e, FaCommands(fas, broadcast, was)), Width(broadcast) + 1 + 6 * EnabledCount(fas),
                   e(Query(ServerStatus, fas[target].address)))
         == WordsAll(e, FaCommands(fas, broadcast, target))
  {
    hide WordsAll, FaCommands, EnabledCount, Queries, Splice;
    FaCommandsWords(e, fas, broadcast, was);
    FaCommandsWords(e, fas, broadcast, target);
    QueriesWidth(e, ForceStatus, fas);
    var a := e(broadcast) + e(Timestamp) + WordsAll(e, Queries(ForceStatus, fas));
    var x, y := e(Query(ServerStatus, fas[was].address)), e(Query(ServerStatus, fas[target].address));
    assert |a| == Width(broadcast) + 1 + 6 * EnabledCount(fas);
    SpliceLast(a, x, y);
  }

  lemma PatchHpBroadcast(e: Encoder, s: nat, net: Subnet, v: View, c: Command)
    requires Fits(net, v) && net.hps != [] && Width(c) == Width(v.hpBroadcast)
    ensures Fits(net, v.(hpBroadcast := c))
    ensures HpOffset(net, v) + Width(c) <= |SubnetWords(e, s, net, v)|
    ensures Splice(SubnetWords(e, s, net, v), HpOffset(net, v), e(c))
         == SubnetWords(e, s, net, v.(hpBroadcast := c))
  {
    hide WordsAll, FaCommands, HpCommands, HmCommands, LvdtCommands;
    var h, fa := Head(s, net, v), WordsAll(e, FaCommands(net.fas, v.faBroadcast, v.target));
    var hp, hm := WordsAll(e, HpCommands(net.hps, v.hpBroadcast)), WordsAll(e, HmCommands(net.hms));
    var lv := WordsAll(e, LvdtCommands(net.hms, v.lvdt));
    FaPartWidth(e, net, v);
    HpBroadcastPart(e, net.hps, v.hpBroadcast, c);
    SpliceHp(h, fa, hp, hm, lv, e(c));
    assert SubnetWords(e, s, net, v.(hpBroadcast := c))
        == Wrap(h, fa, WordsAll(e, HpCommands(net.hps, c)), hm, lv);
  }

  lemma HpBroadcastPart(e: Encoder, hps: seq<Ilc>, broadcast: Command, c: Command)
    requires hps != [] && Width(c) == Width(broadcast)
    ensures Width(c) <= |WordsAll(e, HpCommands(hps, broadcast))|
    ensures Splice(WordsAll(e, HpCommands(hps, broadcast)), 0, e(c)) == WordsAll(e, HpCommands(hps, c))
  {
    hide WordsAll, HpCommands, HpQueries, Splice;
    HpCommandsWords(e, hps, broadcast);
    HpCommandsWords(e, hps, c);
    var ts, qs := e(Timestamp), WordsAll(e, HpQueries(hps));
    SpliceFirst(e(broadcast), e(c), ts + qs);
    Assoc(e(broadcast), ts, qs);
    Assoc(e(c), ts, qs);
  }

  lemma PatchLvdt(e: Encoder, s: nat, net: Subnet, v: View, sampled: bool)
    requires Fits(net, v)
    ensures Fits(net, v.(lvdt := sampled))
    ensures |WordsAll(e, LvdtCommands(net.hms, sampled))| == 6 * EnabledCount(net.hms)
    ensures LvdtOffset(net, v) + 6 * EnabledCount(net.hms) <= |SubnetWords(e, s, net, v)|
    ensures Splice(SubnetWords(e, s, net, v), LvdtOffset(net, v), WordsAll(e, LvdtCommands(net.hms, sampled)))
         == SubnetWords(e, s, net, v.(lvdt := sampled))
  {
    hide WordsAll, FaCommands, HpCommands, HmCommands, LvdtCommands;
    var h, fa := Head(s, net, v), WordsAll(e, FaCommands(net.fas, v.faBroadcast, v.target));
    var hp, hm := WordsAll(e, HpCommands(net.hps, v.hpBroadcast)), WordsAll(e, HmCommands(net.hms));
    var lv, lv' := WordsAll(e, LvdtCommands(net.hms, v.lvdt)), WordsAll(e, LvdtCommands(net.hms, sampled));
    PartWidths(e, net, v);
    LvdtCommandsWidth(e, net.hms, sampled);
    SpliceLvdt(h, fa, hp, hm, lv, lv');
    assert SubnetWords(e, s, net, v.(lvdt := sampled)) == Wrap(h, fa, hp, hm, lv');
  }

  /** Replacing the frame of one subnet by a frame of the same length. */
  lemma PatchSubnet(e: Encoder, nets: seq<Subnet>, views: seq<View>, s: nat, v': View, at: nat, m: seq<Word>)
    requires AllFit(nets, views) && s < |nets|
    requires Fits(nets[s], v') && at + |m| <= |SubnetWords(e, s, nets[s], views[s])|
    requires Splice(SubnetWords(e, s, nets[s], views[s]), at, m) == SubnetWords(e, s, nets[s], v')
    ensures AllFit(nets, views[s := v'])
    ensures Start(nets, views, s) + at + |m| <= |Render(e, nets, views)|
    ensures Splice(Render(e, nets, views), Start(nets, views, s) + at, m) == Render(e, nets, views[s := v'])
  {
    hide SubnetWords, Splice, Flatten;
    var frames, frames' := SubnetFrames(e, nets, views), SubnetFrames(e, nets, views[s := v']);
    StartOffset(e, nets, views, s);
    FramesUpdate(e, nets, views, s, v');
    PatchFrame(frames, frames', s, Start(nets, views, s) + at, at, m);
  }

  lemma PatchFrame(frames: seq<seq<Word>>, frames': seq<seq<Word>>, s: nat, pos: nat, at: nat, m: seq<Word>)
    requires s < |frames| && at + |m| <= |frames[s]|
    requires frames' == frames[s := Splice(frames[s], at, m)]
    requires pos == Offset(frames, s) + at
    ensures pos + |m| <= |Flatten(frames)|
    ensures Splice(Flatten(frames), pos, m) == Flatten(frames')
  {
    FlattenPatch(frames, s, at, m);
  }

  lemma StartOffset(e: Encoder, nets: seq<Subnet>, views: seq<View>, s: nat)
    requires AllFit(nets, views) && s <= |nets|
    ensures Start(nets, views, s) == Offset(SubnetFrames(e, nets, views), s)
  {
    FrameLengths(e, nets, views);
    StartIs(nets, views, s, SubnetFrames(e, nets, views));
  }

  lemma FramesUpdate(e: Encoder, nets: seq<Subnet>, views: seq<View>, s: nat, v': View)
    requires AllFit(nets, views) && s < |nets| && Fits(nets[s], v')
    ensures AllFit(nets, views[s := v'])
    ensures SubnetFrames(e, nets, views[s := v'])
         == SubnetFrames(e, nets, views)[s := SubnetWords(e, s, nets[s], v')]
  {
  }

  lemma FrameLengths(e: Encoder, nets: seq<Subnet>, views: seq<View>)
    requires AllFit(nets, views)
    ensures forall i :: 0 <= i < |nets| ==> |SubnetFrames(e, nets, views)[i]| == 2 + BodyWidth(nets[i], views[i])
  {
    forall i | 0 <= i < |nets|
      ensures |SubnetFrames(e, nets, views)[i]| == 2 + BodyWidth(nets[i], views[i])
    {
      SubnetWidth(e, i, nets[i], views[i]);
    }
  }

  lemma {:induction false} StartIs(nets: seq<Subnet>, views: seq<View>, s: nat, frames: seq<seq<Word>>)
    requires |nets| == |views| == |frames| && s <= |nets|
    requires forall i :: 0 <= i < |nets| ==> |frames[i]| == 2 + BodyWidth(nets[i], views[i])
    ensures Start(nets, views, s) == Offset(frames, s)
  {
    if s > 0 {
      StartIs(nets, views, s - 1, frames);
    }
  }

  // ----- reading the buffer back ---------------------------------------------------------------

  datatype Frame = Frame(address: Word, body: seq<Word>)

  /** Splits a buffer into length-prefixed frames; fails on a length that runs past the end. */
  function Parse(ws: seq<Word>): (r: (bool, seq<Frame>)) {
    if ws == [] then (true, [])
    else if |ws| < 2 || |ws| - 2 < ws[1] then (false, [])
    else
      var end: int := 2 + ws[1] as int;
      var rest := Parse(ws[end..]);
      (rest.0, [Frame(ws[0], ws[2..end])] + rest.1)
  }

  /** Parsing undoes framing, for any frames. */
  lemma {:induction false} ParseFrames(frames: seq<Frame>, parts: seq<seq<Word>>)
    requires |parts| == |frames|
    requires forall i :: 0 <= i < |frames| ==>
               |frames[i].body| < 0x1_0000 && parts[i] == FrameOf(frames[i].address, frames[i].body)
    ensures Parse(Flatten(parts)) == (true, frames)
    decreases |frames|
  {
    if frames != [] {
      ParseFrames(frames[1..], parts[1..]);
      ParseOne(frames[0].address, frames[0].body, Flatten(parts[1..]));
      assert frames == [Frame(frames[0].address, frames[0].body)] + frames[1..];
    }
  }

  lemma ParseOne(address: Word, body: seq<Word>, rest: seq<Word>)
    requires |body| < 0x1_0000
    ensures Parse(FrameOf(address, body) + rest)
         == (Parse(rest).0, [Frame(address, body)] + Parse(rest).1)
  {
    var ws := FrameOf(address, body) + rest;
    assert ws[2..2 + |body|] == body && ws[2 + |body|..] == rest;
  }

  function Frames(e: Encoder, nets: seq<Subnet>, views: seq<View>): (fs: seq<Frame>)
    requires AllFit(nets, views)
    ensures |fs| == |nets|
  {
    seq(|nets|, s requires 0 <= s < |nets| => Frame(SubnetAddress(s), BodyWords(e, nets[s], views[s])))
  }

  lemma FramesAreFramed(e: Encoder, nets: seq<Subnet>, views: seq<View>)
    requires AllFit(nets, views)
    ensures forall s :: 0 <= s < |nets| ==>
              var frame := Frames(e, nets, views)[s];
              |frame.body| < 0x1_0000 && SubnetFrames(e, nets, views)[s] == FrameOf(frame.address, frame.body)
  {
    forall s | 0 <= s < |nets|
      ensures |BodyWords(e, nets[s], views[s])| < 0x1_0000
      ensures SubnetWords(e, s, nets[s], views[s]) == FrameOf(SubnetAddress(s), BodyWords(e, nets[s], views[s]))
    {
      FrameShape(e, s, nets[s], views[s]);
    }
  }

  /** The FPGA finds exactly the five subnet frames A to E, in order and nothing else. */
  lemma ParsesToFiveFrames(e: Encoder, nets: seq<Subnet>, views: seq<View>)
    requires AllFit(nets, views) && |nets| == SubnetCount
    ensures Parse(Render(e, nets, views)) == (true, Frames(e, nets, views))
    ensures forall s :: 0 <= s < SubnetCount ==>
              Frames(e, nets, views)[s] == Frame([9, 10, 11, 12, 17][s], BodyWords(e, nets[s], views[s]))
  {
    hide SubnetWords, BodyWords, Flatten;
    var frames, parts := Frames(e, nets, views), SubnetFrames(e, nets, views);
    FramesAreFramed(e, nets, views);
    ParseFrames(frames, parts);
  }

  /** Running the body of a frame transmits its commands in order, each with a valid CRC. */
  lemma BodyTransmits(t: Timing, net: Subnet, v: View)
    requires ViewOk(net, v)
    ensures Scan(BodyWords(IlcEncoder(t), net, v), []) == TransmittedAll(SubnetCommands(net, v))
  {
    hide WordsAll, SubnetCommands, TransmittedAll;
    var ws := WordsAll(IlcEncoder(t), SubnetCommands(net, v));
    var body := BodyWords(IlcEncoder(t), net, v);
    assert body[1..] == ws + [TriggerIrqWord];
    assert Scan(body, []) == Scan(ws + [TriggerIrqWord], []);
    TriggerScans();
    assert Scan(ws + [TriggerIrqWord], []) == TransmittedAll(SubnetCommands(net, v)) + Scan([TriggerIrqWord], []) by {
      hide Scan;
      ScanWords(t, SubnetCommands(net, v), [TriggerIrqWord]);
    }
  }

  lemma TriggerScans()
    ensures Scan([TriggerIrqWord], []) == []
  {
    assert [TriggerIrqWord][1..] == [];
  }

  /** The instructions around the commands of a frame: a wait for the trigger first, a time stamp after each broadcast,
      and the interrupt last. */
  lemma BodyInstructions(e: Encoder, net: Subnet, v: View)
    requires ViewOk(net, v) && e(Timestamp) == [0x3000]
    ensures var body := BodyWords(e, net, v);
            && |body| >= 2 && body[0] == 0x8000 && body[|body| - 1] == 0x7000
            && (net.fas != [] ==> 1 + Width(v.faBroadcast) < |body| && body[1 + Width(v.faBroadcast)] == 0x3000)
            && (net.hps != [] ==>
                  var at := 1 + FaWidth(net.fas, v.faBroadcast) + Width(v.hpBroadcast);
                  at < |body| && body[at] == 0x3000)
  {
    hide WordsAll, FaCommands, HpCommands, HmCommands, LvdtCommands;
    var fa, hp := FaCommands(net.fas, v.faBroadcast, v.target), HpCommands(net.hps, v.hpBroadcast);
    var hm, lv := HmCommands(net.hms), LvdtCommands(net.hms, v.lvdt);
    WordsAllFour(e, fa, hp, hm, lv);
    FaPartWidth(e, net, v);
    if net.fas != [] { FaCommandsWords(e, net.fas, v.faBroadcast, v.target); }
    if net.hps != [] { HpCommandsWords(e, net.hps, v.hpBroadcast); }
  }
}
