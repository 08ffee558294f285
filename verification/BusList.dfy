/** The bus lists as objects: a buffer built once, then patched in place every control cycle.
    RaisedBusList, ActiveBusList and FreezeSensorBusList share their statements except for the
    broadcasts, so one class with a `kind` stands for the three. */
module BusLists {
  import opened Sequences
  import opened Modbus
  import opened ModbusBuffers
  import opened BusLayout
  import opened BusInputs
  import opened RoundRobin
  import opened Accounting
  import Wire

  /** The published outer loop data; its broadcast counter is shared by all bus lists. */
  class OuterLoop {
    var broadcastCounter: Byte

    constructor ()
      ensures broadcastCounter == 0
    {
      broadcastCounter := 0;
    }
  }

  // ----- layout that depends on the list kind and the topology only --------------------------------

  function StatusAt(kind: ListKind, net: Subnet): nat { 3 + FaBroadcastWidth(kind) + 1 + 6 * EnabledCount(net.fas) }

  function FaSpan(kind: ListKind, net: Subnet): nat {
    if net.fas == [] then 0 else FaBroadcastWidth(kind) + 1 + 6 * EnabledCount(net.fas) + 6
  }

  function HpSpan(kind: ListKind, net: Subnet): nat {
    if net.hps == [] then 0 else HpBroadcastWidth(kind) + 1 + 12 * EnabledCount(net.hps)
  }

  function HpAt(kind: ListKind, net: Subnet): nat { 3 + FaSpan(kind, net) }

  function LvdtAt(kind: ListKind, net: Subnet): nat {
    3 + FaSpan(kind, net) + HpSpan(kind, net) + 18 * EnabledCount(net.hms)
  }

  function Span(kind: ListKind, net: Subnet): nat { LvdtAt(kind, net) + 6 * EnabledCount(net.hms) + 1 }

  function StartOf(kind: ListKind, nets: seq<Subnet>, s: nat): nat
    requires s <= |nets|
  {
    if s == 0 then 0 else StartOf(kind, nets, s - 1) + Span(kind, nets[s - 1])
  }

  ghost predicate ViewFine(kind: ListKind, net: Subnet, v: View) {
    && ViewOk(net, v) && ViewSound(net, v)
    && Width(v.faBroadcast) == FaBroadcastWidth(kind) && Width(v.hpBroadcast) == HpBroadcastWidth(kind)
  }

  ghost predicate ViewsFine(kind: ListKind, nets: seq<Subnet>, views: seq<View>) {
    |views| == |nets| && forall s :: 0 <= s < |nets| ==> ViewFine(kind, nets[s], views[s])
  }

  lemma SpanIs(kind: ListKind, net: Subnet, v: View)
    requires ViewFine(kind, net, v)
    ensures Span(kind, net) == 2 + BodyWidth(net, v)
    ensures net.fas != [] ==> StatusAt(kind, net) == StatusOffset(net, v)
    ensures HpAt(kind, net) == HpOffset(net, v)
    ensures LvdtAt(kind, net) == LvdtOffset(net, v)
  {
  }

  lemma {:induction false} StartOfIs(kind: ListKind, nets: seq<Subnet>, views: seq<View>, s: nat)
    requires ViewsFine(kind, nets, views) && s <= |nets|
    ensures StartOf(kind, nets, s) == Start(nets, views, s)
  {
    if s > 0 {
      StartOfIs(kind, nets, views, s - 1);
      SpanIs(kind, nets[s - 1], views[s - 1]);
    }
  }

  lemma {:induction false} StartOfGrows(kind: ListKind, nets: seq<Subnet>, s: nat, n: nat)
    requires s <= n <= |nets|
    ensures StartOf(kind, nets, s) <= StartOf(kind, nets, n)
    decreases n - s
  {
    if s < n { StartOfGrows(kind, nets, s + 1, n); }
  }

  lemma ViewsFit(kind: ListKind, nets: seq<Subnet>, views: seq<View>)
    requires ViewsFine(kind, nets, views) && StartOf(kind, nets, |nets|) <= BufferSize
    ensures AllFit(nets, views)
  {
    forall s | 0 <= s < |nets|
      ensures Fits(nets[s], views[s])
    {
      StartOfGrows(kind, nets, s + 1, |nets|);
      SpanIs(kind, nets[s], views[s]);
    }
  }

  lemma RenderLength(e: Encoder, kind: ListKind, nets: seq<Subnet>, views: seq<View>)
    requires ViewsFine(kind, nets, views) && AllFit(nets, views)
    ensures |Render(e, nets, views)| == StartOf(kind, nets, |nets|)
  {
    hide SubnetWords;
    StartOffset(e, nets, views, |nets|);
    StartOfIs(kind, nets, views, |nets|);
    var frames := SubnetFrames(e, nets, views);
    OffsetIs(frames, |nets|);
    assert frames[..|nets|] == frames;
  }

  // ----- topology ------------------------------------------------------------------------------------

  /** Devices of two subnets have distinct data indices, as do two devices of one subnet. */
  ghost predicate DistinctData(a: seq<Ilc>, b: seq<Ilc>, same: bool) {
    forall j, k :: 0 <= j < |a| && 0 <= k < |b| && !(same && j == k) ==> a[j].dataIndex != b[k].dataIndex
  }

  ghost predicate NetsOk(nets: seq<Subnet>) {
    && |nets| == SubnetCount
    && (forall s :: 0 <= s < |nets| ==> NetOk(nets[s]))
    && (forall s, r :: 0 <= s < |nets| && 0 <= r < |nets| ==> DistinctData(nets[s].fas, nets[r].fas, s == r))
    && (forall s, r :: 0 <= s < |nets| && 0 <= r < |nets| ==> DistinctData(nets[s].hps, nets[r].hps, s == r))
    && (forall s, r :: 0 <= s < |nets| && 0 <= r < |nets| ==> DistinctData(nets[s].hms, nets[r].hms, s == r))
  }

  lemma NetsFacts(nets: seq<Subnet>, s: nat)
    requires NetsOk(nets) && s < |nets|
    ensures forall r :: 0 <= r < |nets| ==> NetOk(nets[r])
  {
  }

  /** The expected response entries of the first `n` subnets are right for the views, the others zero. */
  ghost predicate FaCounted(nets: seq<Subnet>, views: seq<View>, fa: seq<int>, n: nat)
    requires |nets| == |views| && |fa| == FaCount && forall s :: 0 <= s < |nets| ==> NetOk(nets[s])
  {
    forall s, j :: 0 <= s < |nets| && 0 <= j < |nets[s].fas| ==>
      FaOk(nets[s].fas[j]) &&
      fa[nets[s].fas[j].dataIndex] == if s < n then FaExpected(nets[s], views[s].target, j) else 0
  }

  ghost predicate HpCounted(nets: seq<Subnet>, hp: seq<int>, n: nat)
    requires |hp| == HpCount && forall s :: 0 <= s < |nets| ==> NetOk(nets[s])
  {
    forall s, j :: 0 <= s < |nets| && 0 <= j < |nets[s].hps| ==>
      HpOk(nets[s].hps[j]) && hp[nets[s].hps[j].dataIndex] == if s < n then HpExpected(nets[s], j) else 0
  }

  ghost predicate HmCounted(nets: seq<Subnet>, views: seq<View>, hm: seq<int>, n: nat)
    requires |nets| == |views| && |hm| == HpCount && forall s :: 0 <= s < |nets| ==> NetOk(nets[s])
  {
    forall s, j :: 0 <= s < |nets| && 0 <= j < |nets[s].hms| ==>
      HmOk(nets[s].hms[j]) &&
      hm[nets[s].hms[j].dataIndex] == if s < n then HmExpected(nets[s], views[s].lvdt, j) else 0
  }

  /** No device of the list uses data index `d`. */
  ghost predicate Foreign(devices: seq<Ilc>, d: int) {
    forall j :: 0 <= j < |devices| ==> devices[j].dataIndex != d
  }

  /** Response counts after `value` has been entered for each enabled device. */
  function Mark(counts: seq<int>, devices: seq<Ilc>, value: int): (r: seq<int>)
    requires forall j :: 0 <= j < |devices| ==> devices[j].dataIndex < |counts|
    ensures |r| == |counts|
  {
    if devices == [] then counts
    else
      var last := devices[|devices| - 1];
      var rest := Mark(counts, devices[..|devices| - 1], value);
      if last.disabled then rest else rest[last.dataIndex := value]
  }

  lemma {:induction false} MarkEffect(counts: seq<int>, devices: seq<Ilc>, value: int)
    requires forall j :: 0 <= j < |devices| ==> devices[j].dataIndex < |counts|
    requires DistinctData(devices, devices, true)
    ensures forall j :: 0 <= j < |devices| ==>
              Mark(counts, devices, value)[devices[j].dataIndex]
              == if devices[j].disabled then counts[devices[j].dataIndex] else value
    ensures forall d :: 0 <= d < |counts| && Foreign(devices, d) ==> Mark(counts, devices, value)[d] == counts[d]
  {
    if devices != [] {
      var front := devices[..|devices| - 1];
      MarkEffect(counts, front, value);
      assert Foreign(front, devices[|devices| - 1].dataIndex);
      forall d | 0 <= d < |counts| && Foreign(devices, d)
        ensures Mark(counts, devices, value)[d] == counts[d]
      {
        assert Foreign(front, d);
        assert devices[|devices| - 1].dataIndex != d;
      }
    }
  }

  lemma NoDevices(e: Encoder, p: seq<Word>, v: View, fa: seq<int>, hp: seq<int>)
    ensures p + WordsAll(e, FaCommands([], v.faBroadcast, v.target)) == p
    ensures p + WordsAll(e, HpCommands([], v.hpBroadcast)) == p
    ensures Mark(fa, [], 1) == fa && Mark(hp, [], 2) == hp
  {
  }

  lemma NoMonitors(e: Encoder, p: seq<Word>)
    ensures p + WordsAll(e, LvdtCommands([], false)) == p && EnabledCount([]) == 0
  {
  }

  /** A subnet on which the freeze list's single index table serves two broadcasts. */
  predicate Mixed(kind: ListKind, net: Subnet) {
    kind.Freeze? && net.fas != [] && net.hps != []
  }

  /** What one update makes of a subnet's view. */
  function NextView(kind: ListKind, counter: Byte, i: Inputs, net: Subnet, v: View, sampled: bool): View
    requires InputsOk(i) && NetOk(net) && ViewOk(net, v)
  {
    View(if net.fas == [] || Mixed(kind, net) then v.faBroadcast else FaBroadcast(kind, counter, i, net.fas),
         if net.fas == [] then v.target else Next(net.fas, v.target),
         if net.hps == [] then v.hpBroadcast
         else if Mixed(kind, net) then PneumaticFreeze(counter)
         else HpBroadcast(kind, counter, i, net.hps),
         if net.hms == [] then v.lvdt else sampled)
  }

  /** What one update makes of the whole buffer, the sampling clock having started at `clock`. */
  function NextViews(kind: ListKind, counter: Byte, i: Inputs, nets: seq<Subnet>, views: seq<View>,
                     clock: int): (vs: seq<View>)
    requires InputsOk(i) && |nets| == |views|
    requires forall s :: 0 <= s < |nets| ==> NetOk(nets[s]) && ViewOk(nets[s], views[s])
    ensures |vs| == |views|
  {
    seq(|nets|, s requires 0 <= s < |nets| =>
      NextView(kind, counter, i, nets[s], views[s], ClockAt(nets, clock, s) == 0))
  }

  function FirstTarget(net: Subnet): nat
    requires NetOk(net)
  {
    if net.fas == [] then 0 else Skip(net.fas, 0)
  }

  /** The force actuator counts buildBuffer enters for a subnet. */
  function FaMarked(counts: seq<int>, net: Subnet): (r: seq<int>)
    requires NetOk(net) && |counts| == FaCount
    ensures |r| == |counts|
  {
    if net.fas == [] then counts else Mark(counts, net.fas, 1)[net.fas[FirstTarget(net)].dataIndex := 2]
  }

  lemma FaCountedStep(nets: seq<Subnet>, views: seq<View>, fa: seq<int>, s: nat)
    requires NetsOk(nets) && |views| == |nets| && |fa| == FaCount && s < |nets|
    requires views[s].target == FirstTarget(nets[s]) && FaCounted(nets, views, fa, s)
    ensures FaCounted(nets, views, FaMarked(fa, nets[s]), s + 1)
  {
    hide Skip, Mark, EnabledCount;
    var net := nets[s];
    assert DistinctData(net.fas, net.fas, true);
    MarkEffect(fa, net.fas, 1);
    forall r, j | 0 <= r < |nets| && 0 <= j < |nets[r].fas| && r != s
      ensures FaMarked(fa, net)[nets[r].fas[j].dataIndex] == fa[nets[r].fas[j].dataIndex]
    {
      assert DistinctData(net.fas, nets[r].fas, false);
      assert Foreign(net.fas, nets[r].fas[j].dataIndex);
    }
  }

  lemma HpCountedStep(nets: seq<Subnet>, hp: seq<int>, s: nat)
    requires NetsOk(nets) && |hp| == HpCount && s < |nets| && HpCounted(nets, hp, s)
    ensures HpCounted(nets, Mark(hp, nets[s].hps, 2), s + 1)
  {
    hide Mark;
    assert DistinctData(nets[s].hps, nets[s].hps, true);
    MarkEffect(hp, nets[s].hps, 2);
    forall r, j | 0 <= r < |nets| && 0 <= j < |nets[r].hps| && r != s
      ensures Mark(hp, nets[s].hps, 2)[nets[r].hps[j].dataIndex] == hp[nets[r].hps[j].dataIndex]
    {
      assert DistinctData(nets[s].hps, nets[r].hps, false);
      assert Foreign(nets[s].hps, nets[r].hps[j].dataIndex);
    }
  }

  lemma HmCountedStep(nets: seq<Subnet>, views: seq<View>, hm: seq<int>, s: nat)
    requires NetsOk(nets) && |views| == |nets| && |hm| == HpCount && s < |nets|
    requires !views[s].lvdt && HmCounted(nets, views, hm, s)
    ensures HmCounted(nets, views, Mark(hm, nets[s].hms, 3), s + 1)
  {
    hide Mark;
    assert DistinctData(nets[s].hms, nets[s].hms, true);
    MarkEffect(hm, nets[s].hms, 3);
    forall r, j | 0 <= r < |nets| && 0 <= j < |nets[r].hms| && r != s
      ensures Mark(hm, nets[s].hms, 3)[nets[r].hms[j].dataIndex] == hm[nets[r].hms[j].dataIndex]
    {
      assert DistinctData(nets[s].hms, nets[r].hms, false);
      assert Foreign(nets[s].hms, nets[r].hms[j].dataIndex);
    }
  }

  lemma StartOfStep(kind: ListKind, nets: seq<Subnet>, s: nat)
    requires s < |nets|
    ensures StartOf(kind, nets, s + 1) == StartOf(kind, nets, s) + Span(kind, nets[s])
  {
  }

  /** The first `s` frames of the rendering. */
  function FramesBefore(e: Encoder, nets: seq<Subnet>, views: seq<View>, s: nat): seq<Word>
    requires AllFit(nets, views) && s <= |nets|
  {
    Flatten(SubnetFrames(e, nets, views)[..s])
  }

  lemma FramesBeforeStep(e: Encoder, nets: seq<Subnet>, views: seq<View>, s: nat)
    requires AllFit(nets, views) && s < |nets|
    ensures FramesBefore(e, nets, views, s + 1)
         == FramesBefore(e, nets, views, s) + SubnetWords(e, s, nets[s], views[s])
  {
    hide SubnetWords;
    var frames := SubnetFrames(e, nets, views);
    assert frames[..s + 1] == frames[..s] + [frames[s]];
    FlattenConcat(frames[..s], [frames[s]]);
    FlattenOne(frames[s]);
  }

  lemma FramesBeforeEnds(e: Encoder, nets: seq<Subnet>, views: seq<View>, n: nat)
    requires AllFit(nets, views) && n == |nets|
    ensures FramesBefore(e, nets, views, 0) == []
    ensures FramesBefore(e, nets, views, n) == Render(e, nets, views)
  {
    hide SubnetWords;
    var frames := SubnetFrames(e, nets, views);
    assert frames[..0] == [] && frames[..n] == frames;
  }

  lemma StartOfZero(kind: ListKind, nets: seq<Subnet>)
    ensures StartOf(kind, nets, 0) == 0
  {
  }

  lemma ZeroCounted(nets: seq<Subnet>, views: seq<View>, fa: seq<int>, hp: seq<int>, hm: seq<int>)
    requires NetsOk(nets) && |views| == |nets| && |fa| == FaCount && |hp| == HpCount && |hm| == HpCount
    requires forall d :: 0 <= d < FaCount ==> fa[d] == 0
    requires forall d :: 0 <= d < HpCount ==> hp[d] == 0 && hm[d] == 0
    ensures FaCounted(nets, views, fa, 0) && HpCounted(nets, hp, 0) && HmCounted(nets, views, hm, 0)
  {
    hide DistinctData, FaExpected, HpExpected, HmExpected;
  }

  lemma FirstViewIs(kind: ListKind, counter: Byte, i: Inputs, nets: seq<Subnet>, s: nat)
    requires InputsOk(i) && s < |nets| && forall r :: 0 <= r < |nets| ==> NetOk(nets[r])
    ensures FirstViews(kind, counter, i, nets)[s] == FreshView(kind, counter, i, nets[s], FirstTarget(nets[s]), false)
    ensures FirstViews(kind, counter, i, nets)[s].target == FirstTarget(nets[s])
    ensures !FirstViews(kind, counter, i, nets)[s].lvdt
  {
  }

  /** What buildBuffer renders. */
  function FirstViews(kind: ListKind, counter: Byte, i: Inputs, nets: seq<Subnet>): (vs: seq<View>)
    requires InputsOk(i) && forall s :: 0 <= s < |nets| ==> NetOk(nets[s])
    ensures ViewsFine(kind, nets, vs)
  {
    seq(|nets|, s requires 0 <= s < |nets| => FreshView(kind, counter, i, nets[s], FirstTarget(nets[s]), false))
  }

  lemma EnabledPrefix(devices: seq<Ilc>, j: nat)
    requires j <= |devices|
    ensures EnabledCount(devices[..j]) <= EnabledCount(devices)
    ensures j < |devices| && !devices[j].disabled ==> EnabledCount(devices[..j]) < EnabledCount(devices)
    ensures j < |devices| ==>
              EnabledCount(devices[..j + 1]) == EnabledCount(devices[..j]) + if devices[j].disabled then 0 else 1
  {
    assert devices[..|devices|] == devices;
    RankMonotone(devices, j, |devices|);
    if j < |devices| {
      RankStep(devices, j);
      RankMonotone(devices, j + 1, |devices|);
    }
  }

  lemma HpQueryStep(hps: seq<Ilc>, j: nat)
    requires j <= |hps|
    ensures HpQueries([]) == []
    ensures j < |hps| ==>
              var a := hps[j].address;
              HpQueries(hps[..j + 1])
              == if hps[j].disabled then HpQueries(hps[..j])
                 else HpQueries(hps[..j]) + [Query(HardpointStatus, a), Query(ServerStatus, a)]
  {
    if j < |hps| {
      PrefixStep(hps, j);
      if hps[j].disabled { assert HpQueries(hps[..j]) + [] == HpQueries(hps[..j]); }
    }
  }

  lemma MarkStep(counts: seq<int>, devices: seq<Ilc>, j: nat, value: int)
    requires j <= |devices| && forall k :: 0 <= k < |devices| ==> devices[k].dataIndex < |counts|
    ensures Mark(counts, [], value) == counts
    ensures j < |devices| ==>
              Mark(counts, devices[..j + 1], value)
              == if devices[j].disabled then Mark(counts, devices[..j], value)
                 else Mark(counts, devices[..j], value)[devices[j].dataIndex := value]
  {
    if j < |devices| {
      PrefixStep(devices, j);
    }
  }

  lemma PrefixStep<T>(s: seq<T>, j: nat)
    requires j < |s|
    ensures s[..j + 1][..j] == s[..j] && s[..j + 1][j] == s[j]
  {
  }

  /** One in-place write that patches subnet `s` patches the rendering. */
  lemma AfterPatch(e: Encoder, kind: ListKind, nets: seq<Subnet>, views: seq<View>, s: nat, v': View,
                   at: nat, m: seq<Word>, before: seq<Word>, length: nat)
    requires ViewsFine(kind, nets, views) && AllFit(nets, views) && s < |nets|
    requires Fits(nets[s], v') && ViewFine(kind, nets[s], v') && at + |m| <= |SubnetWords(e, s, nets[s], views[s])|
    requires Splice(SubnetWords(e, s, nets[s], views[s]), at, m) == SubnetWords(e, s, nets[s], v')
    requires length <= |before| && before[..length] == Render(e, nets, views)
    ensures AllFit(nets, views[s := v']) && ViewsFine(kind, nets, views[s := v'])
    ensures StartOf(kind, nets, s) + at + |m| <= length
    ensures Splice(before, StartOf(kind, nets, s) + at, m)[..length] == Render(e, nets, views[s := v'])
  {
    hide SubnetWords, Render, Start, StartOf, BodyWidth;
    StartOfIs(kind, nets, views, s);
    PatchSubnet(e, nets, views, s, v', at, m);
    SplicePart(before, length, StartOf(kind, nets, s) + at, m);
  }

  lemma SplicePart(before: seq<Word>, length: nat, at: nat, m: seq<Word>)
    requires length <= |before| && at + |m| <= length
    ensures Splice(before, at, m)[..length] == Splice(before[..length], at, m)
  {
  }

  // ----- what is sent ----------------------------------------------------------------------------------------

  /** The words of a buffer, split into frames and executed, send the given data on each of the subnets A to E. */
  ghost predicate ListSends(words: seq<Word>, kind: ListKind, counter: Byte, i: Inputs, nets: seq<Subnet>,
                            targets: seq<nat>, sampled: seq<bool>, patched: bool)
    requires InputsOk(i)
  {
    var (whole, frames) := Parse(words);
    && whole && |frames| == |nets| == |targets| == |sampled| == SubnetCount
    && forall s :: 0 <= s < SubnetCount ==>
         && frames[s].address == [9, 10, 11, 12, 17][s] && NetOk(nets[s])
         && Wire.Sends(Scan(frames[s].body, []), kind, counter, i, nets[s], targets[s], sampled[s], patched)
  }

  predicate FirstEnabled(fas: seq<Ilc>, target: nat) {
    target < |fas| && !fas[target].disabled && forall k :: 0 <= k < target ==> fas[k].disabled
  }

  lemma SkipFromStart(fas: seq<Ilc>)
    requires SomeEnabled(fas)
    ensures FirstEnabled(fas, Skip(fas, 0))
  {
    forall k | 0 <= k < NextUp(fas, 0)
      ensures fas[k].disabled
    {
      assert !IsEnabled(fas, k);
    }
  }

  /** The view holds the broadcasts of the list kind, up to what a patched freeze list makes of a mixed subnet. */
  ghost predicate CarriesData(kind: ListKind, counter: Byte, i: Inputs, net: Subnet, v: View, patched: bool)
    requires InputsOk(i) && NetOk(net)
  {
    var spoilt := patched && Mixed(kind, net);
    && (net.fas != [] && !spoilt ==> v.faBroadcast == FaBroadcast(kind, counter, i, net.fas))
    && (net.hps != [] && !spoilt ==> v.hpBroadcast == HpBroadcast(kind, counter, i, net.hps))
    && (spoilt ==> v.hpBroadcast == PneumaticFreeze(counter))
  }

  lemma FreshCarries(kind: ListKind, counter: Byte, i: Inputs, net: Subnet, target: nat)
    requires InputsOk(i) && NetOk(net)
    ensures CarriesData(kind, counter, i, net, FreshView(kind, counter, i, net, target, false), false)
  {
    hide FaBroadcast, HpBroadcast;
  }

  lemma NextCarries(kind: ListKind, counter: Byte, i: Inputs, net: Subnet, v: View, sampled: bool)
    requires InputsOk(i) && NetOk(net) && ViewOk(net, v)
    ensures var v' := NextView(kind, counter, i, net, v, sampled);
            CarriesData(kind, counter, i, net, v', true) && (net.hms != [] ==> v'.lvdt == sampled)
  {
    hide FaBroadcast, HpBroadcast, Next;
  }

  /** The subnets whose LVDTs an update samples, the clock having started at `clock`. */
  function Sampling(nets: seq<Subnet>, clock: int): (sampled: seq<bool>)
    ensures |sampled| == |nets| && forall s :: 0 <= s < |nets| ==> sampled[s] == (ClockAt(nets, clock, s) == 0)
  {
    seq(|nets|, s requires 0 <= s < |nets| => ClockAt(nets, clock, s) == 0)
  }

  lemma ViewsSend(t: Timing, kind: ListKind, counter: Byte, i: Inputs, nets: seq<Subnet>, views: seq<View>,
                  targets: seq<nat>, sampled: seq<bool>, patched: bool)
    requires InputsOk(i) && |nets| == |targets| == |sampled| == SubnetCount && ViewsFine(kind, nets, views)
    requires AllFit(nets, views) && forall s :: 0 <= s < SubnetCount ==> NetOk(nets[s])
    requires forall s :: 0 <= s < SubnetCount ==>
               && CarriesData(kind, counter, i, nets[s], views[s], patched)
               && (nets[s].fas != [] ==> targets[s] == views[s].target)
               && (nets[s].hms != [] ==> views[s].lvdt == sampled[s])
    ensures ListSends(Render(IlcEncoder(t), nets, views), kind, counter, i, nets, targets, sampled, patched)
  {
    hide Render, Parse, Scan, BodyWords, IlcEncoder, CarriesData, NetOk, Wire.Sends;
    ParsesToFiveFrames(IlcEncoder(t), nets, views);
    forall s | 0 <= s < SubnetCount
      ensures Wire.Sends(Scan(BodyWords(IlcEncoder(t), nets[s], views[s]), []), kind, counter, i, nets[s], targets[s],
                         sampled[s], patched)
    {
      ViewSends(t, kind, counter, i, nets[s], views[s], targets[s], sampled[s], patched);
    }
  }

  lemma ViewSends(t: Timing, kind: ListKind, counter: Byte, i: Inputs, net: Subnet, v: View,
                  target: nat, sampled: bool, patched: bool)
    requires InputsOk(i) && NetOk(net) && ViewFine(kind, net, v) && CarriesData(kind, counter, i, net, v, patched)
    requires (net.fas != [] ==> target == v.target) && (net.hms != [] ==> v.lvdt == sampled)
    ensures Wire.Sends(Scan(BodyWords(IlcEncoder(t), net, v), []), kind, counter, i, net, target, sampled, patched)
  {
    hide Scan, BodyWords, IlcEncoder, FaBroadcast, HpBroadcast;
    Wire.BodySends(t, kind, counter, i, net, v, patched);
    Wire.SendsSame(Scan(BodyWords(IlcEncoder(t), net, v), []), kind, counter, i, net, v.target, target, v.lvdt, sampled,
                   patched);
  }

  class BusList {
    const kind: ListKind
    const nets: seq<Subnet>
    const factory: MessageFactory
    const outer: OuterLoop
    const buffer: ModbusBuffer
    const expectedFa: array<int>
    const expectedHp: array<int>
    const expectedHm: array<int>

    var subnetStart: int
    var faBroadcastIndex: seq<int>
    var faStatusIndex: seq<int>
    var hpBroadcastIndex: seq<int>
    var lvdtIndex: seq<int>
    var roundRobin: seq<nat>
    var lvdtClock: int

    /** What the buffer currently renders. */
    ghost var views: seq<View>

    constructor (kind: ListKind, nets: seq<Subnet>, factory: MessageFactory, outer: OuterLoop)
      requires NetsOk(nets) && StartOf(kind, nets, SubnetCount) <= BufferSize
      ensures Ready() && this.kind == kind && this.nets == nets && this.factory == factory && this.outer == outer
      ensures fresh(buffer) && fresh(buffer.data) && fresh(expectedFa) && fresh(expectedHp) && fresh(expectedHm)
    {
      this.kind, this.nets, this.factory, this.outer := kind, nets, factory, outer;
      buffer := new ModbusBuffer();
      expectedFa := new int[FaCount](_ => 0);
      expectedHp := new int[HpCount](_ => 0);
      expectedHm := new int[HpCount](_ => 0);
      subnetStart, lvdtClock := 0, 0;
      faBroadcastIndex, faStatusIndex := [-1, -1, -1, -1, -1], [-1, -1, -1, -1, -1];
      hpBroadcastIndex, lvdtIndex := [-1, -1, -1, -1, -1], [-1, -1, -1, -1, -1];
      roundRobin := [0, 0, 0, 0, 0];
      views := [];
    }

    function E(): Encoder { IlcEncoder(factory.timing) }

    /** Holds from construction on: the topology is sound and the storage is this list's own. */
    ghost predicate Ready()
      reads this
    {
      && |nets| == SubnetCount && NetsOk(nets) && StartOf(kind, nets, SubnetCount) <= BufferSize
      && buffer.data.Length == BufferSize && expectedFa.Length == FaCount
      && expectedHp.Length == HpCount && expectedHm.Length == HpCount
      && buffer.data as object != expectedFa && buffer.data as object != expectedHp
      && buffer.data as object != expectedHm
      && expectedFa != expectedHp && expectedFa != expectedHm && expectedHp != expectedHm
      && |faBroadcastIndex| == SubnetCount && |faStatusIndex| == SubnetCount && |hpBroadcastIndex| == SubnetCount
      && |lvdtIndex| == SubnetCount && |roundRobin| == SubnetCount
    }

    /** The recorded indices of subnet `s` point at the volatile parts of a frame starting at `start`. */
    ghost predicate IndexedAt(s: nat, start: int)
      requires Ready() && s < SubnetCount
      reads this
    {
      && (nets[s].fas != [] ==> faStatusIndex[s] == start + StatusAt(kind, nets[s]))
      && (nets[s].fas != [] ==> faBroadcastIndex[s] == start + if Mixed(kind, nets[s]) then HpAt(kind, nets[s]) else 3)
      && (nets[s].hps != [] ==> hpBroadcastIndex[s] == start + HpAt(kind, nets[s]))
      && (nets[s].hms != [] ==> lvdtIndex[s] == start + LvdtAt(kind, nets[s]))
    }

    /** The tables of the other subnets are as they were. */
    twostate predicate OthersKept(s: nat)
      requires old(Ready()) && Ready()
      reads this
    {
      forall r :: 0 <= r < SubnetCount && r != s ==>
        && roundRobin[r] == old(roundRobin[r]) && faStatusIndex[r] == old(faStatusIndex[r])
        && faBroadcastIndex[r] == old(faBroadcastIndex[r]) && hpBroadcastIndex[r] == old(hpBroadcastIndex[r])
        && lvdtIndex[r] == old(lvdtIndex[r])
    }

    ghost predicate Indexed(n: nat)
      requires Ready() && n <= SubnetCount && |views| == SubnetCount
      reads this
    {
      forall s :: 0 <= s < n ==>
        IndexedAt(s, StartOf(kind, nets, s)) && (nets[s].fas != [] ==> roundRobin[s] == views[s].target)
    }

    /** The buffer renders the views and the indices point into it. */
    ghost predicate Rendered()
      reads this, buffer, buffer.data
    {
      && Ready() && ViewsFine(kind, nets, views) && AllFit(nets, views)
      && (forall s :: 0 <= s < SubnetCount ==> IndexedAt(s, StartOf(kind, nets, s)))
      && buffer.length == StartOf(kind, nets, SubnetCount)
      && buffer.data[..buffer.length] == Render(E(), nets, views)
    }

    ghost predicate Valid()
      reads this, buffer, buffer.data, expectedFa, expectedHp, expectedHm
    {
      && Rendered()
      && (forall s :: 0 <= s < SubnetCount && nets[s].fas != [] ==> roundRobin[s] == views[s].target)
      && FaCounted(nets, views, expectedFa[..], SubnetCount)
      && HpCounted(nets, expectedHp[..], SubnetCount)
      && HmCounted(nets, views, expectedHm[..], SubnetCount)
    }

    // ----- appending --------------------------------------------------------------------------------

    method EmitQuery(kind: QueryKind, address: Byte, ghost p: seq<Word>, ghost cs: seq<Command>)
      requires buffer.Room(6) && buffer.data[..buffer.index] == p + WordsAll(E(), cs)
      modifies buffer`index, buffer.data
      ensures buffer.index == old(buffer.index) + 6
      ensures buffer.data[..buffer.index] == p + WordsAll(E(), cs + [Query(kind, address)])
    {
      hide Words;
      ghost var before := buffer.data[..];
      factory.Query(buffer, kind, address);
      Emitted(E(), before, old(buffer.index), p, cs, Query(kind, address));
    }

    method EmitNop(ghost p: seq<Word>, ghost cs: seq<Command>)
      requires buffer.Room(6) && buffer.data[..buffer.index] == p + WordsAll(E(), cs)
      modifies buffer`index, buffer.data
      ensures buffer.index == old(buffer.index) + 6
      ensures buffer.data[..buffer.index] == p + WordsAll(E(), cs + [NopLvdt])
    {
      hide Words;
      ghost var before := buffer.data[..];
      factory.NopReportLvdt(buffer);
      Emitted(E(), before, old(buffer.index), p, cs, NopLvdt);
    }

    method EmitTimestamp(ghost p: seq<Word>, ghost cs: seq<Command>)
      requires buffer.Room(1) && buffer.data[..buffer.index] == p + WordsAll(E(), cs)
      modifies buffer`index, buffer.data
      ensures buffer.index == old(buffer.index) + 1
      ensures buffer.data[..buffer.index] == p + WordsAll(E(), cs + [Timestamp])
    {
      hide Words;
      ghost var before := buffer.data[..];
      factory.WriteTimestamp(buffer);
      Emitted(E(), before, old(buffer.index), p, cs, Timestamp);
    }

    /** Writes the force actuator broadcast of this list kind at the write position. */
    method WriteFaBroadcast(fas: seq<Ilc>, i: Inputs)
      requires InputsOk(i) && FasOk(fas) && buffer.Room(FaBroadcastWidth(kind))
      modifies buffer`index, buffer.data
      ensures buffer.index == old(buffer.index) + FaBroadcastWidth(kind)
      ensures Width(FaBroadcast(kind, outer.broadcastCounter, i, fas)) == FaBroadcastWidth(kind)
      ensures buffer.data[..] == Splice(old(buffer.data[..]), old(buffer.index),
                                        E()(FaBroadcast(kind, outer.broadcastCounter, i, fas)))
    {
      hide Words;
      if kind.Freeze? {
        factory.BroadcastFreeze(buffer, true, outer.broadcastCounter);
      } else {
        var saa, daaPrimary, daaSecondary := Demand(fas, i);
        factory.BroadcastForceDemand(buffer, outer.broadcastCounter, Valves(i.valvesOpened),
                                     saa, daaPrimary, daaSecondary);
      }
    }

    /** Writes the hardpoint broadcast of this list kind at the write position. */
    method WriteHpBroadcast(hps: seq<Ilc>, i: Inputs)
      requires InputsOk(i) && HpsOk(hps) && buffer.Room(HpBroadcastWidth(kind))
      modifies buffer`index, buffer.data
      ensures buffer.index == old(buffer.index) + HpBroadcastWidth(kind)
      ensures Width(HpBroadcast(kind, outer.broadcastCounter, i, hps)) == HpBroadcastWidth(kind)
      ensures buffer.data[..] == Splice(old(buffer.data[..]), old(buffer.index),
                                        E()(HpBroadcast(kind, outer.broadcastCounter, i, hps)))
    {
      hide Words;
      if kind.Raised? {
        var steps := MotorSteps(hps, i);
        factory.BroadcastStepMotor(buffer, outer.broadcastCounter, steps);
      } else {
        factory.BroadcastFreeze(buffer, false, outer.broadcastCounter);
      }
    }

    // ----- buildBuffer ---------------------------------------------------------------------------------

    method EmitForceQueries(fas: seq<Ilc>, ghost p: seq<Word>, ghost head: seq<Command>)
      requires Ready() && FasOk(fas) && 0 <= buffer.index && buffer.index + 6 * EnabledCount(fas) <= BufferSize
      requires buffer.data[..buffer.index] == p + WordsAll(E(), head)
      modifies buffer`index, buffer.data, expectedFa
      ensures buffer.index == old(buffer.index) + 6 * EnabledCount(fas)
      ensures buffer.data[..buffer.index] == p + WordsAll(E(), head + Queries(ForceStatus, fas))
      ensures expectedFa[..] == Mark(old(expectedFa[..]), fas, 1)
    {
      hide NetsOk, StartOf, Words, WordsAll;
      ghost var base, counts := buffer.index, expectedFa[..];
      assert head + Queries(ForceStatus, fas[..0]) == head;
      for j := 0 to |fas|
        invariant 0 <= buffer.index <= BufferSize && buffer.index == base + 6 * EnabledCount(fas[..j])
        invariant buffer.data[..buffer.index] == p + WordsAll(E(), head + Queries(ForceStatus, fas[..j]))
        invariant expectedFa[..] == Mark(counts, fas[..j], 1)
      {
        EnabledPrefix(fas, j);
        PrefixStep(fas, j);
        if !fas[j].disabled {
          EmitQuery(ForceStatus, fas[j].address, p, head + Queries(ForceStatus, fas[..j]));
          assert head + Queries(ForceStatus, fas[..j]) + [Query(ForceStatus, fas[j].address)]
              == head + Queries(ForceStatus, fas[..j + 1]);
          expectedFa[fas[j].dataIndex] := 1;
        } else {
          assert Queries(ForceStatus, fas[..j + 1]) == Queries(ForceStatus, fas[..j]);
        }
      }
      assert fas[..|fas|] == fas;
    }

    method EmitHardpointQueries(hps: seq<Ilc>, ghost p: seq<Word>, ghost head: seq<Command>)
      requires Ready() && HpsOk(hps) && 0 <= buffer.index && buffer.index + 12 * EnabledCount(hps) <= BufferSize
      requires buffer.data[..buffer.index] == p + WordsAll(E(), head)
      modifies buffer`index, buffer.data, expectedHp
      ensures buffer.index == old(buffer.index) + 12 * EnabledCount(hps)
      ensures buffer.data[..buffer.index] == p + WordsAll(E(), head + HpQueries(hps))
      ensures expectedHp[..] == Mark(old(expectedHp[..]), hps, 2)
    {
      hide NetsOk, StartOf, Words, WordsAll, Mark, HpQueries;
      HpQueryStep([], 0);
      MarkStep(expectedHp[..], [], 0, 2);
      ghost var base, counts := buffer.index, expectedHp[..];
      assert hps[..0] == [] && head + [] == head;
      for j := 0 to |hps|
        invariant 0 <= buffer.index <= BufferSize && buffer.index == base + 12 * EnabledCount(hps[..j])
        invariant buffer.data[..buffer.index] == p + WordsAll(E(), head + HpQueries(hps[..j]))
        invariant expectedHp[..] == Mark(counts, hps[..j], 2)
      {
        EnabledPrefix(hps, j);
        HpQueryStep(hps, j);
        MarkStep(counts, hps, j, 2);
        var a := hps[j].address;
        ghost var cs := head + HpQueries(hps[..j]);
        if !hps[j].disabled {
          EmitQuery(HardpointStatus, a, p, cs);
          EmitQuery(ServerStatus, a, p, cs + [Query(HardpointStatus, a)]);
          assert cs + [Query(HardpointStatus, a)] + [Query(ServerStatus, a)] == head + HpQueries(hps[..j + 1]);
          expectedHp[hps[j].dataIndex] := 2;
        }
      }
      assert hps[..|hps|] == hps;
    }

    method EmitMonitorQueries(hms: seq<Ilc>, ghost p: seq<Word>)
      requires Ready() && HmsOk(hms) && 0 <= buffer.index && buffer.index + 18 * EnabledCount(hms) <= BufferSize
      requires buffer.data[..buffer.index] == p
      modifies buffer`index, buffer.data, expectedHm
      ensures buffer.index == old(buffer.index) + 18 * EnabledCount(hms)
      ensures buffer.data[..buffer.index] == p + WordsAll(E(), HmCommands(hms))
      ensures expectedHm[..] == Mark(old(expectedHm[..]), hms, 3)
    {
      hide NetsOk, StartOf, Words, WordsAll;
      ghost var base, counts := buffer.index, expectedHm[..];
      EmptyWords(E(), p);
      assert HmCommands(hms[..0]) == [];
      for j := 0 to |hms|
        invariant 0 <= buffer.index <= BufferSize && buffer.index == base + 18 * EnabledCount(hms[..j])
        invariant buffer.data[..buffer.index] == p + WordsAll(E(), HmCommands(hms[..j]))
        invariant expectedHm[..] == Mark(counts, hms[..j], 3)
      {
        EnabledPrefix(hms, j);
        PrefixStep(hms, j);
        var a := hms[j].address;
        ghost var cs := HmCommands(hms[..j]);
        if !hms[j].disabled {
          EmitQuery(DcaPressure, a, p, cs);
          EmitQuery(DcaStatus, a, p, cs + [Query(DcaPressure, a)]);
          EmitQuery(ServerStatus, a, p, cs + [Query(DcaPressure, a)] + [Query(DcaStatus, a)]);
          assert cs + [Query(DcaPressure, a)] + [Query(DcaStatus, a)] + [Query(ServerStatus, a)]
              == HmCommands(hms[..j + 1]);
          expectedHm[hms[j].dataIndex] := 3;
        } else {
          assert HmCommands(hms[..j + 1]) == HmCommands(hms[..j]);
        }
      }
      assert hms[..|hms|] == hms;
    }

    method EmitLvdtNops(hms: seq<Ilc>, ghost p: seq<Word>)
      requires Ready() && 0 <= buffer.index && buffer.index + 6 * EnabledCount(hms) <= BufferSize
      requires buffer.data[..buffer.index] == p
      modifies buffer`index, buffer.data
      ensures buffer.index == old(buffer.index) + 6 * EnabledCount(hms)
      ensures buffer.data[..buffer.index] == p + WordsAll(E(), LvdtCommands(hms, false))
    {
      hide NetsOk, StartOf, Words, WordsAll;
      ghost var base := buffer.index;
      EmptyWords(E(), p);
      assert LvdtCommands(hms[..0], false) == [];
      for j := 0 to |hms|
        invariant 0 <= buffer.index <= BufferSize && buffer.index == base + 6 * EnabledCount(hms[..j])
        invariant buffer.data[..buffer.index] == p + WordsAll(E(), LvdtCommands(hms[..j], false))
      {
        EnabledPrefix(hms, j);
        PrefixStep(hms, j);
        if !hms[j].disabled {
          EmitNop(p, LvdtCommands(hms[..j], false));
          assert LvdtCommands(hms[..j], false) + [NopLvdt] == LvdtCommands(hms[..j + 1], false);
        } else {
          assert LvdtCommands(hms[..j + 1], false) == LvdtCommands(hms[..j], false);
        }
      }
      assert hms[..|hms|] == hms;
    }

    method EmitFaHead(fas: seq<Ilc>, i: Inputs, ghost p: seq<Word>)
      requires Ready() && InputsOk(i) && FasOk(fas)
      requires 0 <= buffer.index && buffer.index + FaBroadcastWidth(kind) + 1 + 6 * EnabledCount(fas) <= BufferSize
      requires buffer.data[..buffer.index] == p
      modifies buffer`index, buffer.data, expectedFa
      ensures buffer.index == old(buffer.index) + FaBroadcastWidth(kind) + 1 + 6 * EnabledCount(fas)
      ensures buffer.data[..buffer.index] == p + WordsAll(E(),
                [FaBroadcast(kind, outer.broadcastCounter, i, fas), Timestamp] + Queries(ForceStatus, fas))
      ensures expectedFa[..] == Mark(old(expectedFa[..]), fas, 1)
    {
      hide NetsOk, StartOf, Words, WordsAll, FaBroadcast, Mark;
      ghost var base, before := buffer.index, buffer.data[..];
      ghost var b := FaBroadcast(kind, outer.broadcastCounter, i, fas);
      WriteFaBroadcast(fas, i);
      EmptyWords(E(), p);
      Emitted(E(), before, base, p, [], b);
      EmitTimestamp(p, [] + [b]);
      assert [] + [b] + [Timestamp] == [b, Timestamp];
      EmitForceQueries(fas, p, [b, Timestamp]);
    }

    method BuildFa(s: nat, i: Inputs, ghost p: seq<Word>)
      requires Ready() && InputsOk(i) && s < SubnetCount && nets[s].fas != [] && roundRobin[s] == 0 && NetOk(nets[s])
      requires 0 <= buffer.index && buffer.index + FaSpan(kind, nets[s]) <= BufferSize
      requires buffer.data[..buffer.index] == p
      modifies `faBroadcastIndex, `faStatusIndex, `roundRobin, buffer`index, buffer.data, expectedFa
      ensures Ready() && buffer.index == old(buffer.index) + FaSpan(kind, nets[s])
      ensures roundRobin == old(roundRobin)[s := FirstTarget(nets[s])]
      ensures faBroadcastIndex == old(faBroadcastIndex)[s := old(buffer.index)]
      ensures faStatusIndex == old(faStatusIndex)[s := old(buffer.index) - 3 + StatusAt(kind, nets[s])]
      ensures buffer.data[..buffer.index] == p + WordsAll(E(), FaCommands(nets[s].fas,
                FaBroadcast(kind, outer.broadcastCounter, i, nets[s].fas), FirstTarget(nets[s])))
      ensures var first := nets[s].fas[FirstTarget(nets[s])].dataIndex;
              expectedFa[..] == Mark(old(expectedFa[..]), nets[s].fas, 1)[first := 2]
    {
      hide NetsOk, StartOf, Words, WordsAll, FaBroadcast, Skip, Mark;
      var fas := nets[s].fas;
      faBroadcastIndex := faBroadcastIndex[s := buffer.index];
      EmitFaHead(fas, i, p);
      ghost var b := FaBroadcast(kind, outer.broadcastCounter, i, fas);
      ghost var head := [b, Timestamp] + Queries(ForceStatus, fas);
      var target, steps := SkipDisabled(fas, roundRobin[s]);
      roundRobin := roundRobin[s := target];
      faStatusIndex := faStatusIndex[s := buffer.index];
      EmitQuery(ServerStatus, fas[target].address, p, head);
      assert head + [Query(ServerStatus, fas[target].address)] == FaCommands(fas, b, target);
      expectedFa[fas[target].dataIndex] := 2;
    }

    method BuildHp(s: nat, i: Inputs, ghost p: seq<Word>)
      requires Ready() && InputsOk(i) && s < SubnetCount && nets[s].hps != [] && NetOk(nets[s])
      requires 0 <= buffer.index && buffer.index + HpSpan(kind, nets[s]) <= BufferSize
      requires buffer.data[..buffer.index] == p
      modifies `hpBroadcastIndex, buffer`index, buffer.data, expectedHp
      ensures Ready() && buffer.index == old(buffer.index) + HpSpan(kind, nets[s])
      ensures hpBroadcastIndex == old(hpBroadcastIndex)[s := old(buffer.index)]
      ensures buffer.data[..buffer.index]
           == p + WordsAll(E(), HpCommands(nets[s].hps, HpBroadcast(kind, outer.broadcastCounter, i, nets[s].hps)))
      ensures expectedHp[..] == Mark(old(expectedHp[..]), nets[s].hps, 2)
    {
      hide NetsOk, StartOf, Words, WordsAll, HpBroadcast, Mark;
      var hps := nets[s].hps;
      ghost var base, before := buffer.index, buffer.data[..];
      ghost var b := HpBroadcast(kind, outer.broadcastCounter, i, hps);
      hpBroadcastIndex := hpBroadcastIndex[s := buffer.index];
      WriteHpBroadcast(hps, i);
      EmptyWords(E(), p);
      Emitted(E(), before, base, p, [], b);
      EmitTimestamp(p, [] + [b]);
      EmitHardpointQueries(hps, p, [] + [b] + [Timestamp]);
      assert [] + [b] + [Timestamp] + HpQueries(hps) == HpCommands(hps, b);
    }

    method FaPart(s: nat, i: Inputs, ghost p: seq<Word>, ghost v: View)
      requires Ready() && InputsOk(i) && s < SubnetCount && roundRobin[s] == 0 && NetOk(nets[s])
      requires v == FreshView(kind, outer.broadcastCounter, i, nets[s], FirstTarget(nets[s]), false)
      requires 0 <= buffer.index && buffer.index + FaSpan(kind, nets[s]) <= BufferSize
      requires buffer.data[..buffer.index] == p
      modifies `faBroadcastIndex, `faStatusIndex, `roundRobin, buffer`index, buffer.data, expectedFa
      ensures Ready() && buffer.index == old(buffer.index) + FaSpan(kind, nets[s])
      ensures buffer.data[..buffer.index] == p + WordsAll(E(), FaCommands(nets[s].fas, v.faBroadcast, v.target))
      ensures expectedFa[..] == FaMarked(old(expectedFa[..]), nets[s])
      ensures nets[s].fas != [] ==> roundRobin[s] == FirstTarget(nets[s]) && faBroadcastIndex[s] == old(buffer.index)
      ensures nets[s].fas != [] ==> faStatusIndex[s] == old(buffer.index) - 3 + StatusAt(kind, nets[s])
      ensures forall r :: 0 <= r < SubnetCount && r != s ==>
                && roundRobin[r] == old(roundRobin[r])
                && faStatusIndex[r] == old(faStatusIndex[r]) && faBroadcastIndex[r] == old(faBroadcastIndex[r])
    {
      hide NetsOk, StartOf, Words, WordsAll, FaBroadcast, HpBroadcast, Mark, Skip, FaCommands, EnabledCount;
      NoDevices(E(), p, v, expectedFa[..], expectedHp[..]);
      if nets[s].fas != [] {
        BuildFa(s, i, p);
      }
    }

    method HpPart(s: nat, i: Inputs, ghost p: seq<Word>, ghost v: View)
      requires Ready() && InputsOk(i) && s < SubnetCount && NetOk(nets[s])
      requires v == FreshView(kind, outer.broadcastCounter, i, nets[s], FirstTarget(nets[s]), false)
      requires 0 <= buffer.index && buffer.index + HpSpan(kind, nets[s]) <= BufferSize
      requires buffer.data[..buffer.index] == p
      modifies `faBroadcastIndex, `hpBroadcastIndex, buffer`index, buffer.data, expectedHp
      ensures Ready() && buffer.index == old(buffer.index) + HpSpan(kind, nets[s])
      ensures buffer.data[..buffer.index] == p + WordsAll(E(), HpCommands(nets[s].hps, v.hpBroadcast))
      ensures expectedHp[..] == Mark(old(expectedHp[..]), nets[s].hps, 2)
      ensures nets[s].hps != [] ==> hpBroadcastIndex[s] == old(buffer.index)
      ensures faBroadcastIndex[s]
           == if kind.Freeze? && nets[s].hps != [] then old(buffer.index) else old(faBroadcastIndex[s])
      ensures forall r :: 0 <= r < SubnetCount && r != s ==>
                hpBroadcastIndex[r] == old(hpBroadcastIndex[r]) && faBroadcastIndex[r] == old(faBroadcastIndex[r])
    {
      hide NetsOk, StartOf, Words, WordsAll, FaBroadcast, HpBroadcast, Mark, Skip, HpCommands, EnabledCount;
      NoDevices(E(), p, v, expectedFa[..], expectedHp[..]);
      if nets[s].hps != [] {
        BuildHp(s, i, p);
        if kind.Freeze? {
          // FreezeSensorBusList has one index table for both broadcasts; the later one stays
          faBroadcastIndex := faBroadcastIndex[s := hpBroadcastIndex[s]];
        }
      }
    }

    method HmPart(s: nat, ghost p: seq<Word>)
      requires Ready() && s < SubnetCount && NetOk(nets[s])
      requires 0 <= buffer.index && buffer.index + 24 * EnabledCount(nets[s].hms) <= BufferSize
      requires buffer.data[..buffer.index] == p
      modifies `lvdtIndex, buffer`index, buffer.data, expectedHm
      ensures Ready() && buffer.index == old(buffer.index) + 24 * EnabledCount(nets[s].hms)
      ensures buffer.data[..buffer.index]
           == p + WordsAll(E(), HmCommands(nets[s].hms)) + WordsAll(E(), LvdtCommands(nets[s].hms, false))
      ensures expectedHm[..] == Mark(old(expectedHm[..]), nets[s].hms, 3)
      ensures nets[s].hms != [] ==> lvdtIndex[s] == old(buffer.index) + 18 * EnabledCount(nets[s].hms)
      ensures forall r :: 0 <= r < SubnetCount && r != s ==> lvdtIndex[r] == old(lvdtIndex[r])
    {
      hide NetsOk, StartOf, Words, WordsAll, Mark, HmCommands, LvdtCommands, EnabledCount;
      EmitMonitorQueries(nets[s].hms, p);
      NoMonitors(E(), p + WordsAll(E(), HmCommands(nets[s].hms)));
      if nets[s].hms != [] {
        lvdtIndex := lvdtIndex[s := buffer.index];
        EmitLvdtNops(nets[s].hms, p + WordsAll(E(), HmCommands(nets[s].hms)));
      }
    }

    /** Everything between the start and the end of a subnet frame. */
    method BuildBody(s: nat, i: Inputs, ghost p: seq<Word>, ghost v: View)
      requires Ready() && InputsOk(i) && s < SubnetCount && roundRobin[s] == 0 && NetOk(nets[s])
      requires v == FreshView(kind, outer.broadcastCounter, i, nets[s], FirstTarget(nets[s]), false)
      requires 0 <= buffer.index && buffer.index + Span(kind, nets[s]) - 4 <= BufferSize
      requires buffer.data[..buffer.index] == p
      modifies `faBroadcastIndex, `faStatusIndex, `hpBroadcastIndex, `lvdtIndex, `roundRobin
      modifies buffer`index, buffer.data, expectedFa, expectedHp, expectedHm
      ensures Ready() && buffer.index == old(buffer.index) + Span(kind, nets[s]) - 4
      ensures nets[s].fas != [] ==> roundRobin[s] == FirstTarget(nets[s])
      ensures IndexedAt(s, old(buffer.index) - 3)
      ensures OthersKept(s)
      ensures buffer.data[..buffer.index] == p + PartWords(E(), nets[s], v)
      ensures expectedFa[..] == FaMarked(old(expectedFa[..]), nets[s])
      ensures expectedHp[..] == Mark(old(expectedHp[..]), nets[s].hps, 2)
      ensures expectedHm[..] == Mark(old(expectedHm[..]), nets[s].hms, 3)
    {
      hide NetsOk, StartOf, Words, WordsAll, FaBroadcast, HpBroadcast, Mark, Skip, FaCommands, HpCommands,
           HmCommands, LvdtCommands, EnabledCount;
      ghost var fa := WordsAll(E(), FaCommands(nets[s].fas, v.faBroadcast, v.target));
      ghost var hp := WordsAll(E(), HpCommands(nets[s].hps, v.hpBroadcast));
      FaPart(s, i, p, v);
      HpPart(s, i, p + fa, v);
      HmPart(s, p + fa + hp);
      Reassociate(p, fa, hp, WordsAll(E(), HmCommands(nets[s].hms)), WordsAll(E(), LvdtCommands(nets[s].hms, false)));
    }

    /** startSubnet: address, a length to be filled in, and the wait for the software trigger. */
    method StartSubnet(s: nat, ghost p: seq<Word>)
      requires s < SubnetCount && buffer.Room(3) && buffer.data[..buffer.index] == p
      modifies `subnetStart, buffer`index, buffer.data
      ensures buffer.index == old(buffer.index) + 3 && subnetStart == old(buffer.index) + 1
      ensures buffer.data[..buffer.index] == p + [SubnetAddress(s), 0, WaitTriggerWord]
    {
      ghost var before, start := buffer.data[..], buffer.index;
      assert before == Splice(before, start, []);
      buffer.Append(SubnetAddress(s), before, start, []);
      subnetStart := buffer.index;
      buffer.Append(0, before, start, [] + [SubnetAddress(s)]);
      buffer.Append(WaitTriggerWord, before, start, [] + [SubnetAddress(s)] + [0]);
      assert [] + [SubnetAddress(s)] + [0] + [WaitTriggerWord] == [SubnetAddress(s), 0, WaitTriggerWord];
      SplicePrefix(before, start, [SubnetAddress(s), 0, WaitTriggerWord]);
    }

    /** endSubnet: the interrupt, then the length written back into the frame's second word. */
    method EndSubnet(s: nat, ghost p: seq<Word>, ghost body: seq<Word>)
      requires buffer.Room(1) && buffer.index == |p| + 3 + |body| && subnetStart == |p| + 1
      requires buffer.data.Length <= BufferSize
      requires buffer.data[..buffer.index] == p + [SubnetAddress(s), 0, WaitTriggerWord] + body
      modifies buffer`index, buffer.data
      ensures buffer.index == old(buffer.index) + 1
      ensures buffer.data[..buffer.index]
           == p + ([SubnetAddress(s), |body| + 2, WaitTriggerWord] + body + [TriggerIrqWord])
    {
      ghost var before, start := buffer.data[..], buffer.index;
      buffer.Put(TriggerIrqWord);
      SplicePrefix(before, start, [TriggerIrqWord]);
      ghost var written := buffer.data[..];
      buffer.Set(subnetStart, buffer.index - subnetStart - 1);
      SplicePart(written, buffer.index, subnetStart, [|body| + 2]);
      FillLength(p, SubnetAddress(s), body);
    }

    method BuildSubnet(s: nat, i: Inputs, ghost p: seq<Word>, ghost v: View)
      requires Ready() && InputsOk(i) && s < SubnetCount && roundRobin[s] == 0 && NetOk(nets[s])
      requires Fits(nets[s], v) && ViewFine(kind, nets[s], v)
      requires v == FreshView(kind, outer.broadcastCounter, i, nets[s], FirstTarget(nets[s]), false)
      requires 0 <= buffer.index && buffer.index + Span(kind, nets[s]) <= BufferSize
      requires buffer.data[..buffer.index] == p
      modifies `faBroadcastIndex, `faStatusIndex, `hpBroadcastIndex, `lvdtIndex, `roundRobin, `subnetStart
      modifies buffer`index, buffer.data, expectedFa, expectedHp, expectedHm
      ensures Ready() && buffer.index == old(buffer.index) + Span(kind, nets[s])
      ensures nets[s].fas != [] ==> roundRobin[s] == FirstTarget(nets[s])
      ensures IndexedAt(s, old(buffer.index))
      ensures OthersKept(s)
      ensures buffer.data[..buffer.index] == p + SubnetWords(E(), s, nets[s], v)
      ensures expectedFa[..] == FaMarked(old(expectedFa[..]), nets[s])
      ensures expectedHp[..] == Mark(old(expectedHp[..]), nets[s].hps, 2)
      ensures expectedHm[..] == Mark(old(expectedHm[..]), nets[s].hms, 3)
    {
      hide NetsOk, StartOf, Words, WordsAll, FaBroadcast, HpBroadcast, Mark, FaMarked, FirstTarget,
           FaCommands, HpCommands, HmCommands, LvdtCommands, EnabledCount, FreshView, PartWords, SubnetWords;
      ghost var body := PartWords(E(), nets[s], v);
      FrameIs(E(), s, nets[s], v);
      SpanIs(kind, nets[s], v);
      StartSubnet(s, p);
      BuildBody(s, i, p + [SubnetAddress(s), 0, WaitTriggerWord], v);
      EndSubnet(s, p, body);
    }

    /** The first `s` frames of the buffer under construction are in place. */
    ghost predicate Built(s: nat, i: Inputs)
      requires Ready() && InputsOk(i)
      reads this, outer, buffer, buffer.data, expectedFa, expectedHp, expectedHm
    {
      && s <= SubnetCount && views == FirstViews(kind, outer.broadcastCounter, i, nets) && AllFit(nets, views)
      && 0 <= buffer.index <= BufferSize && buffer.index == StartOf(kind, nets, s)
      && buffer.data[..buffer.index] == FramesBefore(E(), nets, views, s)
      && Indexed(s) && (forall r :: s <= r < SubnetCount ==> roundRobin[r] == 0)
      && FaCounted(nets, views, expectedFa[..], s)
      && HpCounted(nets, expectedHp[..], s)
      && HmCounted(nets, views, expectedHm[..], s)
    }

    /** Builds the buffer from scratch: it then renders the current data, with each subnet's first
        enabled actuator as status target and no LVDT sampled. */
    method BuildBuffer(i: Inputs)
      requires Ready() && InputsOk(i)
      modifies this, buffer, buffer.data, expectedFa, expectedHp, expectedHm
      ensures Valid() && lvdtClock == 0
      ensures views == FirstViews(kind, outer.broadcastCounter, i, nets)
      ensures buffer.data[..buffer.length] == Render(E(), nets, FirstViews(kind, outer.broadcastCounter, i, nets))
      ensures ListSends(buffer.data[..buffer.length], kind, outer.broadcastCounter, i, nets, roundRobin,
                        [false, false, false, false, false], false)
      ensures forall s :: 0 <= s < SubnetCount && nets[s].fas != [] ==> FirstEnabled(nets[s].fas, roundRobin[s])
    {
      hide NetsOk, FramesBefore, FaCounted, HpCounted, HmCounted, Indexed, IndexedAt, StartOf, FirstViews, Render;
      Reset(i);
      for s := 0 to SubnetCount
        invariant Ready() && lvdtClock == 0 && Built(s, i)
      {
        BuildStep(s, i);
      }
      buffer.length := buffer.index;
      Complete(i);
      BuiltSends(i);
    }

    lemma BuiltSends(i: Inputs)
      requires Valid() && InputsOk(i) && views == FirstViews(kind, outer.broadcastCounter, i, nets)
      ensures ListSends(buffer.data[..buffer.length], kind, outer.broadcastCounter, i, nets, roundRobin,
                        [false, false, false, false, false], false)
      ensures forall s :: 0 <= s < SubnetCount && nets[s].fas != [] ==> FirstEnabled(nets[s].fas, roundRobin[s])
    {
      hide NetsOk, Render, FaCounted, HpCounted, HmCounted, StartOf, FirstViews, Skip, ListSends, FreshView, AllFit,
           CarriesData;
      NetsFacts(nets, 0);
      forall s | 0 <= s < SubnetCount
        ensures CarriesData(kind, outer.broadcastCounter, i, nets[s], views[s], false)
        ensures nets[s].fas != [] ==> FirstEnabled(nets[s].fas, views[s].target)
        ensures !views[s].lvdt
      {
        FirstViewIs(kind, outer.broadcastCounter, i, nets, s);
        FreshCarries(kind, outer.broadcastCounter, i, nets[s], FirstTarget(nets[s]));
        if nets[s].fas != [] { SkipFromStart(nets[s].fas); }
      }
      ViewsSend(factory.timing, kind, outer.broadcastCounter, i, nets, views, roundRobin,
                [false, false, false, false, false], false);
    }

    lemma Complete(i: Inputs)
      requires Ready() && InputsOk(i) && Built(SubnetCount, i) && buffer.length == buffer.index
      ensures Valid() && views == FirstViews(kind, outer.broadcastCounter, i, nets)
    {
      hide NetsOk, FramesBefore, FaCounted, HpCounted, HmCounted, IndexedAt, StartOf, FirstViews, Render;
      FramesBeforeEnds(E(), nets, views, SubnetCount);
    }

    /** BusList::buildBuffer and the reset of the index tables. */
    method Reset(i: Inputs)
      requires Ready() && InputsOk(i)
      modifies this, buffer`index, expectedFa, expectedHp, expectedHm
      ensures Ready() && lvdtClock == 0 && Built(0, i)
    {
      hide FaCounted, HpCounted, HmCounted, FirstViews, StartOf, FramesBefore, SubnetFrames;
      ClearCounts();
      subnetStart := 0;
      buffer.index := 0;
      lvdtClock := 0;
      faBroadcastIndex := [-1, -1, -1, -1, -1];
      hpBroadcastIndex := [-1, -1, -1, -1, -1];
      faStatusIndex := [-1, -1, -1, -1, -1];
      roundRobin := [0, 0, 0, 0, 0];
      views := FirstViews(kind, outer.broadcastCounter, i, nets);
      ViewsFit(kind, nets, views);
      FramesBeforeEnds(E(), nets, views, SubnetCount);
      ZeroCounted(nets, views, expectedFa[..], expectedHp[..], expectedHm[..]);
      StartOfZero(kind, nets);
    }

    method ClearCounts()
      requires Ready()
      modifies expectedFa, expectedHp, expectedHm
      ensures forall d :: 0 <= d < FaCount ==> expectedFa[d] == 0
      ensures forall d :: 0 <= d < HpCount ==> expectedHp[d] == 0 && expectedHm[d] == 0
    {
      hide NetsOk, StartOf;
      forall d | 0 <= d < expectedFa.Length { expectedFa[d] := 0; }
      forall d | 0 <= d < expectedHp.Length { expectedHp[d] := 0; }
      forall d | 0 <= d < expectedHm.Length { expectedHm[d] := 0; }
    }

    method BuildStep(s: nat, i: Inputs)
      requires Ready() && InputsOk(i) && s < SubnetCount && Built(s, i)
      modifies `faBroadcastIndex, `faStatusIndex, `hpBroadcastIndex, `lvdtIndex, `roundRobin, `subnetStart
      modifies buffer`index, buffer.data, expectedFa, expectedHp, expectedHm
      ensures Ready() && Built(s + 1, i)
    {
      hide NetOk, DistinctData, Words, WordsAll, FreshView, FirstTarget, FaMarked, Mark, Flatten, SubnetWords,
           FirstViews, FaExpected, HpExpected, HmExpected, FaCounted, HpCounted, HmCounted, Span, StatusAt, HpAt,
           LvdtAt, FramesBefore, Indexed, IndexedAt, OthersKept, NetsOk;
      NetsFacts(nets, s);
      FirstViewIs(kind, outer.broadcastCounter, i, nets, s);
      StartOfGrows(kind, nets, s + 1, SubnetCount);
      StartOfStep(kind, nets, s);
      FaCountedStep(nets, views, expectedFa[..], s);
      HpCountedStep(nets, expectedHp[..], s);
      HmCountedStep(nets, views, expectedHm[..], s);
      FramesBeforeStep(E(), nets, views, s);
      BuildSubnet(s, i, FramesBefore(E(), nets, views, s), views[s]);
      IndexedStep(s);
    }

    twostate lemma IndexedStep(s: nat)
      requires old(Ready()) && Ready() && s < SubnetCount && |old(views)| == SubnetCount && views == old(views)
      requires old(Indexed(s)) && OthersKept(s) && IndexedAt(s, StartOf(kind, nets, s))
      requires nets[s].fas != [] ==> roundRobin[s] == views[s].target
      requires forall r :: s <= r < SubnetCount ==> old(roundRobin[r]) == 0
      ensures Indexed(s + 1) && forall r :: s + 1 <= r < SubnetCount ==> roundRobin[r] == 0
    {
      hide NetsOk, StartOf;
    }

    // ----- update ------------------------------------------------------------------------------------------

    /** Rewrites the force actuator broadcast. */
    method PatchFa(s: nat, i: Inputs)
      requires Valid() && InputsOk(i) && s < SubnetCount && nets[s].fas != []
      requires !Mixed(kind, nets[s])
      modifies `views, buffer`index, buffer.data
      ensures Valid()
      ensures var c := FaBroadcast(kind, outer.broadcastCounter, i, nets[s].fas);
              views == old(views)[s := old(views)[s].(faBroadcast := c)]
    {
      hide Words, WordsAll, FaBroadcast, SubnetWords, Render, FaCounted, HpCounted, HmCounted, NetsOk, BodyWidth,
           StartOf, Width;
      NetsFacts(nets, s);
      ghost var v, c := views[s], FaBroadcast(kind, outer.broadcastCounter, i, nets[s].fas);
      FaBroadcastFits(kind, outer.broadcastCounter, i, nets[s], v);
      PatchFaBroadcast(E(), s, nets[s], v, c);
      RoomFor(E(), kind, nets, views, s, 3 + Width(c));
      ghost var before := buffer.data[..];
      buffer.index := faBroadcastIndex[s];
      WriteFaBroadcast(nets[s].fas, i);
      AfterPatch(E(), kind, nets, views, s, v.(faBroadcast := c), 3, E()(c), before, buffer.length);
      SameCounts(nets, views, s, v.(faBroadcast := c), expectedFa[..], expectedHm[..]);
      views := views[s := v.(faBroadcast := c)];
    }

    /** Writes the server status query for `target` over the current one. */
    method OverwriteStatus(s: nat, target: nat)
      requires Rendered() && s < SubnetCount && IsEnabled(nets[s].fas, target)
      modifies `views, buffer`index, buffer.data
      ensures Rendered() && views == old(views)[s := old(views)[s].(target := target)]
    {
      hide Words, WordsAll, SubnetWords, Render, FaCounted, HpCounted, HmCounted, NetsOk, BodyWidth, StartOf, Width,
           EnabledCount, StatusOffset;
      ghost var v, before := views[s], buffer.data[..];
      SpanIs(kind, nets[s], v);
      PatchTarget(E(), s, nets[s], v, target);
      RoomFor(E(), kind, nets, views, s, StatusOffset(nets[s], v) + 6);
      QueryWidth(E(), ServerStatus, nets[s].fas[target].address);
      buffer.index := faStatusIndex[s];
      factory.Query(buffer, ServerStatus, nets[s].fas[target].address);
      AfterPatch(E(), kind, nets, views, s, v.(target := target), StatusOffset(nets[s], v),
                 E()(Query(ServerStatus, nets[s].fas[target].address)), before, buffer.length);
      views := views[s := v.(target := target)];
    }

    /** Moves the server status query to the next enabled actuator. */
    method PatchStatus(s: nat)
      requires Valid() && s < SubnetCount && nets[s].fas != []
      modifies `views, `roundRobin, buffer`index, buffer.data, expectedFa
      ensures Valid()
      ensures ViewOk(nets[s], old(views)[s]) && NetOk(nets[s])
      ensures views == old(views)[s := old(views)[s].(target := Next(nets[s].fas, old(views)[s].target))]
    {
      hide Words, WordsAll, SubnetWords, Render, FaCounted, HpCounted, HmCounted, NetsOk, StartOf, Width, Skip,
           EnabledCount, FaOk, StatusAt, HpAt, LvdtAt;
      NetsFacts(nets, s);
      var fas, statusIndex := nets[s].fas, roundRobin[s];
      var target, steps := SkipDisabled(fas, Inc(statusIndex, |fas|));
      ghost var v' := views[s].(target := target);
      FaCountedMove(nets, views, expectedFa[..], s, target);
      SameHmCounts(nets, views, s, v', expectedHm[..]);
      expectedFa[fas[statusIndex].dataIndex] := 1;
      roundRobin := roundRobin[s := target];
      OverwriteStatus(s, target);
      expectedFa[fas[target].dataIndex] := 2;
    }

    /** Rewrites the hardpoint broadcast. */
    method PatchHp(s: nat, i: Inputs)
      requires Valid() && InputsOk(i) && s < SubnetCount && nets[s].hps != []
      modifies `views, buffer`index, buffer.data
      ensures Valid()
      ensures var c := HpBroadcast(kind, outer.broadcastCounter, i, nets[s].hps);
              views == old(views)[s := old(views)[s].(hpBroadcast := c)]
    {
      hide Words, WordsAll, HpBroadcast, SubnetWords, Render, FaCounted, HpCounted, HmCounted, NetsOk, BodyWidth,
           StartOf, Width;
      NetsFacts(nets, s);
      ghost var v, c := views[s], HpBroadcast(kind, outer.broadcastCounter, i, nets[s].hps);
      HpBroadcastFits(kind, outer.broadcastCounter, i, nets[s], v);
      SpanIs(kind, nets[s], v);
      PatchHpBroadcast(E(), s, nets[s], v, c);
      RoomFor(E(), kind, nets, views, s, HpOffset(nets[s], v) + Width(c));
      ghost var before := buffer.data[..];
      buffer.index := hpBroadcastIndex[s];
      WriteHpBroadcast(nets[s].hps, i);
      AfterPatch(E(), kind, nets, views, s, v.(hpBroadcast := c), HpOffset(nets[s], v), E()(c), before, buffer.length);
      SameCounts(nets, views, s, v.(hpBroadcast := c), expectedFa[..], expectedHm[..]);
      views := views[s := v.(hpBroadcast := c)];
    }

    /** FreezeSensorBusList on a subnet with both kinds of actuators: the pneumatic freeze goes to the
        place the shared index remembers, which is that of the hardpoint freeze. */
    method PatchMixedFreeze(s: nat)
      requires Valid() && s < SubnetCount && Mixed(kind, nets[s])
      modifies `views, buffer`index, buffer.data
      ensures Valid()
      ensures views == old(views)[s := old(views)[s].(hpBroadcast := PneumaticFreeze(outer.broadcastCounter))]
    {
      hide Words, WordsAll, SubnetWords, Render, FaCounted, HpCounted, HmCounted, NetsOk, BodyWidth, StartOf;
      NetsFacts(nets, s);
      ghost var v, c := views[s], PneumaticFreeze(outer.broadcastCounter);
      SpanIs(kind, nets[s], v);
      PatchHpBroadcast(E(), s, nets[s], v, c);
      RoomFor(E(), kind, nets, views, s, HpOffset(nets[s], v) + 7);
      ghost var before := buffer.data[..];
      buffer.index := faBroadcastIndex[s];
      factory.BroadcastFreeze(buffer, true, outer.broadcastCounter);
      AfterPatch(E(), kind, nets, views, s, v.(hpBroadcast := c), HpOffset(nets[s], v), E()(c), before, buffer.length);
      SameCounts(nets, views, s, v.(hpBroadcast := c), expectedFa[..], expectedHm[..]);
      views := views[s := v.(hpBroadcast := c)];
    }

    /** Rewrites the LVDT queries, sampling or not, and ticks the clock. */
    method PatchMonitors(s: nat)
      requires Valid() && s < SubnetCount && nets[s].hms != []
      modifies `views, `lvdtClock, buffer`index, buffer.data, expectedHm
      ensures Valid() && lvdtClock == Tick(old(lvdtClock))
      ensures views == old(views)[s := old(views)[s].(lvdt := old(lvdtClock) == 0)]
    {
      hide Words, WordsAll, SubnetWords, Render, FaCounted, HpCounted, HmCounted, NetsOk, BodyWidth, StartOf, Width,
           LvdtCommands, Mark;
      NetsFacts(nets, s);
      ghost var v, v' := views[s], views[s].(lvdt := lvdtClock == 0);
      var hms := nets[s].hms;
      SpanIs(kind, nets[s], v);
      PatchLvdt(E(), s, nets[s], v, lvdtClock == 0);
      RoomFor(E(), kind, nets, views, s, LvdtOffset(nets[s], v) + 6 * EnabledCount(hms));
      HmCountedAgain(nets, views, expectedHm[..], s, lvdtClock == 0);
      SameFaCounts(nets, views, s, v', expectedFa[..]);
      ghost var before := buffer.data[..];
      buffer.index := lvdtIndex[s];
      OverwriteLvdts(hms, lvdtClock == 0);
      AfterPatch(E(), kind, nets, views, s, v', LvdtOffset(nets[s], v),
                 WordsAll(E(), LvdtCommands(hms, lvdtClock == 0)), before, buffer.length);
      views := views[s := v'];
      lvdtClock := lvdtClock - 1;
      if lvdtClock < 0 {
        lvdtClock := 4;
      }
    }

    method OverwriteLvdts(hms: seq<Ilc>, sampled: bool)
      requires Ready() && HmsOk(hms) && 0 <= buffer.index && buffer.index + 6 * EnabledCount(hms) <= BufferSize
      modifies buffer`index, buffer.data, expectedHm
      ensures buffer.index == old(buffer.index) + 6 * EnabledCount(hms)
      ensures |WordsAll(E(), LvdtCommands(hms, sampled))| == 6 * EnabledCount(hms)
      ensures buffer.data[..]
           == Splice(old(buffer.data[..]), old(buffer.index), WordsAll(E(), LvdtCommands(hms, sampled)))
      ensures expectedHm[..] == Mark(old(expectedHm[..]), hms, if sampled then 4 else 3)
    {
      hide NetsOk, StartOf, Words, WordsAll;
      ghost var before, start, counts := buffer.data[..], buffer.index, expectedHm[..];
      NoWords(E(), before, start);
      assert LvdtCommands(hms[..0], sampled) == [];
      for j := 0 to |hms|
        invariant 0 <= buffer.index <= BufferSize && buffer.index == start + 6 * EnabledCount(hms[..j])
        invariant |WordsAll(E(), LvdtCommands(hms[..j], sampled))| == 6 * EnabledCount(hms[..j])
        invariant buffer.data[..] == Splice(before, start, WordsAll(E(), LvdtCommands(hms[..j], sampled)))
        invariant expectedHm[..] == Mark(counts, hms[..j], if sampled then 4 else 3)
      {
        EnabledPrefix(hms, j);
        PrefixStep(hms, j);
        LvdtCommandsWidth(E(), hms[..j + 1], sampled);
        if !hms[j].disabled {
          var a := hms[j].address;
          WordsAllConcat(E(), LvdtCommands(hms[..j], sampled), [LvdtCommand(a, sampled)]);
          WordsAllOne(E(), LvdtCommand(a, sampled));
          SpliceTwice(before, start, WordsAll(E(), LvdtCommands(hms[..j], sampled)), E()(LvdtCommand(a, sampled)));
          if sampled {
            factory.Query(buffer, Lvdt, a);
            expectedHm[hms[j].dataIndex] := 4;
          } else {
            factory.NopReportLvdt(buffer);
            expectedHm[hms[j].dataIndex] := 3;
          }
        } else {
          assert LvdtCommands(hms[..j + 1], sampled) == LvdtCommands(hms[..j], sampled);
        }
      }
      assert hms[..|hms|] == hms;
    }

    /** What comes before the status query: the one freeze command, or the force demand. */
    method PatchFirst(s: nat, i: Inputs)
      requires Valid() && InputsOk(i) && s < SubnetCount
      modifies `views, buffer`index, buffer.data
      ensures Valid()
      ensures var v, net, counter := old(views)[s], nets[s], outer.broadcastCounter;
              views == old(views)[s := v.(
                faBroadcast := if net.fas == [] || Mixed(kind, net) then v.faBroadcast
                               else FaBroadcast(kind, counter, i, net.fas),
                hpBroadcast := if !kind.Freeze? || net.hps == [] then v.hpBroadcast
                               else if Mixed(kind, net) then PneumaticFreeze(counter)
                               else HpBroadcast(kind, counter, i, net.hps))]
    {
      hide Rendered, Ready, FaBroadcast, HpBroadcast, FaCounted, HpCounted, HmCounted, NetsOk, NetOk;
      NetsAndViews();
      if kind.Freeze? {
        if nets[s].fas != [] {
          if nets[s].hps != [] { PatchMixedFreeze(s); } else { PatchFa(s, i); }
        } else if nets[s].hps != [] {
          PatchHp(s, i);
        }
      } else if nets[s].fas != [] {
        PatchFa(s, i);
      }
    }

    method UpdateSubnet(s: nat, i: Inputs)
      requires Valid() && InputsOk(i) && s < SubnetCount
      modifies `views, `roundRobin, `lvdtClock, buffer`index, buffer.data, expectedFa, expectedHm
      ensures Valid() && ViewOk(nets[s], old(views)[s]) && NetOk(nets[s])
      ensures var v := NextView(kind, outer.broadcastCounter, i, nets[s], old(views)[s], old(lvdtClock) == 0);
              views == old(views)[s := v]
      ensures lvdtClock == if nets[s].hms == [] then old(lvdtClock) else Tick(old(lvdtClock))
    {
      hide Rendered, Ready, FaBroadcast, HpBroadcast, FaCounted, HpCounted, HmCounted, NetsOk, NetOk, Next;
      NetsAndViews();
      PatchFirst(s, i);
      if nets[s].fas != [] {
        PatchStatus(s);
      }
      if !kind.Freeze? && nets[s].hps != [] {
        PatchHp(s, i);
      }
      if nets[s].hms != [] {
        PatchMonitors(s);
      }
    }

    /** One control cycle: only the volatile parts are rewritten, in place, and the buffer then renders
        the next views, its length unchanged. */
    method Update(i: Inputs)
      requires Valid() && InputsOk(i)
      modifies this, outer, buffer, buffer.data, expectedFa, expectedHm
      ensures outer.broadcastCounter == BroadcastCounter(old(outer.broadcastCounter))
      ensures outer.broadcastCounter == if old(outer.broadcastCounter) < 15 then old(outer.broadcastCounter) + 1 else 0
      ensures Valid() && buffer.length == old(buffer.length)
      ensures (forall s :: 0 <= s < SubnetCount ==> NetOk(nets[s]) && ViewOk(nets[s], old(views)[s]))
      ensures views == NextViews(kind, outer.broadcastCounter, i, nets, old(views), old(lvdtClock))
      ensures lvdtClock == ClockAt(nets, old(lvdtClock), SubnetCount)
      ensures ListSends(buffer.data[..buffer.length], kind, outer.broadcastCounter, i, nets, roundRobin,
                        Sampling(nets, old(lvdtClock)), true)
    {
      hide NetsOk, NetOk, NextView, Rendered, Ready, FaCounted, HpCounted, HmCounted, NextViews, ListSends;
      NetsAndViews();
      outer.broadcastCounter := BroadcastCounter(outer.broadcastCounter);
      ghost var was, clock := views, lvdtClock;
      UpdateSubnets(i);
      UpdatedSends(i, was, clock);
    }

    lemma UpdatedSends(i: Inputs, was: seq<View>, clock: int)
      requires Valid() && InputsOk(i) && |was| == SubnetCount == |nets|
      requires forall s :: 0 <= s < SubnetCount ==> NetOk(nets[s]) && ViewOk(nets[s], was[s])
      requires views == NextViews(kind, outer.broadcastCounter, i, nets, was, clock)
      ensures ListSends(buffer.data[..buffer.length], kind, outer.broadcastCounter, i, nets, roundRobin,
                        Sampling(nets, clock), true)
    {
      hide NetsOk, NetOk, Render, FaCounted, HpCounted, HmCounted, StartOf, NextViews, Next, ClockAt, FaBroadcast,
           HpBroadcast, ListSends, Sampling, ViewFine, AllFit, CarriesData;
      var sampled := Sampling(nets, clock);
      forall s | 0 <= s < SubnetCount
        ensures CarriesData(kind, outer.broadcastCounter, i, nets[s], views[s], true)
        ensures nets[s].hms != [] ==> views[s].lvdt == sampled[s]
      {
        NextViewsAt(kind, outer.broadcastCounter, i, nets, was, clock, s);
        NextCarries(kind, outer.broadcastCounter, i, nets[s], was[s], sampled[s]);
      }
      ViewsSend(factory.timing, kind, outer.broadcastCounter, i, nets, views, roundRobin, sampled, true);
    }

    method UpdateSubnets(i: Inputs)
      requires Valid() && InputsOk(i)
      modifies `views, `roundRobin, `lvdtClock, buffer`index, buffer.data, expectedFa, expectedHm
      ensures Valid()
      ensures forall s :: 0 <= s < SubnetCount ==> NetOk(nets[s]) && ViewOk(nets[s], old(views)[s])
      ensures views == NextViews(kind, outer.broadcastCounter, i, nets, old(views), old(lvdtClock))
      ensures lvdtClock == ClockAt(nets, old(lvdtClock), SubnetCount)
    {
      hide NetsOk, NetOk, ViewOk, NextView, Rendered, Ready, FaCounted, HpCounted, HmCounted, NextViews, Merged,
           ClockAt;
      NetsAndViews();
      ghost var counter, clock, was := outer.broadcastCounter, lvdtClock, views;
      MergedEnds(kind, counter, i, nets, was, clock);
      for s := 0 to SubnetCount
        invariant Valid() && outer.broadcastCounter == counter
        invariant lvdtClock == ClockAt(nets, clock, s) && views == Merged(kind, counter, i, nets, was, clock, s)
      {
        MergedStep(kind, counter, i, nets, was, clock, s);
        UpdateSubnet(s, i);
      }
    }

    lemma NetsAndViews()
      requires Valid()
      ensures |nets| == SubnetCount && |views| == SubnetCount
      ensures forall s :: 0 <= s < SubnetCount ==> NetOk(nets[s]) && ViewOk(nets[s], views[s])
    {
      hide FaCounted, HpCounted, HmCounted, Render;
    }
  }

  lemma NextViewsAt(kind: ListKind, counter: Byte, i: Inputs, nets: seq<Subnet>, views: seq<View>, clock: int, s: nat)
    requires InputsOk(i) && |nets| == |views| && s < |nets|
    requires forall s :: 0 <= s < |nets| ==> NetOk(nets[s]) && ViewOk(nets[s], views[s])
    ensures NextViews(kind, counter, i, nets, views, clock)[s]
         == NextView(kind, counter, i, nets[s], views[s], ClockAt(nets, clock, s) == 0)
    ensures ClockAt(nets, clock, s + 1)
         == if nets[s].hms == [] then ClockAt(nets, clock, s) else Tick(ClockAt(nets, clock, s))
  {
    hide NetOk;
  }

  /** The views after an update of the first `s` subnets. */
  function Merged(kind: ListKind, counter: Byte, i: Inputs, nets: seq<Subnet>, was: seq<View>, clock: int,
                  s: nat): (vs: seq<View>)
    requires InputsOk(i) && |nets| == |was| && s <= |nets|
    requires forall r :: 0 <= r < |nets| ==> NetOk(nets[r]) && ViewOk(nets[r], was[r])
  {
    NextViews(kind, counter, i, nets, was, clock)[..s] + was[s..]
  }

  lemma MergedStep(kind: ListKind, counter: Byte, i: Inputs, nets: seq<Subnet>, was: seq<View>, clock: int, s: nat)
    requires InputsOk(i) && |nets| == |was| && s < |nets|
    requires forall r :: 0 <= r < |nets| ==> NetOk(nets[r]) && ViewOk(nets[r], was[r])
    ensures var vs := Merged(kind, counter, i, nets, was, clock, s);
            && |vs| == |was| && vs[s] == was[s]
            && vs[s := NextView(kind, counter, i, nets[s], was[s], ClockAt(nets, clock, s) == 0)]
               == Merged(kind, counter, i, nets, was, clock, s + 1)
    ensures ClockAt(nets, clock, s + 1)
         == if nets[s].hms == [] then ClockAt(nets, clock, s) else Tick(ClockAt(nets, clock, s))
  {
    hide NetOk, ViewOk, NextView;
    var next := NextViews(kind, counter, i, nets, was, clock);
    NextViewsAt(kind, counter, i, nets, was, clock, s);
    assert (next[..s] + was[s..])[s := next[s]] == next[..s + 1] + was[s + 1..];
  }

  lemma MergedEnds(kind: ListKind, counter: Byte, i: Inputs, nets: seq<Subnet>, was: seq<View>, clock: int)
    requires InputsOk(i) && |nets| == |was|
    requires forall r :: 0 <= r < |nets| ==> NetOk(nets[r]) && ViewOk(nets[r], was[r])
    ensures Merged(kind, counter, i, nets, was, clock, 0) == was && ClockAt(nets, clock, 0) == clock
    ensures Merged(kind, counter, i, nets, was, clock, |nets|) == NextViews(kind, counter, i, nets, was, clock)
  {
    hide NetOk, ViewOk, NextView;
  }

  lemma QueryWidth(e: Encoder, kind: QueryKind, a: Byte)
    ensures |e(Query(kind, a))| == 6
  {
  }

  lemma NoWords(e: Encoder, before: seq<Word>, at: nat)
    requires at <= |before|
    ensures WordsAll(e, []) == [] && Splice(before, at, WordsAll(e, [])) == before
  {
  }

  lemma HpBroadcastFits(kind: ListKind, counter: Byte, i: Inputs, net: Subnet, v: View)
    requires InputsOk(i) && NetOk(net) && ViewFine(kind, net, v)
    ensures Width(HpBroadcast(kind, counter, i, net.hps)) == Width(v.hpBroadcast) == HpBroadcastWidth(kind)
    ensures ViewFine(kind, net, v.(hpBroadcast := HpBroadcast(kind, counter, i, net.hps)))
  {
  }

  /** Moving the status query moves the second expected reply. */
  lemma FaCountedMove(nets: seq<Subnet>, views: seq<View>, fa: seq<int>, s: nat, target: nat)
    requires NetsOk(nets) && |views| == |nets| && |fa| == FaCount && s < |nets| && nets[s].fas != []
    requires IsEnabled(nets[s].fas, views[s].target) && IsEnabled(nets[s].fas, target)
    requires FaCounted(nets, views, fa, |nets|)
    ensures nets[s].fas[target].dataIndex < FaCount && nets[s].fas[views[s].target].dataIndex < FaCount
    ensures FaCounted(nets, views[s := views[s].(target := target)],
                      fa[nets[s].fas[views[s].target].dataIndex := 1][nets[s].fas[target].dataIndex := 2], |nets|)
  {
    hide SomeEnabled;
    var fas, was := nets[s].fas, views[s].target;
    var fa' := fa[fas[was].dataIndex := 1][fas[target].dataIndex := 2];
    assert DistinctData(fas, fas, true);
    forall r, j | 0 <= r < |nets| && 0 <= j < |nets[r].fas|
      ensures fa'[nets[r].fas[j].dataIndex]
           == if r == s then FaExpected(nets[s], target, j) else FaExpected(nets[r], views[r].target, j)
    {
      assert DistinctData(fas, nets[r].fas, r == s);
      assert fa[nets[r].fas[j].dataIndex] == FaExpected(nets[r], views[r].target, j);
    }
  }

  /** Re-entering the monitor counts of a subnet after its LVDT queries were rewritten. */
  lemma HmCountedAgain(nets: seq<Subnet>, views: seq<View>, hm: seq<int>, s: nat, sampled: bool)
    requires NetsOk(nets) && |views| == |nets| && |hm| == HpCount && s < |nets| && HmCounted(nets, views, hm, |nets|)
    ensures HmCounted(nets, views[s := views[s].(lvdt := sampled)],
                      Mark(hm, nets[s].hms, if sampled then 4 else 3), |nets|)
  {
    hide Mark;
    var hms, value := nets[s].hms, if sampled then 4 else 3;
    assert DistinctData(hms, hms, true);
    MarkEffect(hm, hms, value);
    forall r, j | 0 <= r < |nets| && 0 <= j < |nets[r].hms|
      ensures Mark(hm, hms, value)[nets[r].hms[j].dataIndex]
           == if r == s then HmExpected(nets[s], sampled, j) else HmExpected(nets[r], views[r].lvdt, j)
    {
      assert hm[nets[r].hms[j].dataIndex] == HmExpected(nets[r], views[r].lvdt, j);
      assert DistinctData(hms, nets[r].hms, r == s);
      if r != s {
        assert Foreign(hms, nets[r].hms[j].dataIndex);
      }
    }
  }

  lemma FaBroadcastFits(kind: ListKind, counter: Byte, i: Inputs, net: Subnet, v: View)
    requires InputsOk(i) && NetOk(net) && ViewFine(kind, net, v)
    ensures Width(FaBroadcast(kind, counter, i, net.fas)) == Width(v.faBroadcast) == FaBroadcastWidth(kind)
    ensures ViewFine(kind, net, v.(faBroadcast := FaBroadcast(kind, counter, i, net.fas)))
  {
  }

  /** Any offset inside the frame of subnet `s` is inside the buffer. */
  lemma RoomFor(e: Encoder, kind: ListKind, nets: seq<Subnet>, views: seq<View>, s: nat, end: nat)
    requires ViewsFine(kind, nets, views) && AllFit(nets, views) && s < |nets|
    requires StartOf(kind, nets, |nets|) <= BufferSize && end <= |SubnetWords(e, s, nets[s], views[s])|
    ensures StartOf(kind, nets, s) + end <= BufferSize
  {
    SubnetWidth(e, s, nets[s], views[s]);
    SpanIs(kind, nets[s], views[s]);
    StartOfGrows(kind, nets, s + 1, |nets|);
  }

  lemma SameFaCounts(nets: seq<Subnet>, views: seq<View>, s: nat, v': View, fa: seq<int>)
    requires NetsOk(nets) && |views| == |nets| && s < |nets| && |fa| == FaCount && v'.target == views[s].target
    ensures FaCounted(nets, views, fa, |nets|) ==> FaCounted(nets, views[s := v'], fa, |nets|)
  {
    hide DistinctData;
  }

  lemma SameHmCounts(nets: seq<Subnet>, views: seq<View>, s: nat, v': View, hm: seq<int>)
    requires NetsOk(nets) && |views| == |nets| && s < |nets| && |hm| == HpCount && v'.lvdt == views[s].lvdt
    ensures HmCounted(nets, views, hm, |nets|) ==> HmCounted(nets, views[s := v'], hm, |nets|)
  {
    hide DistinctData;
  }

  /** Counts only depend on targets and sampling. */
  lemma SameCounts(nets: seq<Subnet>, views: seq<View>, s: nat, v': View, fa: seq<int>, hm: seq<int>)
    requires NetsOk(nets) && |views| == |nets| && s < |nets| && |fa| == FaCount && |hm| == HpCount
    requires v'.target == views[s].target && v'.lvdt == views[s].lvdt
    ensures FaCounted(nets, views, fa, |nets|) ==> FaCounted(nets, views[s := v'], fa, |nets|)
    ensures HmCounted(nets, views, hm, |nets|) ==> HmCounted(nets, views[s := v'], hm, |nets|)
  {
    hide FaCounted, HmCounted;
    SameFaCounts(nets, views, s, v', fa);
    SameHmCounts(nets, views, s, v', hm);
  }

  /** What is written between the start and the end of a subnet frame. */
  function PartWords(e: Encoder, net: Subnet, v: View): seq<Word>
    requires ViewOk(net, v)
  {
    WordsAll(e, FaCommands(net.fas, v.faBroadcast, v.target)) + WordsAll(e, HpCommands(net.hps, v.hpBroadcast))
    + WordsAll(e, HmCommands(net.hms)) + WordsAll(e, LvdtCommands(net.hms, v.lvdt))
  }

  lemma FrameIs(e: Encoder, s: nat, net: Subnet, v: View)
    requires Fits(net, v)
    ensures |PartWords(e, net, v)| + 2 == BodyWidth(net, v)
    ensures [SubnetAddress(s), |PartWords(e, net, v)| + 2, WaitTriggerWord] + PartWords(e, net, v) + [TriggerIrqWord]
         == SubnetWords(e, s, net, v)
  {
    hide WordsAll, FaCommands, HpCommands, HmCommands, LvdtCommands, EnabledCount;
    PartWidths(e, net, v);
    WrapIs(Head(s, net, v), WordsAll(e, FaCommands(net.fas, v.faBroadcast, v.target)),
           WordsAll(e, HpCommands(net.hps, v.hpBroadcast)), WordsAll(e, HmCommands(net.hms)),
           WordsAll(e, LvdtCommands(net.hms, v.lvdt)));
  }

  lemma Reassociate(q: seq<Word>, a: seq<Word>, b: seq<Word>, c: seq<Word>, d: seq<Word>)
    ensures q + a + b + c + d == q + (a + b + c + d)
  {
  }

  lemma WrapIs(head: seq<Word>, fa: seq<Word>, hp: seq<Word>, hm: seq<Word>, lv: seq<Word>)
    ensures Wrap(head, fa, hp, hm, lv) == head + (fa + hp + hm + lv) + [TriggerIrqWord]
  {
  }

  lemma FillLength(p: seq<Word>, address: Word, body: seq<Word>)
    requires |body| + 2 < 0x1_0000
    ensures Splice(p + [address, 0, WaitTriggerWord] + body + [TriggerIrqWord], |p| + 1, [|body| + 2])
         == p + ([address, |body| + 2, WaitTriggerWord] + body + [TriggerIrqWord])
  {
  }

  /** The three setpoint tables of a force demand, filled actuator by actuator. */
  method Demand(fas: seq<Ilc>, i: Inputs) returns (saa: Saa, daaPrimary: Daa, daaSecondary: Daa)
    requires InputsOk(i) && FasOk(fas)
    ensures saa == SaaOf(fas, i.primary)
    ensures daaPrimary == DaaPrimaryOf(fas, i.primary)
    ensures daaSecondary == DaaSecondaryOf(fas, i.secondary)
  {
    saa, daaPrimary, daaSecondary := seq(16, _ => 0), seq(32, _ => 0), seq(32, _ => 0);
    for j := 0 to |fas|
      invariant saa == SaaOf(fas[..j], i.primary)
      invariant daaPrimary == DaaPrimaryOf(fas[..j], i.primary)
      invariant daaSecondary == DaaSecondaryOf(fas[..j], i.secondary)
    {
      PrefixStep(fas, j);
      var d := fas[j];
      if d.address <= 16 {
        saa := saa[d.address - 1 := i.primary[d.dataIndex]];
      } else {
        daaPrimary := daaPrimary[d.address - 17 := i.primary[d.dataIndex]];
        daaSecondary := daaSecondary[d.address - 17 := i.secondary[d.secondaryIndex]];
      }
    }
    assert fas[..|fas|] == fas;
  }

  /** The step bytes of a motor broadcast; entries of absent addresses stay as they were. */
  method MotorSteps(hps: seq<Ilc>, i: Inputs) returns (steps: Steps)
    requires InputsOk(i) && HpsOk(hps)
    ensures steps == StepsOf(hps, i.stepsCommanded, i.stack)
  {
    steps := i.stack;
    for j := 0 to |hps|
      invariant steps == StepsOf(hps[..j], i.stepsCommanded, i.stack)
    {
      PrefixStep(hps, j);
      steps := steps[hps[j].address - 1 := StepByte(i.stepsCommanded[hps[j].dataIndex])];
    }
    assert hps[..|hps|] == hps;
  }

  lemma EmptyWords(e: Encoder, p: seq<Word>)
    ensures p + WordsAll(e, []) == p
  {
  }

  /** A command written behind what has been emitted extends it. */
  lemma Emitted(e: Encoder, before: seq<Word>, at: nat, p: seq<Word>, cs: seq<Command>, c: Command)
    requires at + Width(c) <= |before| && before[..at] == p + WordsAll(e, cs)
    ensures Splice(before, at, e(c))[..at + Width(c)] == p + WordsAll(e, cs + [c])
  {
    hide Flatten;
    SplicePrefix(before, at, e(c));
    WordsAllConcat(e, cs, [c]);
    WordsAllOne(e, c);
    assert p + WordsAll(e, cs) + e(c) == p + (WordsAll(e, cs) + e(c));
  }
}
