/** Whole runs of a bus list: what its cached buffer holds after buildBuffer and any number of
    updates, and how its expected response counts relate to the frames on the wire. */
module BusTheorems {
  import opened Sequences
  import opened Modbus
  import opened BusLayout
  import opened BusInputs
  import opened RoundRobin
  import opened Accounting
  import opened BusLists
  import opened ModbusBuffers

  /** The views of a from-scratch rendering with given targets and sampling. */
  function FreshViews(kind: ListKind, counter: Byte, i: Inputs, nets: seq<Subnet>,
                      targets: seq<nat>, sampled: seq<bool>): (vs: seq<View>)
    requires InputsOk(i) && |targets| == |nets| && |sampled| == |nets| && forall s :: 0 <= s < |nets| ==> NetOk(nets[s])
    ensures |vs| == |nets|
  {
    seq(|nets|, s requires 0 <= s < |nets| => FreshView(kind, counter, i, nets[s], targets[s], sampled[s]))
  }

  function TargetsIn(views: seq<View>): (ts: seq<nat>)
    ensures |ts| == |views|
  {
    seq(|views|, s requires 0 <= s < |views| => views[s].target)
  }

  function SampledIn(views: seq<View>): (ss: seq<bool>)
    ensures |ss| == |views|
  {
    seq(|views|, s requires 0 <= s < |views| => views[s].lvdt)
  }

  /** Two views a subnet does not tell apart: they differ only in parts the subnet does not have. */
  ghost predicate Indistinct(net: Subnet, v: View, w: View) {
    && (net.fas != [] ==> v.faBroadcast == w.faBroadcast && v.target == w.target)
    && (net.hps != [] ==> v.hpBroadcast == w.hpBroadcast)
    && (net.hms != [] ==> v.lvdt == w.lvdt)
  }

  lemma IndistinctWords(e: Encoder, s: nat, net: Subnet, v: View, w: View)
    requires Fits(net, v) && Indistinct(net, v, w)
    ensures Fits(net, w) && SubnetWords(e, s, net, v) == SubnetWords(e, s, net, w)
  {
    hide WordsAll, Queries, HpQueries;
    if net.hms == [] {
      assert LvdtCommands(net.hms, v.lvdt) == LvdtCommands(net.hms, w.lvdt);
    }
  }

  lemma IndistinctRender(e: Encoder, nets: seq<Subnet>, vs: seq<View>, ws: seq<View>)
    requires AllFit(nets, vs) && |ws| == |nets| && forall s :: 0 <= s < |nets| ==> Indistinct(nets[s], vs[s], ws[s])
    ensures AllFit(nets, ws) && Render(e, nets, vs) == Render(e, nets, ws)
  {
    hide SubnetWords, Fits, Indistinct, Flatten;
    forall s | 0 <= s < |nets|
      ensures Fits(nets[s], ws[s]) && SubnetWords(e, s, nets[s], vs[s]) == SubnetWords(e, s, nets[s], ws[s])
    {
      IndistinctWords(e, s, nets[s], vs[s], ws[s]);
    }
    assert SubnetFrames(e, nets, vs) == SubnetFrames(e, nets, ws);
  }

  /** Without mixed freeze subnets the patched view is the freshly rendered one. */
  lemma NextIsFresh(kind: ListKind, counter: Byte, i: Inputs, net: Subnet, v: View, sampled: bool)
    requires InputsOk(i) && NetOk(net) && ViewOk(net, v) && !Mixed(kind, net)
    ensures var v' := NextView(kind, counter, i, net, v, sampled);
            Indistinct(net, v', FreshView(kind, counter, i, net, v'.target, v'.lvdt))
  {
  }

  // ----- the shared index of the freeze list ---------------------------------------------------------

  /** The first word of a subnet's hardpoint broadcast. */
  lemma HpBroadcastWord(e: Encoder, s: nat, net: Subnet, v: View)
    requires Fits(net, v) && net.hps != [] && Width(v.hpBroadcast) > 0
    ensures HpOffset(net, v) < |SubnetWords(e, s, net, v)|
    ensures SubnetWords(e, s, net, v)[HpOffset(net, v)] == e(v.hpBroadcast)[0]
  {
    hide SubnetWords, BodyWidth, HpOffset;
    PatchHpBroadcast(e, s, net, v, v.hpBroadcast);
    assert v.(hpBroadcast := v.hpBroadcast) == v;
    SpliceAt(SubnetWords(e, s, net, v), HpOffset(net, v), e(v.hpBroadcast));
  }

  lemma SpliceAt(s: seq<Word>, at: nat, m: seq<Word>)
    requires at + |m| <= |s| && |m| > 0 && Splice(s, at, m) == s
    ensures s[at] == m[0]
  {
    assert Splice(s, at, m)[at] == m[0];
  }

  lemma FreezeWords(t: Timing, counter: Byte)
    ensures IlcEncoder(t)(PneumaticFreeze(counter))[0] != IlcEncoder(t)(HardpointFreeze(counter))[0]
  {
    hide Crc;
    assert Payload(PneumaticFreeze(counter))[0] == 249 && Payload(HardpointFreeze(counter))[0] == 248;
  }

  /** On a mixed subnet the patched frame is wrong, whatever the data. */
  lemma MixedIsStale(t: Timing, counter: Byte, i: Inputs, s: nat, net: Subnet, v: View, sampled: bool)
    requires InputsOk(i) && NetOk(net) && ViewFine(Freeze, net, v) && Mixed(Freeze, net)
    ensures var v' := NextView(Freeze, counter, i, net, v, sampled);
            var w := FreshView(Freeze, counter, i, net, v'.target, v'.lvdt);
            Fits(net, v') && Fits(net, w) ==>
              SubnetWords(IlcEncoder(t), s, net, v') != SubnetWords(IlcEncoder(t), s, net, w)
  {
    hide SubnetWords, WordsAll, Words, BodyWidth;
    var e := IlcEncoder(t);
    var v' := NextView(Freeze, counter, i, net, v, sampled);
    var w := FreshView(Freeze, counter, i, net, v'.target, v'.lvdt);
    if Fits(net, v') && Fits(net, w) {
      HpBroadcastWord(e, s, net, v');
      HpBroadcastWord(e, s, net, w);
      FreezeWords(t, counter);
    }
  }

  lemma RenderDiffers(e: Encoder, nets: seq<Subnet>, vs: seq<View>, ws: seq<View>, s: nat)
    requires |nets| == SubnetCount && AllFit(nets, vs) && AllFit(nets, ws) && s < |nets|
    requires SubnetWords(e, s, nets[s], vs[s]) != SubnetWords(e, s, nets[s], ws[s])
    ensures Render(e, nets, vs) != Render(e, nets, ws)
  {
    hide SubnetWords, BodyWords, Render, Parse;
    ParsesToFiveFrames(e, nets, vs);
    ParsesToFiveFrames(e, nets, ws);
    FrameShape(e, s, nets[s], vs[s]);
    FrameShape(e, s, nets[s], ws[s]);
    assert Frames(e, nets, vs)[s] != Frames(e, nets, ws)[s];
  }

  /** Cache refinement, exactly: one update leaves the buffer equal to a from-scratch rendering with the
      current data if and only if no subnet of a freeze list has both force actuators and hardpoints. */
  lemma CacheRefinement(t: Timing, kind: ListKind, counter: Byte, i: Inputs, nets: seq<Subnet>, views: seq<View>,
                        clock: int)
    requires NetsOk(nets) && InputsOk(i) && ViewsFine(kind, nets, views)
    requires StartOf(kind, nets, SubnetCount) <= BufferSize
    ensures var next := NextViews(kind, counter, i, nets, views, clock);
            var scratch := FreshViews(kind, counter, i, nets, TargetsIn(next), SampledIn(next));
            && AllFit(nets, next) && AllFit(nets, scratch)
            && (Render(IlcEncoder(t), nets, next) == Render(IlcEncoder(t), nets, scratch)
                <==> forall s :: 0 <= s < SubnetCount ==> !Mixed(kind, nets[s]))
  {
    hide NetOk, FaBroadcast, HpBroadcast, Next, SubnetWords, Render, StartOf, DistinctData, IlcEncoder;
    var e := IlcEncoder(t);
    var next := NextViews(kind, counter, i, nets, views, clock);
    var scratch := FreshViews(kind, counter, i, nets, TargetsIn(next), SampledIn(next));
    NextFine(kind, counter, i, nets, views, clock);
    ViewsFit(kind, nets, next);
    ViewsFit(kind, nets, scratch);
    if s :| 0 <= s < SubnetCount && Mixed(kind, nets[s]) {
      MixedIsStale(t, counter, i, s, nets[s], views[s], ClockAt(nets, clock, s) == 0);
      RenderDiffers(e, nets, next, scratch, s);
    } else {
      forall s | 0 <= s < |nets|
        ensures Indistinct(nets[s], next[s], scratch[s])
      {
        NextIsFresh(kind, counter, i, nets[s], views[s], ClockAt(nets, clock, s) == 0);
      }
      IndistinctRender(e, nets, next, scratch);
    }
  }

  lemma NextFineOne(kind: ListKind, counter: Byte, i: Inputs, net: Subnet, v: View, sampled: bool)
    requires NetOk(net) && InputsOk(i) && ViewFine(kind, net, v)
    ensures var v' := NextView(kind, counter, i, net, v, sampled);
            ViewFine(kind, net, v') && ViewFine(kind, net, FreshView(kind, counter, i, net, v'.target, v'.lvdt))
  {
    hide Skip, SaaOf, DaaPrimaryOf, DaaSecondaryOf, StepsOf;
  }

  /** Updated and freshly rendered views keep the shape of the layout. */
  lemma NextFine(kind: ListKind, counter: Byte, i: Inputs, nets: seq<Subnet>, views: seq<View>, clock: int)
    requires NetsOk(nets) && InputsOk(i) && ViewsFine(kind, nets, views)
    ensures var next := NextViews(kind, counter, i, nets, views, clock);
            && ViewsFine(kind, nets, next)
            && ViewsFine(kind, nets, FreshViews(kind, counter, i, nets, TargetsIn(next), SampledIn(next)))
  {
    hide DistinctData, NextView, FreshView, NetOk, ViewSound;
    forall s | 0 <= s < |nets|
      ensures var v' := NextView(kind, counter, i, nets[s], views[s], ClockAt(nets, clock, s) == 0);
              && ViewFine(kind, nets[s], v')
              && ViewFine(kind, nets[s], FreshView(kind, counter, i, nets[s], v'.target, v'.lvdt))
    {
      NextFineOne(kind, counter, i, nets[s], views[s], ClockAt(nets, clock, s) == 0);
    }
  }

  // ----- runs ------------------------------------------------------------------------------------------

  /** The counter and data one rendering used. Other lists advance the shared counter in between. */
  datatype Cycle = Cycle(counter: Byte, inputs: Inputs)

  /** The views after buildBuffer and the given updates. */
  function ViewsAfter(kind: ListKind, nets: seq<Subnet>, first: Cycle, cycles: seq<Cycle>): (vs: seq<View>)
    requires NetsOk(nets) && InputsOk(first.inputs) && forall k :: 0 <= k < |cycles| ==> InputsOk(cycles[k].inputs)
    ensures |vs| == |nets| && ViewsFine(kind, nets, vs)
    decreases |cycles|
  {
    if cycles == [] then FirstViews(kind, first.counter, first.inputs, nets)
    else
      var n := |cycles| - 1;
      var before := ViewsAfter(kind, nets, first, cycles[..n]);
      NextFine(kind, cycles[n].counter, cycles[n].inputs, nets, before, ClockBefore(nets, n));
      NextViews(kind, cycles[n].counter, cycles[n].inputs, nets, before, ClockBefore(nets, n))
  }

  /** The status target of a subnet after `n` updates. */
  function TargetAfter(net: Subnet, n: nat): nat
    requires NetOk(net)
  {
    if net.fas == [] then 0 else Target(net.fas, Skip(net.fas, 0), n)
  }

  lemma {:induction false} TargetsRotate(kind: ListKind, nets: seq<Subnet>, first: Cycle, cycles: seq<Cycle>, s: nat)
    requires NetsOk(nets) && InputsOk(first.inputs) && forall k :: 0 <= k < |cycles| ==> InputsOk(cycles[k].inputs)
    requires s < |nets| && nets[s].fas != []
    ensures ViewsAfter(kind, nets, first, cycles)[s].target == TargetAfter(nets[s], |cycles|)
    decreases |cycles|
  {
    hide DistinctData, Skip, ViewFine, FaBroadcast, HpBroadcast;
    if cycles != [] {
      TargetsRotate(kind, nets, first, cycles[..|cycles| - 1], s);
    }
  }

  /** The from-scratch rendering after `n` updates: the last data, the status query at its place in
      the rotation, the LVDTs sampled as the shared clock says. */
  function ScratchViews(kind: ListKind, nets: seq<Subnet>, last: Cycle, n: nat): (vs: seq<View>)
    requires NetsOk(nets) && InputsOk(last.inputs) && n > 0
    ensures |vs| == |nets|
  {
    seq(|nets|, s requires 0 <= s < |nets| =>
      FreshView(kind, last.counter, last.inputs, nets[s], TargetAfter(nets[s], n),
                ClockAt(nets, ClockBefore(nets, n - 1), s) == 0))
  }

  lemma RunIndistinct(kind: ListKind, nets: seq<Subnet>, first: Cycle, cycles: seq<Cycle>, s: nat)
    requires NetsOk(nets) && InputsOk(first.inputs) && forall k :: 0 <= k < |cycles| ==> InputsOk(cycles[k].inputs)
    requires cycles != [] && s < |nets| && !Mixed(kind, nets[s])
    ensures Indistinct(nets[s], ViewsAfter(kind, nets, first, cycles)[s],
                       ScratchViews(kind, nets, cycles[|cycles| - 1], |cycles|)[s])
  {
    hide DistinctData, FaBroadcast, HpBroadcast, Skip, Next, Target, ClockAt, ClockBefore;
    var n := |cycles|;
    var last, before := cycles[n - 1], ViewsAfter(kind, nets, first, cycles[..n - 1]);
    NextIsFresh(kind, last.counter, last.inputs, nets[s], before[s], ClockAt(nets, ClockBefore(nets, n - 1), s) == 0);
    if nets[s].fas != [] { TargetsRotate(kind, nets, first, cycles, s); }
  }

  /** Cache refinement over whole runs: after buildBuffer and any positive number of updates, whatever the
      data and counters were, the buffer is the from-scratch rendering; its length never changes. */
  lemma RunRenders(t: Timing, kind: ListKind, nets: seq<Subnet>, first: Cycle, cycles: seq<Cycle>)
    requires NetsOk(nets) && InputsOk(first.inputs) && forall k :: 0 <= k < |cycles| ==> InputsOk(cycles[k].inputs)
    requires StartOf(kind, nets, SubnetCount) <= BufferSize && cycles != []
    requires forall s :: 0 <= s < SubnetCount ==> !Mixed(kind, nets[s])
    ensures AllFit(nets, ViewsAfter(kind, nets, first, cycles))
    ensures AllFit(nets, ScratchViews(kind, nets, cycles[|cycles| - 1], |cycles|))
    ensures Render(IlcEncoder(t), nets, ViewsAfter(kind, nets, first, cycles))
         == Render(IlcEncoder(t), nets, ScratchViews(kind, nets, cycles[|cycles| - 1], |cycles|))
    ensures |Render(IlcEncoder(t), nets, ViewsAfter(kind, nets, first, cycles))| == StartOf(kind, nets, SubnetCount)
  {
    hide DistinctData, Indistinct, SubnetWords, Render, StartOf, IlcEncoder, ViewsAfter, ScratchViews, ViewFine;
    var views := ViewsAfter(kind, nets, first, cycles);
    ViewsFit(kind, nets, views);
    RenderLength(IlcEncoder(t), kind, nets, views);
    forall s | 0 <= s < |nets|
      ensures Indistinct(nets[s], views[s], ScratchViews(kind, nets, cycles[|cycles| - 1], |cycles|)[s])
    {
      RunIndistinct(kind, nets, first, cycles, s);
    }
    IndistinctRender(IlcEncoder(t), nets, views, ScratchViews(kind, nets, cycles[|cycles| - 1], |cycles|));
  }

  /** The cycles of updates with the given inputs, the shared counter having been left at `counters` before them. */
  function CyclesOf(counters: seq<Byte>, inputs: seq<Inputs>): (cycles: seq<Cycle>)
    requires |counters| == |inputs|
    ensures |cycles| == |inputs|
  {
    seq(|inputs|, k requires 0 <= k < |inputs| => Cycle(BroadcastCounter(counters[k]), inputs[k]))
  }

  lemma ViewsExtend(kind: ListKind, nets: seq<Subnet>, first: Cycle, cycles: seq<Cycle>, n: nat)
    requires NetsOk(nets) && InputsOk(first.inputs) && forall k :: 0 <= k < |cycles| ==> InputsOk(cycles[k].inputs)
    requires n < |cycles|
    ensures var views := ViewsAfter(kind, nets, first, cycles[..n]);
            && (forall s :: 0 <= s < |nets| ==> NetOk(nets[s]) && ViewOk(nets[s], views[s]))
            && ViewsAfter(kind, nets, first, cycles[..n + 1])
            == NextViews(kind, cycles[n].counter, cycles[n].inputs, nets, views, ClockBefore(nets, n))
  {
    hide DistinctData, NextViews, FirstViews;
    assert cycles[..n + 1][..n] == cycles[..n];
  }

  /** A list object through a run: built, then updated once per cycle, other lists having left the shared counter
      anywhere in between. Its buffer holds the views of the run, and so, without mixed freeze subnets, exactly the
      words of a from-scratch rendering of the last cycle. */
  method BuildAndUpdate(b: BusList, first: Inputs, counters: seq<Byte>, inputs: seq<Inputs>)
    requires b.Ready() && InputsOk(first) && |counters| == |inputs|
    requires forall k :: 0 <= k < |inputs| ==> InputsOk(inputs[k])
    modifies b, b.outer, b.buffer, b.buffer.data, b.expectedFa, b.expectedHp, b.expectedHm
    ensures b.Valid() && NetsOk(b.nets) && b.lvdtClock == ClockBefore(b.nets, |inputs|)
    ensures var begin, cycles := Cycle(old(b.outer.broadcastCounter), first), CyclesOf(counters, inputs);
            && b.views == ViewsAfter(b.kind, b.nets, begin, cycles)
            && b.buffer.length == StartOf(b.kind, b.nets, SubnetCount)
            && b.buffer.length <= BufferSize == b.buffer.data.Length
            && (inputs != [] && (forall s :: 0 <= s < SubnetCount ==> !Mixed(b.kind, b.nets[s])) ==>
                  var scratch := ScratchViews(b.kind, b.nets, cycles[|cycles| - 1], |cycles|);
                  && AllFit(b.nets, scratch)
                  && b.buffer.data[..b.buffer.length] == Render(IlcEncoder(b.factory.timing), b.nets, scratch))
  {
    hide DistinctData, ViewsAfter, NextViews, FirstViews, ScratchViews, Render, StartOf, ClockAt,
         FaCounted, HpCounted, HmCounted, NetsOk, AllFit, ViewsFine, ListSends, FirstEnabled;
    ghost var begin, cycles := Cycle(b.outer.broadcastCounter, first), CyclesOf(counters, inputs);
    b.BuildBuffer(first);
    ViewsBegin(b.kind, b.nets, begin, cycles);
    for n := 0 to |inputs|
      invariant b.Valid() && b.lvdtClock == ClockBefore(b.nets, n)
      invariant b.views == ViewsAfter(b.kind, b.nets, begin, cycles[..n])
    {
      ViewsExtend(b.kind, b.nets, begin, cycles, n);
      b.outer.broadcastCounter := counters[n];
      b.Update(inputs[n]);
    }
    assert cycles[..|inputs|] == cycles;
    if inputs != [] && forall s :: 0 <= s < SubnetCount ==> !Mixed(b.kind, b.nets[s]) {
      RunRenders(b.factory.timing, b.kind, b.nets, begin, cycles);
    }
  }

  lemma ViewsBegin(kind: ListKind, nets: seq<Subnet>, first: Cycle, cycles: seq<Cycle>)
    requires NetsOk(nets) && InputsOk(first.inputs)
    ensures ViewsAfter(kind, nets, first, cycles[..0]) == FirstViews(kind, first.counter, first.inputs, nets)
  {
    hide NetsOk, FirstViews;
  }

  // ----- expected responses ------------------------------------------------------------------------------

  /** Replies that a buffer, as the FPGA parses and runs it, provokes on subnet `s` from address `a`. */
  function BufferReplies(words: seq<Word>, s: nat, a: Byte): nat {
    var frames := Parse(words).1;
    if s < |frames| then Replies(Scan(frames[s].body, []), a) else 0
  }

  lemma BufferRepliesAre(t: Timing, nets: seq<Subnet>, views: seq<View>, s: nat, a: Byte)
    requires |nets| == SubnetCount && AllFit(nets, views) && s < |nets|
    ensures BufferReplies(Render(IlcEncoder(t), nets, views), s, a) == WireReplies(t, nets[s], views[s], a)
  {
    hide Render, Scan, Replies, BodyWords, IlcEncoder, Parse;
    ParsesToFiveFrames(IlcEncoder(t), nets, views);
  }

  /** In every valid state of a bus list, each expected response entry is the number of replies the
      buffer on the wire provokes from that device. */
  lemma ResponsesAccounted(b: BusList, s: nat)
    requires b.Valid() && s < SubnetCount && DistinctAddresses(b.nets[s])
    ensures |b.views| == |b.nets| == SubnetCount
    ensures forall j :: 0 <= j < |b.nets[s].fas| ==>
              && FaOk(b.nets[s].fas[j])
              && b.expectedFa[b.nets[s].fas[j].dataIndex]
                 == BufferReplies(b.buffer.data[..b.buffer.length], s, b.nets[s].fas[j].address)
                 == FaExpected(b.nets[s], b.views[s].target, j)
    ensures forall j :: 0 <= j < |b.nets[s].hps| ==>
              && HpOk(b.nets[s].hps[j])
              && b.expectedHp[b.nets[s].hps[j].dataIndex]
                 == BufferReplies(b.buffer.data[..b.buffer.length], s, b.nets[s].hps[j].address)
                 == HpExpected(b.nets[s], j)
    ensures forall j :: 0 <= j < |b.nets[s].hms| ==>
              && HmOk(b.nets[s].hms[j])
              && b.expectedHm[b.nets[s].hms[j].dataIndex]
                 == BufferReplies(b.buffer.data[..b.buffer.length], s, b.nets[s].hms[j].address)
                 == HmExpected(b.nets[s], b.views[s].lvdt, j)
  {
    hide BufferReplies, WireReplies, Render, DistinctAddresses, NetsOk, StartOf, IlcEncoder;
    var t, net, v := b.factory.timing, b.nets[s], b.views[s];
    forall j | 0 <= j < |net.fas|
      ensures BufferReplies(b.buffer.data[..b.buffer.length], s, net.fas[j].address) == FaExpected(net, v.target, j)
    {
      BufferRepliesAre(t, b.nets, b.views, s, net.fas[j].address);
      FaAccounted(t, net, v, j);
    }
    forall j | 0 <= j < |net.hps|
      ensures BufferReplies(b.buffer.data[..b.buffer.length], s, net.hps[j].address) == HpExpected(net, j)
    {
      BufferRepliesAre(t, b.nets, b.views, s, net.hps[j].address);
      HpAccounted(t, net, v, j);
    }
    forall j | 0 <= j < |net.hms|
      ensures BufferReplies(b.buffer.data[..b.buffer.length], s, net.hms[j].address) == HmExpected(net, v.lvdt, j)
    {
      BufferRepliesAre(t, b.nets, b.views, s, net.hms[j].address);
      HmAccounted(t, net, v, j);
    }
  }
}
