/** Timing of an accepted move: the hardpoints run in proportion, so they finish close together. */
module CoordinatedMove {
  import opened Arithmetic
  import opened Hardpoints
  import opened HardpointRuns

  /** A queue after `x` of its steps have been worked off. */
  function Shrink(q: int, x: nat): int {
    if Abs(q) <= x then 0 else q - Sign(q) * x
  }

  lemma ShrinkTwice(q: int, x: nat, k: nat)
    ensures Shrink(Shrink(q, x), k) == Shrink(q, x + k)
  {
  }

  /** `n` control cycles, one reading of all hardpoints each. */
  function Cycles(rss: seq<Readings>): (cs: seq<Call>)
    ensures CallsOk(cs) && |cs| == |rss|
  {
    seq(|rss|, k requires 0 <= k < |rss| => UpdateSteps(rss[k]))
  }

  ghost predicate OnMove(h: Hardpoint) {
    h.motion == Stepping || (h.motion == Standby && h.queued == 0)
  }

  lemma WorkOffLaw(st: Settings, h: Hardpoint, r: Reading)
    requires SettingsOk(st) && OnMove(h) && h.scaled >= 1
    ensures var h' := UpdateOne(st, h, r);
            OnMove(h') && h'.scaled == h.scaled && h'.queued == Shrink(h.queued, h.scaled)
  {
    hide ChaseSteps, EncoderSteps;
  }

  /** The queue of a hardpoint on a move after any number of cycles, whatever is measured. */
  lemma {:induction false} QueueLaw(st: Settings, s: Hexapod, rss: seq<Readings>, i: nat)
    requires SettingsOk(st) && i < HpCount && OnMove(s[i]) && s[i].scaled >= 1
    ensures var h := Run(st, s, Cycles(rss))[i];
            OnMove(h) && h.scaled == s[i].scaled && h.queued == Shrink(s[i].queued, |rss| * s[i].scaled)
    decreases |rss|
  {
    hide UpdateOne, Shrink;
    var n := |rss|;
    if n == 0 {
      ShrinkNothing(s[i].queued);
    } else {
      QueueLaw(st, s, rss[..n - 1], i);
      assert Cycles(rss)[..n - 1] == Cycles(rss[..n - 1]);
      var h := Run(st, s, Cycles(rss[..n - 1]))[i];
      WorkOffLaw(st, h, rss[n - 1][i]);
      ShrinkTwice(s[i].queued, (n - 1) * s[i].scaled, s[i].scaled);
      assert (n - 1) * s[i].scaled + s[i].scaled == n * s[i].scaled;
    }
  }

  lemma ShrinkNothing(q: int)
    ensures Shrink(q, 0) == q
  {
  }

  /** What an accepted move sets up. */
  lemma MoveSetsUp(st: Settings, s: Hexapod, wanted: seq<int>, i: nat)
    requires SettingsOk(st) && |wanted| == HpCount && i < HpCount
    requires Accepts(s, seq(HpCount, k requires 0 <= k < HpCount => wanted[k] != 0))
    ensures var h := Moved(st, s, wanted)[i];
            OnMove(h) && h.queued == wanted[i] && h.scaled == Scaled(st, wanted[i], Longest(wanted))
  {
    hide Scaled, Longest, Accepts;
    var queued := seq(HpCount, k requires 0 <= k < HpCount => Queue(s[k], wanted[k], Stepping));
    assert Queues(queued) == wanted;
  }

  /** Cross-multiplied bounds of the proportional step limit. */
  lemma ShareBounds(st: Settings, q: int, longest: nat)
    requires SettingsOk(st) && longest > 0 && Abs(q) <= longest
    ensures var k := Scaled(st, q, longest);
            && k >= 1 && 2 * longest * k >= st.maxSteps * Abs(q)
            && (st.maxSteps * Abs(q) >= longest ==> k * longest <= st.maxSteps * Abs(q))
            && (Abs(q) == longest ==> k == st.maxSteps)
  {
    hide FloorDiv;
    var a, k := st.maxSteps * Abs(q), Scaled(st, q, longest);
    ScaledBound(st, q, longest);
    assert k * longest + longest >= a;
    MulMonotone(1, k, longest);
    assert 2 * longest * k == k * longest + k * longest;
    if a >= longest {
      QuotientPositive(a, longest);
    }
  }

  lemma QuotientPositive(a: nat, b: nat)
    requires b > 0 && a >= b
    ensures FloorDiv(a, b) >= 1
  {
  }

  /** Whether the move of hardpoint `i` is worked off after the given cycles. */
  ghost predicate WorkedOff(st: Settings, s: Hexapod, wanted: seq<int>, rss: seq<Readings>, i: nat)
    requires SettingsOk(st) && |wanted| == HpCount && i < HpCount
  {
    Run(st, Moved(st, s, wanted), Cycles(rss))[i].queued == 0
  }

  lemma WorkedOffWhen(st: Settings, s: Hexapod, wanted: seq<int>, rss: seq<Readings>, i: nat)
    requires SettingsOk(st) && |wanted| == HpCount && i < HpCount && Longest(wanted) > 0
    requires Accepts(s, seq(HpCount, k requires 0 <= k < HpCount => wanted[k] != 0))
    ensures WorkedOff(st, s, wanted, rss, i) <==> |rss| * Scaled(st, wanted[i], Longest(wanted)) >= Abs(wanted[i])
  {
    hide Scaled, Moved, Accepts, Longest, Run;
    MoveSetsUp(st, s, wanted, i);
    ShareBounds(st, wanted[i], Longest(wanted));
    QueueLaw(st, Moved(st, s, wanted), rss, i);
  }

  /** The hardpoint with the longest way is done after exactly ceil(Q/M) cycles. */
  lemma LongestFinishes(st: Settings, s: Hexapod, wanted: seq<int>, rss: seq<Readings>, i: nat)
    requires SettingsOk(st) && |wanted| == HpCount && i < HpCount && Longest(wanted) > 0
    requires Accepts(s, seq(HpCount, k requires 0 <= k < HpCount => wanted[k] != 0))
    requires Abs(wanted[i]) == Longest(wanted)
    ensures WorkedOff(st, s, wanted, rss, i) <==> |rss| >= CeilDiv(Longest(wanted), st.maxSteps)
  {
    hide Scaled, Accepts, Longest, WorkedOff;
    WorkedOffWhen(st, s, wanted, rss, i);
    ShareBounds(st, wanted[i], Longest(wanted));
    CeilDivLeast(Longest(wanted), st.maxSteps, |rss|);
  }

  /** Every hardpoint is done after ceil(2Q/M) cycles. */
  lemma AllFinish(st: Settings, s: Hexapod, wanted: seq<int>, rss: seq<Readings>, i: nat)
    requires SettingsOk(st) && |wanted| == HpCount && i < HpCount && Longest(wanted) > 0
    requires Accepts(s, seq(HpCount, k requires 0 <= k < HpCount => wanted[k] != 0))
    requires |rss| >= CeilDiv(2 * Longest(wanted), st.maxSteps)
    ensures WorkedOff(st, s, wanted, rss, i)
  {
    hide Scaled, Accepts, Longest, WorkedOff;
    var n, m, q, longest := |rss|, st.maxSteps, Abs(wanted[i]), Longest(wanted);
    var k := Scaled(st, wanted[i], longest);
    WorkedOffWhen(st, s, wanted, rss, i);
    ShareBounds(st, wanted[i], longest);
    CeilDivLeast(2 * longest, m, n);
    EnoughCycles(n, m, q, longest, k);
  }

  lemma EnoughCycles(n: nat, m: nat, q: nat, longest: nat, k: nat)
    requires m >= 1 && n * m >= 2 * longest && 2 * longest * k >= m * q
    ensures n * k >= q
  {
    MulMonotone(2 * longest, n * m, k);
    assert (n * m) * k == (n * k) * m;
    assert q * m == m * q;
    MulCancelAtMost(q, n * k, m);
  }

  /** A hardpoint whose proportional share is at least one step per cycle is not done before the longest. */
  lemma NoneFinishesEarly(st: Settings, s: Hexapod, wanted: seq<int>, rss: seq<Readings>, i: nat)
    requires SettingsOk(st) && |wanted| == HpCount && i < HpCount && Longest(wanted) > 0
    requires Accepts(s, seq(HpCount, k requires 0 <= k < HpCount => wanted[k] != 0))
    requires st.maxSteps * Abs(wanted[i]) >= Longest(wanted) && WorkedOff(st, s, wanted, rss, i)
    ensures |rss| >= CeilDiv(Longest(wanted), st.maxSteps)
  {
    hide Scaled, Accepts, Longest, WorkedOff;
    var n, m, q, longest := |rss|, st.maxSteps, Abs(wanted[i]), Longest(wanted);
    var k := Scaled(st, wanted[i], longest);
    WorkedOffWhen(st, s, wanted, rss, i);
    ShareBounds(st, wanted[i], longest);
    NotEnoughCycles(n, m, q, longest, k);
    CeilDivLeast(longest, m, n);
  }

  lemma NotEnoughCycles(n: nat, m: nat, q: nat, longest: nat, k: nat)
    requires m >= 1 && longest > 0 && n * k >= q && k * longest <= m * q && m * q >= longest
    ensures n * m >= longest
  {
    MulMonotone(q, n * k, longest);
    MulShuffle(n, k, longest);
    MulMonotone(k * longest, m * q, n);
    MulShuffle(n, m, q);
    assert q > 0;
    MulCancelAtMost(longest, n * m, q);
  }

  lemma MulShuffle(a: int, b: int, c: int)
    ensures (a * b) * c == (b * c) * a && a * c == c * a
  {
    assert (a * b) * c == a * (b * c);
  }
}
