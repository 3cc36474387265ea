/** The streaming decimators of rtl_fm as functions of the whole stream. */
module DecimatorSpec {
  import opened CInts
  import opened DivMod

  // ----- low_pass: sums of `downsample` consecutive I/Q samples

  datatype Iq = Iq(i: int16, q: int16)

  datatype Acc = Acc(nowR: int, nowJ: int, prevIndex: nat)

  datatype Filtered = Filtered(acc: Acc, out: seq<Iq>)

  const ZERO := Acc(0, 0, 0)

  function LowPass(downsample: nat, acc: Acc, x: seq<Iq>): Filtered
    decreases |x|
  {
    if x == [] then Filtered(acc, [])
    else
      var next := Acc(acc.nowR + x[0].i, acc.nowJ + x[0].q, acc.prevIndex + 1);
      if next.prevIndex < downsample then LowPass(downsample, next, x[1..])
      else
        var r := LowPass(downsample, ZERO, x[1..]);
        Filtered(r.acc, [Iq(Wrap16(next.nowR), Wrap16(next.nowJ))] + r.out)
  }

  /** Cutting the stream in two changes nothing: the accumulator carries over. */
  lemma {:induction false} LowPassSplits(downsample: nat, acc: Acc, x: seq<Iq>, y: seq<Iq>)
    ensures var r := LowPass(downsample, acc, x);
            var s := LowPass(downsample, r.acc, y);
            LowPass(downsample, acc, x + y) == Filtered(s.acc, r.out + s.out)
    decreases |x|
  {
    if x == [] {
      assert x + y == y;
    } else {
      assert (x + y)[1..] == x[1..] + y;
      var next := Acc(acc.nowR + x[0].i, acc.nowJ + x[0].q, acc.prevIndex + 1);
      if next.prevIndex < downsample {
        LowPassSplits(downsample, next, x[1..], y);
      } else {
        LowPassSplits(downsample, ZERO, x[1..], y);
        var o := [Iq(Wrap16(next.nowR), Wrap16(next.nowJ))];
        var a, b := LowPass(downsample, ZERO, x[1..]), LowPass(downsample, LowPass(downsample, ZERO, x[1..]).acc, y);
        assert o + (a.out + b.out) == (o + a.out) + b.out;
      }
    }
  }

  function Flatten<T>(blocks: seq<seq<T>>): seq<T> {
    if blocks == [] then [] else blocks[0] + Flatten(blocks[1..])
  }

  /** Block after block, with the accumulator kept between calls. */
  function LowPassBlocks(downsample: nat, acc: Acc, blocks: seq<seq<Iq>>): Filtered
    decreases |blocks|
  {
    if blocks == [] then Filtered(acc, [])
    else
      var r := LowPass(downsample, acc, blocks[0]);
      var s := LowPassBlocks(downsample, r.acc, blocks[1..]);
      Filtered(s.acc, r.out + s.out)
  }

  /** However the stream is cut, the outputs are those of one call on the whole. */
  lemma {:induction false} LowPassChunkInvariant(downsample: nat, acc: Acc, blocks: seq<seq<Iq>>)
    ensures LowPassBlocks(downsample, acc, blocks) == LowPass(downsample, acc, Flatten(blocks))
    decreases |blocks|
  {
    if blocks != [] {
      LowPassSplits(downsample, acc, blocks[0], Flatten(blocks[1..]));
      LowPassChunkInvariant(downsample, LowPass(downsample, acc, blocks[0]).acc, blocks[1..]);
    }
  }

  function SumI(x: seq<Iq>): int {
    if x == [] then 0 else x[0].i + SumI(x[1..])
  }

  function SumQ(x: seq<Iq>): int {
    if x == [] then 0 else x[0].q + SumQ(x[1..])
  }

  /** Less than a window only accumulates; a whole one comes out as its sum. */
  lemma {:induction false} LowPassWindow(downsample: nat, acc: Acc, x: seq<Iq>)
    requires acc.prevIndex + |x| <= downsample && (x == [] ==> acc.prevIndex < downsample)
    ensures var a := Acc(acc.nowR + SumI(x), acc.nowJ + SumQ(x), acc.prevIndex + |x|);
            LowPass(downsample, acc, x)
              == if a.prevIndex < downsample then Filtered(a, [])
                else Filtered(ZERO, [Iq(Wrap16(a.nowR), Wrap16(a.nowJ))])
    decreases |x|
  {
    if x != [] {
      var next := Acc(acc.nowR + x[0].i, acc.nowJ + x[0].q, acc.prevIndex + 1);
      if next.prevIndex < downsample {
        LowPassWindow(downsample, next, x[1..]);
      }
    }
  }

  /** The k-th of the consecutive windows of d samples. */
  function Window(x: seq<Iq>, d: nat, k: nat): seq<Iq>
    requires (k + 1) * d <= |x|
  {
    NextMultiple(k, d);
    x[k * d..k * d + d]
  }

  function WindowSum(x: seq<Iq>, d: nat, k: nat): Iq
    requires (k + 1) * d <= |x|
  {
    Iq(Wrap16(SumI(Window(x, d, k))), Wrap16(SumQ(Window(x, d, k))))
  }

  /** v is the sum of the k-th window, which lies inside x. */
  predicate SumOfWindow(v: Iq, x: seq<Iq>, d: nat, k: nat) {
    (k + 1) * d <= |x| && v == WindowSum(x, d, k)
  }

  /** Skipping the first window renumbers the others. */
  lemma {:induction false} WindowShift(v: Iq, x: seq<Iq>, d: nat, k: nat)
    requires d <= |x| && SumOfWindow(v, x[d..], d, k)
    ensures SumOfWindow(v, x, d, k + 1)
  {
    NextMultiple(k, d);
    NextMultiple(k + 1, d);
    assert Window(x, d, k + 1) == Window(x[d..], d, k);
  }

  /** Every element of `out` is the sum of its own window of x. */
  predicate SumsOfWindows(out: seq<Iq>, x: seq<Iq>, d: nat) {
    forall k: nat | k < |out| :: SumOfWindow(out[k], x, d, k)
  }

  lemma {:induction false} WindowsPrepend(x: seq<Iq>, d: nat, out: seq<Iq>)
    requires 0 < d <= |x| && SumsOfWindows(out, x[d..], d)
    ensures SumsOfWindows([Iq(Wrap16(SumI(x[..d])), Wrap16(SumQ(x[..d])))] + out, x, d)
  {
    var first := Iq(Wrap16(SumI(x[..d])), Wrap16(SumQ(x[..d])));
    assert Window(x, d, 0) == x[..d];
    forall k: nat | k < |out| + 1
      ensures SumOfWindow(([first] + out)[k], x, d, k)
    {
      if k > 0 {
        WindowShift(out[k - 1], x, d, k - 1);
      }
    }
  }

  /** From a fresh start, output k is the sum of the k-th window, and the rest waits in the accumulator. */
  lemma {:induction false} LowPassSums(downsample: nat, x: seq<Iq>)
    requires downsample > 0
    ensures var r := LowPass(downsample, ZERO, x);
            |r.out| == |x| / downsample && r.acc.prevIndex == |x| % downsample &&
            SumsOfWindows(r.out, x, downsample)
    decreases |x|
  {
    if |x| < downsample {
      LowPassWindow(downsample, ZERO, x);
      SmallDivision(|x|, downsample);
    } else {
      var head, tail := x[..downsample], x[downsample..];
      assert x == head + tail;
      LowPassSplits(downsample, ZERO, head, tail);
      LowPassWindow(downsample, ZERO, head);
      LowPassSums(downsample, tail);
      StepDivision(|x|, downsample);
      WindowsPrepend(x, downsample, LowPass(downsample, ZERO, tail).out);
    }
  }

  lemma {:induction false} SmallDivision(n: nat, d: nat)
    requires n < d
    ensures n / d == 0 && n % d == n
  {
  }

  lemma {:induction false} StepDivision(n: nat, d: nat)
    requires 0 < d <= n
    ensures n / d == (n - d) / d + 1 && n % d == (n - d) % d
  {
    var q := Decompose(n - d, d);
    var p := Decompose(n, d);
    ModShift(n - d, d, d);
    assert p * d == (q + 1) * d;
    MulMonotone(p + 1, q + 1, d);
    MulMonotone(q + 2, p, d);
  }

  // ----- when a stored sum is the sum

  predicate IqWithin(x: seq<Iq>, lo: int, hi: int) {
    forall k | 0 <= k < |x| :: lo <= x[k].i <= hi && lo <= x[k].q <= hi
  }

  /** v is the sum of the k-th window itself, nothing lost. */
  predicate ExactSum(v: Iq, x: seq<Iq>, d: nat, k: nat) {
    (k + 1) * d <= |x| && v.i == SumI(Window(x, d, k)) && v.q == SumQ(Window(x, d, k))
  }

  /** Every output of the filter from a fresh start is. */
  ghost predicate SumsExactly(d: nat, x: seq<Iq>) {
    forall k: nat | k < |LowPass(d, ZERO, x).out| :: ExactSum(LowPass(d, ZERO, x).out[k], x, d, k)
  }

  lemma {:induction false} SumWithin(x: seq<Iq>, lo: int, hi: int)
    requires IqWithin(x, lo, hi)
    ensures lo * |x| <= SumI(x) <= hi * |x| && lo * |x| <= SumQ(x) <= hi * |x|
  {
    if x != [] {
      SumWithin(x[1..], lo, hi);
      OneLess(lo, |x|);
      OneLess(hi, |x|);
    }
  }

  lemma {:induction false} OneLess(v: int, n: nat)
    requires n > 0
    ensures v * n == v * (n - 1) + v
  {
  }

  lemma {:induction false} StoredExactly(d: nat, x: seq<Iq>, k: nat, v: Iq, lo: int, hi: int)
    requires IqWithin(x, lo, hi) && -0x8000 <= lo * d && hi * d <= 0x7fff && SumOfWindow(v, x, d, k)
    ensures ExactSum(v, x, d, k)
  {
    NextMultiple(k, d);
    SumWithin(Window(x, d, k), lo, hi);
  }

  lemma {:induction false} ConstantSum(v: Iq, n: nat)
    ensures SumI(seq(n, k => v)) == v.i * n && SumQ(seq(n, k => v)) == v.q * n
  {
    if n > 0 {
      ConstantSum(v, n - 1);
      assert seq(n, k => v)[1..] == seq(n - 1, k => v);
      OneLess(v.i, n);
      OneLess(v.q, n);
    }
  }

  /** One window of a constant. */
  lemma {:induction false} ConstantWindow(d: nat, v: int16)
    requires d > 0
    ensures LowPass(d, ZERO, seq(d, k => Iq(v, v))) == Filtered(ZERO, [Iq(Wrap16(v * d), Wrap16(v * d))])
    ensures SumsExactly(d, seq(d, k => Iq(v, v))) ==> Wrap16(v * d) == v * d
  {
    var x := seq(d, k => Iq(v, v));
    ConstantSum(Iq(v, v), d);
    LowPassWindow(d, ZERO, x);
    assert Window(x, d, 0) == x;
    if SumsExactly(d, x) {
      assert ExactSum(LowPass(d, ZERO, x).out[0], x, d, 0);
    }
  }

  /** For samples from lo to hi every output is the sum of its window exactly when that of the loudest one fits. */
  lemma {:induction false} LowPassExactIff(d: nat, lo: int, hi: int)
    requires d > 0 && -0x8000 <= lo <= 0 <= hi <= 0x7fff
    ensures (forall x: seq<Iq> | IqWithin(x, lo, hi) :: SumsExactly(d, x)) <==> -0x8000 <= lo * d && hi * d <= 0x7fff
  {
    if -0x8000 <= lo * d && hi * d <= 0x7fff {
      forall x: seq<Iq> | IqWithin(x, lo, hi)
        ensures SumsExactly(d, x)
      {
        LowPassSums(d, x);
        var out := LowPass(d, ZERO, x).out;
        forall k: nat | k < |out|
          ensures ExactSum(out[k], x, d, k)
        {
          StoredExactly(d, x, k, out[k], lo, hi);
        }
      }
    } else {
      var v: int16 := if hi * d > 0x7fff then hi else lo;
      ConstantWindow(d, v);
      assert IqWithin(seq(d, k => Iq(v, v)), lo, hi);
    }
  }

  /** For received samples, from -127 to 128: exactly with a factor of at most 255. */
  lemma {:induction false} ReceivedSumsIff(d: nat)
    requires d > 0
    ensures (forall x: seq<Iq> | IqWithin(x, -127, 128) :: SumsExactly(d, x)) <==> d <= 255
  {
    LowPassExactIff(d, -127, 128);
  }

  /** The factor that rtl_fm chooses for a rate of 3900 Hz, and what it stores for full-scale samples. */
  lemma {:induction false} SlowRateWraps()
    ensures 1_000_000 / 3900 + 1 == 257
    ensures LowPass(257, ZERO, seq(257, k => Iq(128, 128))).out == [Iq(-32_640, -32_640)]
  {
    ConstantWindow(257, 128);
  }

  /** The running sums stay within 16-bit samples times their number: 32 bits hold windows of up to 65535. */
  lemma {:induction false} AccumulatorBounded(downsample: nat, acc: Acc, x: seq<Iq>)
    requires downsample > 0 && acc.prevIndex < downsample
    requires -0x8000 * acc.prevIndex <= acc.nowR <= 0x8000 * acc.prevIndex
    requires -0x8000 * acc.prevIndex <= acc.nowJ <= 0x8000 * acc.prevIndex
    ensures var a := LowPass(downsample, acc, x).acc;
            a.prevIndex < downsample &&
            -0x8000 * a.prevIndex <= a.nowR <= 0x8000 * a.prevIndex &&
            -0x8000 * a.prevIndex <= a.nowJ <= 0x8000 * a.prevIndex
    decreases |x|
  {
    if x != [] {
      var next := Acc(acc.nowR + x[0].i, acc.nowJ + x[0].q, acc.prevIndex + 1);
      AccumulatorBounded(downsample, if next.prevIndex < downsample then next else ZERO, x[1..]);
    }
  }

  // ----- low_pass_real: resampling from `fast` down to `slow`

  datatype Phase = Phase(now: int, index: int)

  datatype Resampled = Resampled(phase: Phase, out: seq<int16>)

  function LowPassReal(fast: nat, slow: nat, p: Phase, x: seq<int16>): Resampled
    requires 0 < slow <= fast
    decreases |x|
  {
    if x == [] then Resampled(p, [])
    else
      var now, index := p.now + x[0], p.index + slow;
      if index < fast then LowPassReal(fast, slow, Phase(now, index), x[1..])
      else
        QuotientPositive(fast, slow);
        var r := LowPassReal(fast, slow, Phase(0, index - fast), x[1..]);
        Resampled(r.phase, [Wrap16(TruncDiv(now, fast / slow))] + r.out)
  }

  lemma {:induction false} QuotientPositive(a: nat, b: nat)
    requires 0 < b <= a
    ensures a / b > 0
  {
  }

  lemma {:induction false} LowPassRealSplits(fast: nat, slow: nat, p: Phase, x: seq<int16>, y: seq<int16>)
    requires 0 < slow <= fast
    ensures var r := LowPassReal(fast, slow, p, x);
            var s := LowPassReal(fast, slow, r.phase, y);
            LowPassReal(fast, slow, p, x + y) == Resampled(s.phase, r.out + s.out)
    decreases |x|
  {
    if x == [] {
      assert x + y == y;
    } else {
      assert (x + y)[1..] == x[1..] + y;
      var now, index := p.now + x[0], p.index + slow;
      if index < fast {
        LowPassRealSplits(fast, slow, Phase(now, index), x[1..], y);
      } else {
        LowPassRealSplits(fast, slow, Phase(0, index - fast), x[1..], y);
        var a := LowPassReal(fast, slow, Phase(0, index - fast), x[1..]);
        var b := LowPassReal(fast, slow, a.phase, y);
        var o := [Wrap16(TruncDiv(now, fast / slow))];
        assert o + (a.out + b.out) == (o + a.out) + b.out;
      }
    }
  }

  function LowPassRealBlocks(fast: nat, slow: nat, p: Phase, blocks: seq<seq<int16>>): Resampled
    requires 0 < slow <= fast
    decreases |blocks|
  {
    if blocks == [] then Resampled(p, [])
    else
      var r := LowPassReal(fast, slow, p, blocks[0]);
      var s := LowPassRealBlocks(fast, slow, r.phase, blocks[1..]);
      Resampled(s.phase, r.out + s.out)
  }

  lemma {:induction false} LowPassRealChunkInvariant(fast: nat, slow: nat, p: Phase, blocks: seq<seq<int16>>)
    requires 0 < slow <= fast
    ensures LowPassRealBlocks(fast, slow, p, blocks) == LowPassReal(fast, slow, p, Flatten(blocks))
    decreases |blocks|
  {
    if blocks != [] {
      LowPassRealSplits(fast, slow, p, blocks[0], Flatten(blocks[1..]));
      LowPassRealChunkInvariant(fast, slow, LowPassReal(fast, slow, p, blocks[0]).phase, blocks[1..]);
    }
  }

  /** Exactly floor((phase + n * slow) / fast) outputs, and the phase is the remainder. */
  lemma {:induction false} LowPassRealCount(fast: nat, slow: nat, p: Phase, x: seq<int16>)
    requires 0 < slow <= fast && 0 <= p.index < fast
    ensures var r := LowPassReal(fast, slow, p, x);
            |r.out| == (p.index + |x| * slow) / fast && r.phase.index == (p.index + |x| * slow) % fast
    decreases |x|
  {
    var n := |x|;
    var total := p.index + n * slow;
    if n == 0 {
      SmallDivision(p.index, fast);
    } else {
      var index := p.index + slow;
      NextMultiple(n - 1, slow);
      if index < fast {
        LowPassRealCount(fast, slow, Phase(p.now + x[0], index), x[1..]);
      } else {
        LowPassRealCount(fast, slow, Phase(0, index - fast), x[1..]);
        StepDivision(total, fast);
      }
    }
  }

  function Total(x: seq<int16>): int {
    if x == [] then 0 else Total(x[..|x| - 1]) + x[|x| - 1]
  }

  /** The samples in front of output k: the fewest that take the phase to k * fast. */
  function Bound(fast: nat, slow: nat, k: nat): nat
    requires 0 < slow
  {
    (k * fast + slow - 1) / slow
  }

  lemma {:induction false} BoundIs(fast: nat, slow: nat, k: nat, n: nat)
    requires 0 < slow && k * fast <= n * slow < k * fast + slow
    ensures Bound(fast, slow, k) == n
  {
    var q := Decompose(k * fast + slow - 1, slow);
    if q < n {
      MulMonotone(q + 1, n, slow);
      NextMultiple(q, slow);
    } else if q > n {
      MulMonotone(n + 1, q, slow);
      NextMultiple(n, slow);
    }
  }

  /** v is the sum of the k-th window of x, divided by the truncated ratio of the rates. */
  predicate Averages(fast: nat, slow: nat, x: seq<int16>, v: int16, k: nat)
    requires 0 < slow <= fast
  {
    var b, e := Bound(fast, slow, k), Bound(fast, slow, k + 1);
    QuotientPositive(fast, slow);
    b <= e <= |x| && v == Wrap16(TruncDiv(Total(x[b..e]), fast / slow))
  }

  /** What a run over x from rest has put out, and what waits. */
  ghost predicate Ran(fast: nat, slow: nat, x: seq<int16>, r: Resampled)
    requires 0 < slow <= fast
  {
    var n := |r.out|;
    n * fast <= |x| * slow < n * fast + fast && r.phase.index == |x| * slow - n * fast &&
    Bound(fast, slow, n) <= |x| && r.phase.now == Total(x[Bound(fast, slow, n)..]) &&
    forall k: nat | k < n :: Averages(fast, slow, x, r.out[k], k)
  }

  lemma {:induction false} AveragesStay(fast: nat, slow: nat, y: seq<int16>, v: int16, w: int16, k: nat)
    requires 0 < slow <= fast && Averages(fast, slow, y, w, k)
    ensures Averages(fast, slow, y + [v], w, k)
  {
    var b, e := Bound(fast, slow, k), Bound(fast, slow, k + 1);
    assert (y + [v])[b..e] == y[b..e];
  }

  lemma {:induction false} TotalStep(y: seq<int16>, v: int16, b: nat)
    requires b <= |y|
    ensures Total((y + [v])[b..]) == Total(y[b..]) + v
  {
    var z := (y + [v])[b..];
    assert z == y[b..] + [v] && z[..|z| - 1] == y[b..];
  }

  /** One more sample. */
  lemma {:induction false} RanStep(fast: nat, slow: nat, y: seq<int16>, v: int16, r: Resampled, t: Resampled)
    requires 0 < slow <= fast && Ran(fast, slow, y, r) && t == LowPassReal(fast, slow, r.phase, [v])
    ensures Ran(fast, slow, y + [v], Resampled(t.phase, r.out + t.out))
  {
    hide Averages, Bound, LowPassReal, Total;
    var n, b := |r.out|, Bound(fast, slow, |r.out|);
    var x, out := y + [v], r.out + t.out;
    OneSample(fast, slow, r.phase, v);
    NextMultiple(|y|, slow);
    NextMultiple(n, fast);
    TotalStep(y, v, b);
    if t.out != [] {
      BoundIs(fast, slow, n + 1, |x|);
      assert x[b..|x|] == x[b..];
      assert Averages(fast, slow, x, t.out[0], n) by {
        Emitted(fast, slow, x, t.out[0], n);
      }
      NothingLeft(x);
    }
    forall k: nat | k < |out|
      ensures Averages(fast, slow, x, out[k], k)
    {
      if k < n {
        assert out[k] == r.out[k];
        AveragesStay(fast, slow, y, v, r.out[k], k);
      }
    }
  }

  lemma {:induction false} OneSample(fast: nat, slow: nat, p: Phase, v: int16)
    requires 0 < slow <= fast
    ensures var t := LowPassReal(fast, slow, p, [v]);
            if p.index + slow < fast then t == Resampled(Phase(p.now + v, p.index + slow), [])
            else fast / slow > 0 && t == Resampled(Phase(0, p.index + slow - fast),
                                                   [Wrap16(TruncDiv(p.now + v, fast / slow))])
  {
    QuotientPositive(fast, slow);
    assert [v][1..] == [];
  }

  lemma {:induction false} Emitted(fast: nat, slow: nat, x: seq<int16>, w: int16, n: nat)
    requires 0 < slow <= fast && fast / slow > 0 && Bound(fast, slow, n) <= |x| == Bound(fast, slow, n + 1)
    requires w == Wrap16(TruncDiv(Total(x[Bound(fast, slow, n)..]), fast / slow))
    ensures Averages(fast, slow, x, w, n)
  {
    assert x[Bound(fast, slow, n)..|x|] == x[Bound(fast, slow, n)..];
  }

  lemma {:induction false} NothingLeft(x: seq<int16>)
    ensures Total(x[|x|..]) == 0
  {
  }

  /** From rest, output k is the sum of its own window divided by the truncated ratio, and the rest waits. */
  lemma {:induction false} LowPassRealAverages(fast: nat, slow: nat, x: seq<int16>)
    requires 0 < slow <= fast
    ensures Ran(fast, slow, x, LowPassReal(fast, slow, Phase(0, 0), x))
    decreases |x|
  {
    if x == [] {
      BoundIs(fast, slow, 0, 0);
    } else {
      var y, v := x[..|x| - 1], x[|x| - 1];
      assert x == y + [v];
      LowPassRealAverages(fast, slow, y);
      LowPassRealSplits(fast, slow, Phase(0, 0), y, [v]);
      var r := LowPassReal(fast, slow, Phase(0, 0), y);
      RanStep(fast, slow, y, v, r, LowPassReal(fast, slow, r.phase, [v]));
    }
  }

  // ----- when a stored quotient fits 16 bits

  /** Every quotient of the run fits, so that Wrap16 in LowPassReal is the identity. */
  ghost predicate StoresFit(fast: nat, slow: nat, p: Phase, x: seq<int16>)
    requires 0 < slow <= fast
    decreases |x|
  {
    x != [] ==>
      var now, index := p.now + x[0], p.index + slow;
      if index < fast then StoresFit(fast, slow, Phase(now, index), x[1..])
      else
        QuotientPositive(fast, slow);
        -0x8000 <= TruncDiv(now, fast / slow) <= 0x7fff && StoresFit(fast, slow, Phase(0, index - fast), x[1..])
  }

  /** Samples from lo to hi. */
  predicate Within(x: seq<int16>, lo: int, hi: int) {
    forall k | 0 <= k < |x| :: lo <= x[k] <= hi
  }

  /** The most samples that are ever summed for one output. */
  function LongestWindow(fast: nat, slow: nat): nat
    requires 0 < slow <= fast
  {
    if fast % slow == 0 then fast / slow else fast / slow + 1
  }

  /** The loudest window still fits after the division by fast / slow. */
  predicate LoudestFits(fast: nat, slow: nat, lo: int, hi: int)
    requires 0 < slow <= fast && lo <= 0 <= hi
  {
    QuotientPositive(fast, slow);
    -0x8000 <= TruncDiv(lo * LongestWindow(fast, slow), fast / slow) &&
    TruncDiv(hi * LongestWindow(fast, slow), fast / slow) <= 0x7fff
  }

  lemma {:induction false} DivMonotone(a: nat, b: nat, m: nat)
    requires a <= b && m > 0
    ensures a / m <= b / m
  {
    var q := Decompose(a, m);
    var p := Decompose(b, m);
    MulMonotone(p + 1, q, m);
    NextMultiple(p, m);
  }

  lemma {:induction false} QuotientZeroIff(v: nat, m: nat)
    requires m > 0
    ensures v / m == 0 <==> v < m
  {
    var q := Decompose(v, m);
    if q >= 1 {
      MulMonotone(1, q, m);
    }
  }

  lemma {:induction false} TruncSign(a: int, m: nat)
    requires m > 0
    ensures a >= 0 ==> TruncDiv(a, m) == a / m >= 0
    ensures a <= 0 ==> TruncDiv(a, m) == -(-a / m) <= 0
  {
    if a == 0 {
      QuotientZeroIff(0, m);
    }
  }

  lemma {:induction false} TruncMonotone(a: int, b: int, m: nat)
    requires a <= b && m > 0
    ensures TruncDiv(a, m) <= TruncDiv(b, m)
  {
    TruncSign(a, m);
    TruncSign(b, m);
    if a >= 0 {
      DivMonotone(a, b, m);
    } else if b < 0 {
      DivMonotone(-b, -a, m);
    }
  }

  /** c samples, no more than the longest window, average no further out than the loudest window does. */
  lemma {:induction false} AverageFits(now: int, c: nat, m: nat, longest: nat, lo: int, hi: int)
    requires m > 0 && c <= longest && lo <= 0 <= hi && lo * c <= now <= hi * c
    ensures TruncDiv(lo * longest, m) <= TruncDiv(now, m) <= TruncDiv(hi * longest, m)
  {
    MulMonotone(c, longest, hi);
    var low: nat := -lo;
    MulMonotone(c, longest, low);
    Products(lo, low, hi, c, longest);
    TruncMonotone(now, hi * longest, m);
    TruncMonotone(lo * longest, now, m);
  }

  lemma {:induction false} Products(lo: int, low: nat, hi: int, c: nat, longest: nat)
    requires lo == 0 - low
    ensures lo * c == 0 - c * low && lo * longest == 0 - longest * low
    ensures hi * c == c * hi && hi * longest == longest * hi
  {
  }

  lemma {:induction false} NextSum(now: int, c: nat, v: int, lo: int, hi: int)
    requires lo * c <= now <= hi * c && lo <= v <= hi
    ensures lo * (c + 1) <= now + v <= hi * (c + 1)
  {
  }

  /** Once the phase passes `fast`, the samples summed are at most the longest window. */
  lemma {:induction false} WindowLength(fast: nat, slow: nat, index: nat, c: nat)
    requires 0 < slow <= fast && index < fast && c * slow <= index && (fast % slow == 0 ==> index == c * slow)
    ensures c + 1 <= LongestWindow(fast, slow)
  {
    var m := Decompose(fast, slow);
    if c >= m + 1 {
      MulMonotone(m + 1, c, slow);
      NextMultiple(m, slow);
      assert false;
    }
    if fast % slow == 0 && c == m {
      assert false;
    }
  }

  /** No window that is completed leaves 16 bits; c samples are summed since the last output. */
  lemma {:induction false} RunFits(fast: nat, slow: nat, p: Phase, x: seq<int16>, c: nat, lo: int, hi: int)
    requires 0 < slow <= fast && lo <= 0 <= hi && LoudestFits(fast, slow, lo, hi) && Within(x, lo, hi)
    requires 0 <= p.index < fast && c * slow <= p.index && (fast % slow == 0 ==> p.index == c * slow)
    requires lo * c <= p.now <= hi * c
    ensures StoresFit(fast, slow, p, x)
    decreases |x|
  {
    if x != [] {
      var now, index := p.now + x[0], p.index + slow;
      NextMultiple(c, slow);
      NextSum(p.now, c, x[0], lo, hi);
      if index < fast {
        RunFits(fast, slow, Phase(now, index), x[1..], c + 1, lo, hi);
      } else {
        EmittedFits(fast, slow, p.index, c, now, lo, hi);
        RunFits(fast, slow, Phase(0, index - fast), x[1..], 0, lo, hi);
      }
    }
  }

  lemma {:induction false} EmittedFits(fast: nat, slow: nat, index: nat, c: nat, now: int, lo: int, hi: int)
    requires 0 < slow <= fast && lo <= 0 <= hi && LoudestFits(fast, slow, lo, hi)
    requires index < fast <= index + slow && c * slow <= index && (fast % slow == 0 ==> index == c * slow)
    requires lo * (c + 1) <= now <= hi * (c + 1)
    ensures fast / slow > 0 && -0x8000 <= TruncDiv(now, fast / slow) <= 0x7fff
    ensures fast % slow == 0 ==> index + slow == fast
  {
    QuotientPositive(fast, slow);
    WindowLength(fast, slow, index, c);
    AverageFits(now, c + 1, fast / slow, LongestWindow(fast, slow), lo, hi);
    if fast % slow == 0 {
      PhaseRestarts(fast, slow, index, c);
    }
  }

  lemma {:induction false} PhaseRestarts(fast: nat, slow: nat, index: nat, c: nat)
    requires 0 < slow <= fast && index < fast <= index + slow
    requires fast % slow == 0 && index == c * slow
    ensures index + slow == fast
  {
    var m := Decompose(fast, slow);
    NextMultiple(c, slow);
    if m >= c + 2 {
      MulMonotone(c + 2, m, slow);
      NextMultiple(c + 1, slow);
      assert false;
    }
    MulMonotone(m, c, slow);
  }

  function Constant(n: nat, v: int16): (x: seq<int16>)
    ensures |x| == n
  {
    seq(n, k => v)
  }

  /** When the rates do not divide, the first output sums one sample more than the divisor. */
  lemma {:induction false} ConstantWraps(fast: nat, slow: nat, k: nat, v: int16, m: nat)
    requires 0 < slow <= fast && fast % slow != 0 && k <= m == fast / slow && m > 0
    requires !(-0x8000 <= TruncDiv(v * (m + 1), m) <= 0x7fff)
    ensures !StoresFit(fast, slow, Phase(v * k, k * slow), Constant(m + 1 - k, v))
    decreases m - k
  {
    var q := Decompose(fast, slow);
    var x := Constant(m + 1 - k, v);
    NextMultiple(k, slow);
    NextMultiple(m, slow);
    assert v * k + v == v * (k + 1);
    if k < m {
      MulMonotone(k + 1, m, slow);
      assert x[1..] == Constant(m + 1 - (k + 1), v);
      ConstantWraps(fast, slow, k + 1, v, m);
    }
  }

  lemma {:induction false} TruncExact(v: int, m: nat)
    requires m > 0
    ensures TruncDiv(v * m, m) == v
  {
    if v >= 0 {
      DivExact(v, m);
    } else {
      var w: nat := -v;
      DivExact(w, m);
      assert -(v * m) == w * m;
    }
  }

  lemma {:induction false} LoudWraps(fast: nat, slow: nat, lo: int, hi: int, m: nat) returns (x: seq<int16>)
    requires 0 < slow <= fast && -0x8000 <= lo <= 0 <= hi <= 0x7fff && !LoudestFits(fast, slow, lo, hi)
    requires m == fast / slow
    ensures Within(x, lo, hi) && !StoresFit(fast, slow, Phase(0, 0), x)
  {
    QuotientPositive(fast, slow);
    TruncExact(lo, m);
    TruncExact(hi, m);
    if TruncDiv(hi * (m + 1), m) > 0x7fff {
      ConstantWraps(fast, slow, 0, hi, m);
      x := Constant(m + 1, hi);
    } else {
      ConstantWraps(fast, slow, 0, lo, m);
      x := Constant(m + 1, lo);
    }
  }

  /**
   For samples from lo to hi no stored quotient wraps exactly when the loudest window does not: each output is
   divided by fast / slow although, when the rates do not divide, one more sample than that is added up.
   */
  lemma {:induction false} ResamplerFitsWithinIff(fast: nat, slow: nat, lo: int, hi: int)
    requires 0 < slow <= fast && -0x8000 <= lo <= 0 <= hi <= 0x7fff
    ensures (forall x: seq<int16> | Within(x, lo, hi) :: StoresFit(fast, slow, Phase(0, 0), x))
       <==> LoudestFits(fast, slow, lo, hi)
  {
    if LoudestFits(fast, slow, lo, hi) {
      forall x: seq<int16> | Within(x, lo, hi)
        ensures StoresFit(fast, slow, Phase(0, 0), x)
      {
        RunFits(fast, slow, Phase(0, 0), x, 0, lo, hi);
      }
    } else {
      var x := LoudWraps(fast, slow, lo, hi, fast / slow);
      assert !StoresFit(fast, slow, Phase(0, 0), x);
    }
  }

  lemma {:induction false} QuotientOf(p: nat, q: nat, m: nat, r: nat)
    requires p == q * m + r && r < m
    ensures p / m == q
  {
    var d := Decompose(p, m);
    MulMonotone(d + 1, q, m);
    MulMonotone(q + 1, d, m);
    NextMultiple(d, m);
    NextMultiple(q, m);
  }

  lemma {:induction false} Expand(v: nat, q: nat, m: nat)
    ensures v * (m + 1) == v * m + v && (v + q) * m == v * m + q * m
  {
  }

  lemma {:induction false} OneMore(v: nat, m: nat)
    requires m > 0
    ensures v * (m + 1) / m == v + v / m
  {
    var q := Decompose(v, m);
    Expand(v, q, m);
    QuotientOf(v * (m + 1), v + q, m, v % m);
  }

  /** At full scale one sample more than the divisor fits only for divisors that no two rates have. */
  lemma {:induction false} FullScale(m: nat)
    requires m > 0
    ensures (-0x8000 <= TruncDiv(-0x8000 * (m + 1), m) && TruncDiv(0x7fff * (m + 1), m) <= 0x7fff) <==> m > 0x8000
  {
    OneMore(0x8000, m);
    OneMore(0x7fff, m);
    QuotientZeroIff(0x8000, m);
    QuotientZeroIff(0x7fff, m);
  }

  /** Over all 16-bit samples: exactly when the rates divide or lie absurdly far apart. */
  lemma {:induction false} ResamplerFitsIff(fast: nat, slow: nat)
    requires 0 < slow <= fast
    ensures (forall x: seq<int16> :: StoresFit(fast, slow, Phase(0, 0), x)) <==>
            (fast % slow == 0 || fast / slow > 0x8000)
  {
    QuotientPositive(fast, slow);
    TruncExact(-0x8000, fast / slow);
    TruncExact(0x7fff, fast / slow);
    FullScale(fast / slow);
    if fast % slow == 0 || fast / slow > 0x8000 {
      forall x: seq<int16>
        ensures StoresFit(fast, slow, Phase(0, 0), x)
      {
        RunFits(fast, slow, Phase(0, 0), x, 0, -0x8000, 0x7fff);
      }
    } else {
      var x := LoudWraps(fast, slow, -0x8000, 0x7fff, fast / slow);
      assert !StoresFit(fast, slow, Phase(0, 0), x);
    }
  }

  // ----- in the modes of rtl_fm

  /** The broadcast preset resamples 170 kHz to 32 kHz; its demodulated samples lie within half a turn, 2^14. */
  lemma {:induction false} BroadcastFits(x: seq<int16>)
    requires Within(x, -0x4000, 0x4000)
    ensures StoresFit(170_000, 32_000, Phase(0, 0), x)
  {
    RunFits(170_000, 32_000, Phase(0, 0), x, 0, -0x4000, 0x4000);
  }

  /** One output of usb_demod. */
  function UpperSideband(v: Iq, scale: nat): int16 {
    Wrap16(Wrap16(v.i + v.q) * scale)
  }

  /** Upper sideband at 24 kHz (1,008 kHz received, 42 summed, scale 6), resampled to 16 kHz: samples of 65 come out
      of the demodulator as 32760, and the sum of two of these is stored undivided. */
  lemma {:induction false} SidebandWraps()
    ensures LowPass(42, ZERO, seq(42, k => Iq(65, 65))) == Filtered(ZERO, [Iq(2730, 2730)])
    ensures UpperSideband(Iq(2730, 2730), 6) == 32_760 && !StoresFit(24_000, 16_000, Phase(0, 0), Constant(2, 32_760))
  {
    ConstantWindow(42, 65);
    ConstantWraps(24_000, 16_000, 0, 32_760, 1);
  }
}
