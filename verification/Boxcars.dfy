/** The square-window filters of rtl_fm, in place and with their state carried between buffers. */
module Boxcars {
  import opened CInts
  import opened DecimatorSpec

  function Pairs(data: seq<int16>, from: nat, to: nat): (x: seq<Iq>)
    requires from <= to && 2 * to <= |data|
    ensures |x| == to - from
  {
    seq(to - from, k requires 0 <= k < to - from => Iq(data[2 * (from + k)], data[2 * (from + k) + 1]))
  }

  /** What the whole buffer gives is what has been stored plus what the rest will give. */
  ghost predicate Halfway(d: nat, start: Acc, before: seq<int16>, n: nat, acc: Acc, j: nat, out: seq<Iq>)
    requires j <= n && 2 * n <= |before|
  {
    var rest := LowPass(d, acc, Pairs(before, j, n));
    LowPass(d, start, Pairs(before, 0, n)) == Filtered(rest.acc, out + rest.out)
  }

  lemma {:induction false} FilterStep(d: nat, start: Acc, before: seq<int16>, n: nat, acc: Acc, j: nat, out: seq<Iq>,
                                      next: Acc)
    requires j < n && 2 * n <= |before| && Halfway(d, start, before, n, acc, j, out)
    requires next == Acc(acc.nowR + before[2 * j], acc.nowJ + before[2 * j + 1], acc.prevIndex + 1)
    ensures next.prevIndex < d ==> Halfway(d, start, before, n, next, j + 1, out)
    ensures next.prevIndex >= d ==>
              Halfway(d, start, before, n, ZERO, j + 1, out + [Iq(Wrap16(next.nowR), Wrap16(next.nowJ))])
  {
    var x := Pairs(before, j, n);
    assert x[0] == Iq(before[2 * j], before[2 * j + 1]);
    assert x[1..] == Pairs(before, j + 1, n);
    if next.prevIndex >= d {
      var v, rest := [Iq(Wrap16(next.nowR), Wrap16(next.nowJ))], LowPass(d, ZERO, x[1..]);
      assert out + (v + rest.out) == (out + v) + rest.out;
    }
  }

  lemma {:induction false} HalfwayStarts(d: nat, start: Acc, before: seq<int16>, n: nat)
    requires 2 * n <= |before|
    ensures Halfway(d, start, before, n, start, 0, [])
  {
    hide LowPass, Pairs;
    var r := LowPass(d, start, Pairs(before, 0, n));
    assert [] + r.out == r.out;
  }

  lemma {:induction false} HalfwayEnds(d: nat, start: Acc, before: seq<int16>, n: nat, acc: Acc, out: seq<Iq>)
    requires 2 * n <= |before| && Halfway(d, start, before, n, acc, n, out)
    ensures LowPass(d, start, Pairs(before, 0, n)) == Filtered(acc, out)
  {
    assert Pairs(before, n, n) == [] && out + [] == out;
  }

  lemma {:induction false} PairStored(before: seq<int16>, whole: seq<int16>, after: seq<int16>, i: nat, out: seq<Iq>,
                                      v: Iq)
    requires i == 2 * |out| && i + 2 <= |before| == |whole| && after == before[i := v.i][i + 1 := v.q]
    requires Pairs(before, 0, |out|) == out && before[i..] == whole[i..]
    ensures Pairs(after, 0, |out| + 1) == out + [v]
    ensures after[i + 2..] == whole[i + 2..]
  {
    assert after[i + 2..] == before[i..][2..] && whole[i..][2..] == whole[i + 2..];
    var p := Pairs(after, 0, |out| + 1);
    forall k | 0 <= k < |out| + 1
      ensures p[k] == (out + [v])[k]
    {
      if k < |out| {
        assert p[k] == Pairs(before, 0, |out|)[k];
      }
    }
  }

  class SquareWindow {
    const lowpassed: array<int16>
    var lpLen: nat
    var downsample: nat
    var nowR: int
    var nowJ: int
    var prevIndex: nat

    ghost predicate Valid()
      reads this
    {
      lpLen <= lowpassed.Length && lpLen % 2 == 0
    }

    function Accumulator(): Acc
      reads this
    {
      Acc(nowR, nowJ, prevIndex)
    }

    ghost function Samples(): seq<Iq>
      requires Valid()
      reads this, lowpassed
    {
      Pairs(lowpassed[..], 0, lpLen / 2)
    }

    constructor (capacity: nat, downsample: nat)
      ensures Valid() && lowpassed.Length == capacity && fresh(lowpassed)
      ensures Accumulator() == ZERO && this.downsample == downsample
    {
      lowpassed := new int16[capacity];
      this.downsample := downsample;
      lpLen, nowR, nowJ, prevIndex := 0, 0, 0, 0;
    }

    /** The running sums go where the next output belongs. */
    method StoreSums(i2: nat, ghost whole: seq<int16>, ghost out: seq<Iq>)
      requires i2 == 2 * |out| && i2 + 2 <= lowpassed.Length == |whole|
      requires Pairs(lowpassed[..], 0, |out|) == out && lowpassed[i2..] == whole[i2..]
      modifies lowpassed
      ensures Pairs(lowpassed[..], 0, |out| + 1) == out + [Iq(Wrap16(nowR), Wrap16(nowJ))]
      ensures lowpassed[i2 + 2..] == whole[i2 + 2..]
    {
      ghost var current := lowpassed[..];
      lowpassed[i2], lowpassed[i2 + 1] := Wrap16(nowR), Wrap16(nowJ);
      PairStored(current, whole, lowpassed[..], i2, out, Iq(Wrap16(nowR), Wrap16(nowJ)));
    }

    /** low_pass: the buffer of I/Q pairs becomes its window sums and the accumulator goes on. */
    method LowPassInPlace()
      requires Valid()
      modifies this`lpLen, this`nowR, this`nowJ, this`prevIndex, lowpassed
      ensures Valid() && lpLen <= old(lpLen)
      ensures Filtered(Accumulator(), Samples()) == LowPass(downsample, old(Accumulator()), old(Samples()))
      ensures lowpassed[lpLen..] == old(lowpassed[..])[lpLen..]
    {
      hide Halfway, LowPass, Pairs;
      ghost var before, start, n := lowpassed[..], Accumulator(), lpLen / 2;
      var i, i2 := 0, 0;
      ghost var j, out: seq<Iq> := 0, [];
      HalfwayStarts(downsample, start, before, n);
      while i < lpLen
        modifies this`nowR, this`nowJ, this`prevIndex, lowpassed
        invariant i == 2 * j && i2 == 2 * |out| && |out| <= j <= n
        invariant lowpassed[i2..] == before[i2..] && Pairs(lowpassed[..], 0, |out|) == out
        invariant Halfway(downsample, start, before, n, Accumulator(), j, out)
      {
        ghost var current, acc := lowpassed[..], Accumulator();
        SameTail(current, before, i2, i);
        var re, im := lowpassed[i], lowpassed[i + 1];
        i, prevIndex := i + 2, prevIndex + 1;
        nowR, nowJ := nowR + re as int, nowJ + im as int;
        FilterStep(downsample, start, before, n, acc, j, out, Accumulator());
        j := j + 1;
        if prevIndex >= downsample {
          ghost var v := Iq(Wrap16(nowR), Wrap16(nowJ));
          StoreSums(i2, before, out);
          prevIndex, nowR, nowJ := 0, 0, 0;
          i2, out := i2 + 2, out + [v];
        }
      }
      HalfwayEnds(downsample, start, before, n, Accumulator(), out);
      lpLen := i2;
    }
  }

  ghost predicate ResampledSoFar(fast: nat, slow: nat, start: Phase, before: seq<int16>, p: Phase, i: nat,
                                 out: seq<int16>)
    requires 0 < slow && i <= |before|
  {
    slow <= fast ==>
      var rest := LowPassReal(fast, slow, p, before[i..]);
      LowPassReal(fast, slow, start, before) == Resampled(rest.phase, out + rest.out)
  }

  lemma {:induction false} ResampleStep(fast: nat, slow: nat, start: Phase, before: seq<int16>, p: Phase, i: nat,
                                        out: seq<int16>, now: int, index: int)
    requires 0 < slow && i < |before| && p.index >= 0 && ResampledSoFar(fast, slow, start, before, p, i, out)
    requires now == p.now + before[i] && index == p.index + slow
    ensures fast / slow == 0 <==> slow > fast
    ensures slow > fast ==> index >= fast
    ensures index < fast ==> ResampledSoFar(fast, slow, start, before, Phase(now, index), i + 1, out)
    ensures index >= fast && slow <= fast ==>
      ResampledSoFar(fast, slow, start, before, Phase(0, index - fast), i + 1,
                     out + [Wrap16(TruncDiv(now, fast / slow))])
  {
    assert before[i..][1..] == before[i + 1..];
    if slow > fast {
      SmallDivision(fast, slow);
    } else {
      QuotientPositive(fast, slow);
    }
    if index >= fast && slow <= fast {
      var v := [Wrap16(TruncDiv(now, fast / slow))];
      var rest := LowPassReal(fast, slow, Phase(0, index - fast), before[i + 1..]);
      assert out + (v + rest.out) == (out + v) + rest.out;
    }
  }

  lemma {:induction false} ResamplingStarts(fast: nat, slow: nat, start: Phase, before: seq<int16>)
    requires 0 < slow
    ensures ResampledSoFar(fast, slow, start, before, start, 0, [])
  {
    hide LowPassReal;
    assert before[0..] == before;
    if slow <= fast {
      var r := LowPassReal(fast, slow, start, before);
      assert [] + r.out == r.out;
    }
  }

  lemma {:induction false} ResamplingEnds(fast: nat, slow: nat, start: Phase, before: seq<int16>, p: Phase,
                                          out: seq<int16>)
    requires 0 < slow <= fast && ResampledSoFar(fast, slow, start, before, p, |before|, out)
    ensures LowPassReal(fast, slow, start, before) == Resampled(p, out)
  {
    assert before[|before|..] == [] && out + [] == out;
  }

  lemma {:induction false} SampleStored(current: seq<int16>, whole: seq<int16>, after: seq<int16>, i2: nat, v: int16)
    requires i2 < |current| == |whole| && current[i2..] == whole[i2..] && after == current[i2 := v]
    ensures after[..i2 + 1] == current[..i2] + [v] && after[i2 + 1..] == whole[i2 + 1..]
  {
    assert after[i2 + 1..] == current[i2..][1..] && whole[i2..][1..] == whole[i2 + 1..];
  }

  class Resampler {
    const result: array<int16>
    var resultLen: nat
    var rateOut: nat
    var rateOut2: nat
    var nowLpr: int
    var prevLprIndex: int

    ghost predicate Valid()
      reads this
    {
      resultLen <= result.Length && 0 < rateOut2 && 0 <= prevLprIndex
    }

    function State(): Phase
      reads this
    {
      Phase(nowLpr, prevLprIndex)
    }

    constructor (capacity: nat, rateOut: nat, rateOut2: nat)
      requires 0 < rateOut2
      ensures Valid() && result.Length == capacity && fresh(result) && State() == Phase(0, 0)
      ensures this.rateOut == rateOut && this.rateOut2 == rateOut2
    {
      result := new int16[capacity];
      this.rateOut, this.rateOut2 := rateOut, rateOut2;
      resultLen, nowLpr, prevLprIndex := 0, 0, 0;
    }

    /** low_pass_real: the buffer becomes its resampled form and the phase goes on. Resampling upward divides by
        zero at the first sample. */
    method LowPassRealInPlace() returns (divided: bool)
      requires Valid()
      modifies this`resultLen, this`nowLpr, this`prevLprIndex, result
      ensures Valid() && divided == (rateOut2 <= rateOut || old(resultLen) == 0)
      ensures rateOut2 <= rateOut ==>
                resultLen <= old(resultLen) && result[resultLen..] == old(result[..])[resultLen..] &&
                Resampled(State(), result[..resultLen]) ==
                LowPassReal(rateOut, rateOut2, old(State()), old(result[..resultLen]))
      ensures rateOut2 > rateOut ==> resultLen == old(resultLen) && result[..] == old(result[..])
    {
      hide LowPassReal, ResampledSoFar, TruncDiv;
      ghost var whole, start := result[..], State();
      ghost var before := whole[..resultLen];
      var i, i2 := 0, 0;
      ResamplingStarts(rateOut, rateOut2, start, before);
      assert result[..0] == [];
      while i < resultLen
        modifies this`nowLpr, this`prevLprIndex, result
        invariant Valid() && 0 <= i2 <= i <= resultLen && (rateOut2 > rateOut ==> i == 0)
        invariant result[i2..] == whole[i2..]
        invariant ResampledSoFar(rateOut, rateOut2, start, before, State(), i, result[..i2])
      {
        ghost var current, p := result[..], State();
        assert result[i] == result[i2..][i - i2] == before[i];
        nowLpr := nowLpr + result[i] as int;
        i := i + 1;
        prevLprIndex := prevLprIndex + rateOut2;
        ResampleStep(rateOut, rateOut2, start, before, p, i - 1, current[..i2], nowLpr, prevLprIndex);
        if prevLprIndex >= rateOut {
          if rateOut / rateOut2 == 0 {
            return false;
          }
          var v := Wrap16(TruncDiv(nowLpr, rateOut / rateOut2));
          result[i2] := v;
          SampleStored(current, whole, result[..], i2, v);
          prevLprIndex := prevLprIndex - rateOut;
          nowLpr := 0;
          i2 := i2 + 1;
        }
      }
      if rateOut2 <= rateOut {
        ResamplingEnds(rateOut, rateOut2, start, before, State(), result[..i2]);
      }
      resultLen := i2;
      return true;
    }
  }

  lemma {:induction false} SameTail(a: seq<int16>, b: seq<int16>, from: nat, i: nat)
    requires |a| == |b| && from <= i && i + 1 < |a| && a[from..] == b[from..]
    ensures a[i] == b[i] && a[i + 1] == b[i + 1]
  {
    assert a[i] == a[from..][i - from] && b[i] == b[from..][i - from];
    assert a[i + 1] == a[from..][i + 1 - from] && b[i + 1] == b[from..][i + 1 - from];
  }
}
