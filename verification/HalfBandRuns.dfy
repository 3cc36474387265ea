/** How many half-band passes fit 16 bits, over whole runs from the histories at rest. */
module HalfBandRuns {
  import opened CInts
  import opened DivMod
  import opened HalfBandSpec

  /** No store of the pass wraps: every output is its weighted window over 16. */
  ghost predicate PassExact(h: Hist, x: seq<int16>) {
    forall k :: 0 <= k < |HalfBand(h, x)| ==> HalfBand(h, x)[k] as int == TapsOf(WindowAt(h, x, k)) / 16
  }

  /** ... in none of the passes over a buffer. */
  ghost predicate CascadeExact(rows: seq<Hist>, x: seq<int16>, length: nat, off: nat, passes: nat)
    requires off <= 1 && |x| == Count(length, off) && passes <= |rows|
  {
    forall i: nat | i < passes :: PassExact(rows[i], Level(rows, x, length, off, i))
  }

  function Received(buf: seq<int16>, off: nat): (x: seq<int16>)
    requires off <= 1
    ensures |x| == Count(|buf|, off)
  {
    Channel(buf, off, Count(|buf|, off))
  }

  /** ... for none of the buffers of a run, the histories carried over from each to the next. */
  ghost predicate RunExact(rows: seq<Hist>, bufs: seq<seq<int16>>, off: nat, passes: nat)
    requires off <= 1 && passes <= |rows|
    decreases |bufs|
  {
    bufs != [] ==>
      var x, length := Received(bufs[0], off), |bufs[0]|;
      CascadeExact(rows, x, length, off, passes) &&
      RunExact(Archived(rows, x, length, off, passes), bufs[1..], off, passes)
  }

  /** A buffer of the receiver: samples from -127 to 128, enough of them for every pass. */
  ghost predicate Receivable(buf: seq<int16>, passes: nat) {
    Shifted(|buf|, passes) > 0 && forall k :: 0 <= k < |buf| ==> -127 <= buf[k] <= 128
  }

  function AtRest(): (rows: seq<Hist>)
    ensures |rows| == PASSES && RowsWithin(rows)
  {
    seq(PASSES, r => REST)
  }

  // ----- seven passes

  lemma {:induction false} CascadeFits(rows: seq<Hist>, x: seq<int16>, length: nat, off: nat, passes: nat)
    requires off <= 1 && |x| == Count(length, off) && passes <= |rows| && passes <= 7
    requires RowsWithin(rows) && Within(x, 128)
    ensures CascadeExact(rows, x, length, off, passes)
  {
    forall i: nat | i < passes
      ensures PassExact(rows[i], Level(rows, x, length, off, i))
    {
      LevelWithin(rows, x, length, off, i);
      RangeFits(i);
      HalfBandWithin(rows[i], Level(rows, x, length, off, i), Range(i));
    }
  }

  lemma {:induction false} RunFits(rows: seq<Hist>, bufs: seq<seq<int16>>, off: nat, passes: nat)
    requires off <= 1 && passes <= |rows| && passes <= 7 && RowsWithin(rows)
    requires forall b :: b in bufs ==> Receivable(b, passes)
    ensures RunExact(rows, bufs, off, passes)
    decreases |bufs|
  {
    if bufs != [] {
      var x, length := Received(bufs[0], off), |bufs[0]|;
      assert Receivable(bufs[0], passes);
      CascadeFits(rows, x, length, off, passes);
      ArchivedWithin(rows, x, length, off, passes);
      RunFits(Archived(rows, x, length, off, passes), bufs[1..], off, passes);
    }
  }

  // ----- an eighth

  /** Constant from the sixth sample on. */
  predicate Settled(x: seq<int16>, v: int16) {
    forall k :: 5 <= k < |x| ==> x[k] == v
  }

  lemma {:induction false} SettledWindow(h: Hist, x: seq<int16>, v: int16, k: nat)
    requires Settled(x, v) && 5 <= k && 2 * k < |x|
    ensures TapsOf(WindowAt(h, x, k)) == 32 * (v as int)
  {
  }

  /** Whatever its history, a pass amplifies a settled signal by 2 (the taps add up to 32). */
  lemma {:induction false} SettledDoubles(h: Hist, x: seq<int16>, v: int16)
    requires Settled(x, v)
    ensures Settled(HalfBand(h, x), Wrap16(2 * (v as int)))
  {
    var y := HalfBand(h, x);
    forall k | 5 <= k < |y|
      ensures y[k] == Wrap16(2 * (v as int))
    {
      SettledWindow(h, x, v, k);
      assert y[k] == Output(h, x, k);
    }
  }

  lemma {:induction false} Range7()
    ensures Range(7) == 0x4000
  {
    assert Range(5) == 2 * Range(4) == 4 * Range(3) == 8 * Range(2) == 16 * Range(1) == 32 * Range(0);
    assert Range(7) == 4 * Range(5);
  }

  lemma {:induction false} NextLevelSettles(rows: seq<Hist>, x: seq<int16>, length: nat, off: nat, i: nat, v: int16)
    requires off <= 1 && |x| == Count(length, off) && 0 < i <= |rows| && Settled(Level(rows, x, length, off, i - 1), v)
    ensures Settled(Level(rows, x, length, off, i), Wrap16(2 * (v as int)))
  {
    SettledDoubles(rows[i - 1], Level(rows, x, length, off, i - 1), v);
  }

  /** What full-scale input settles at after i passes. */
  function FullScaleAfter(i: nat): (v: int16)
    requires i <= 8
    ensures i <= 7 ==> v as int == Range(i)
    ensures i == 8 ==> v == -0x8000
  {
    Range7();
    if i == 8 then -0x8000
    else
      if i > 0 then RangeFits(i - 1); Range(i) else Range(i)
  }

  lemma {:induction false} NextFullScale(i: nat)
    requires 0 < i <= 8
    ensures Wrap16(2 * (FullScaleAfter(i - 1) as int)) == FullScaleAfter(i)
  {
    Range7();
    RangeDoubles(i);
  }

  lemma {:induction false} RangeDoubles(i: nat)
    requires 0 < i
    ensures Range(i) == 2 * Range(i - 1)
  {
  }

  /** Full-scale input comes out of seven passes amplified by 2^7, and out of an eighth negated, from the sixth
      sample on and whatever was received before it. */
  lemma {:induction false} LevelSettles(rows: seq<Hist>, x: seq<int16>, length: nat, off: nat, i: nat)
    requires off <= 1 && |x| == Count(length, off) && i <= |rows| && i <= 8 && Settled(x, 128)
    ensures Settled(Level(rows, x, length, off, i), FullScaleAfter(i))
  {
    if i > 0 {
      LevelSettles(rows, x, length, off, i - 1);
      NextFullScale(i);
      NextLevelSettles(rows, x, length, off, i, FullScaleAfter(i - 1));
    }
  }

  lemma {:induction false} EighthPassWraps(rows: seq<Hist>, x: seq<int16>, length: nat, off: nat)
    requires off <= 1 && |x| == Count(length, off) && 8 <= |rows| && Settled(x, 128)
    requires Count(Shifted(length, 7), off) > 10
    ensures !PassExact(rows[7], Level(rows, x, length, off, 7))
  {
    LevelSettles(rows, x, length, off, 7);
    Range7();
    var y := Level(rows, x, length, off, 7);
    SettledWindow(rows[7], y, 0x4000, 5);
    assert HalfBand(rows[7], y)[5] == Output(rows[7], y, 5);
  }

  /** A buffer of the usual 16384 samples, all of them 128. */
  function FullScale(): (buf: seq<int16>)
    ensures |buf| == 0x4000
  {
    seq(0x4000, k => 128)
  }

  lemma {:induction false} FullScaleHalves()
    ensures Shifted(0x4000, 7) == 128 && Shifted(0x4000, 10) == 16
  {
    assert Shifted(0x4000, 3) == Shifted(0x4000, 2) / 2 == 0x800;
    assert Shifted(0x4000, 6) == Shifted(0x4000, 5) / 2 == 0x100;
    assert Shifted(0x4000, 9) == Shifted(0x4000, 8) / 2 == 0x20;
  }

  lemma {:induction false} FullScaleWraps(off: nat, passes: nat)
    requires off <= 1 && 8 <= passes <= PASSES
    ensures Receivable(FullScale(), passes) && !RunExact(AtRest(), [FullScale()], off, passes)
  {
    FullScaleHalves();
    ShiftedFalls(0x4000, passes, 10);
    EighthPassWraps(AtRest(), Received(FullScale(), off), 0x4000, off);
  }

  /** From rest, over every run of buffers received, no pass ever wraps exactly with at most seven of them. */
  lemma {:induction false} RunsFitIff(off: nat, passes: nat)
    requires off <= 1 && passes <= PASSES
    ensures (forall bufs | (forall b :: b in bufs ==> Receivable(b, passes)) :: RunExact(AtRest(), bufs, off, passes))
       <==> passes <= 7
  {
    if passes <= 7 {
      forall bufs: seq<seq<int16>> | forall b :: b in bufs ==> Receivable(b, passes)
        ensures RunExact(AtRest(), bufs, off, passes)
      {
        RunFits(AtRest(), bufs, off, passes);
      }
    } else {
      FullScaleWraps(off, passes);
    }
  }

  // ----- how many passes rtl_fm takes

  /** The binary logarithm, rounded down. */
  function Log2(n: nat): (k: nat)
    requires n > 0
    ensures Pow2(k) <= n < Pow2(k + 1)
  {
    if n == 1 then 0 else 1 + Log2(n / 2)
  }

  /** The passes that -F takes for a rate: enough for a factor above 1000000 / rate. */
  function Passes(rate: nat): nat
    requires rate > 0
  {
    Log2(1_000_000 / rate + 1) + 1
  }

  lemma {:induction false} LogBelow(n: nat, k: nat)
    requires n > 0
    ensures Log2(n) < k <==> n < Pow2(k)
  {
    if Log2(n) < k {
      Pow2Monotone(Log2(n) + 1, k);
    } else {
      Pow2Monotone(k, Log2(n));
    }
  }

  lemma {:induction false} FactorBelow(rate: nat, limit: nat, least: nat)
    requires rate > 0 && limit * (least - 1) <= 1_000_000 < limit * least && limit > 0 && least > 0
    ensures 1_000_000 / rate < limit <==> rate >= least
  {
    var q := Decompose(1_000_000, rate);
    if rate >= least {
      MulMonotone(least, rate, limit);
      MulMonotone(limit, q, rate);
    } else {
      MulMonotone(rate, least - 1, limit);
      MulMonotone(q + 1, limit, rate);
      NextMultiple(q, rate);
    }
  }

  /** Which rates are safe: from 7875 Hz on no pass wraps, and from 978 Hz on there is a history for each. */
  lemma {:induction false} SafeRates(rate: nat)
    requires rate > 0
    ensures Passes(rate) <= 7 <==> rate >= 7875
    ensures Passes(rate) <= PASSES <==> rate >= 978
  {
    hide Log2, Pow2;
    var n := 1_000_000 / rate + 1;
    FactorPowers();
    LogBelow(n, 7);
    LogBelow(n, 10);
    FactorBelow(rate, 127, 7875);
    FactorBelow(rate, 1023, 978);
  }

  lemma {:induction false} FactorPowers()
    ensures Pow2(7) == 128 && Pow2(10) == 1024
  {
    assert Pow2(3) == 8 && Pow2(6) == 64 && Pow2(8) == 256;
  }
}
