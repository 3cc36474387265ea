/**
 The fixed-point FFT of rtl_power: the arithmetic, the recursive even/odd
 transform that serves as its meaning, and the bit-reversal permutation.
 */
module FftSpec {
  import opened CInts

  /** One complex sample of the interleaved buffer. */
  datatype Cx = Cx(re: int16, im: int16)

  /** The quarter-extended sine table, of N_WAVE * 3 / 4 entries for N_WAVE = 2^logWave. */
  datatype SineTable = SineTable(logWave: nat, sine: seq<int16>) {
    predicate Valid() {
      |sine| == Pow2(logWave) * 3 / 4
    }
  }

  function FixMpy(a: int16, b: int16): int16 {
    var c := (a * b) / 0x4000;
    Wrap16(c / 2 + c % 2)
  }

  /** The halved twiddle factor held at table index j: both reads stay inside the table. */
  function HalvedTwiddle(tab: SineTable, j: nat): Cx
    requires tab.Valid() && 2 * j < Pow2(tab.logWave) && tab.logWave > 0
  {
    QuarterOffset(tab.logWave, j);
    var s: int := tab.sine[j];
    Cx(tab.sine[j + Pow2(tab.logWave) / 4] / 2, Wrap16(-s) / 2)
  }

  lemma {:induction false} TwiddleIndexInRange(logWave: nat, l: nat, m: nat)
    requires 0 < l && m < l && 2 * l <= Pow2(logWave)
    ensures 2 * (m * (Pow2(logWave) / (2 * l))) < Pow2(logWave)
    ensures m * (Pow2(logWave) / (2 * l)) + Pow2(logWave) / 4 < Pow2(logWave) * 3 / 4 && logWave > 0
  {
    assert logWave > 0;
    hide Pow2;
    var n := Pow2(logWave);
    var q := n / (2 * l);
    DivPositive(n, 2 * l);
    MulStrict(2 * m, 2 * l, q);
    Regroup(m, q);
    QuotientTimes(n, 2 * l);
    QuarterOffset(logWave, m * q);
  }

  lemma {:induction false} Regroup(m: nat, q: nat)
    ensures 2 * (m * q) == (2 * m) * q
  {
  }

  lemma {:induction false} QuotientTimes(n: nat, d: nat)
    requires d > 0
    ensures d * (n / d) <= n
  {
  }

  lemma {:induction false} QuarterOffset(logWave: nat, j: nat)
    requires 2 * j < Pow2(logWave) && logWave > 0
    ensures j + Pow2(logWave) / 4 < Pow2(logWave) * 3 / 4
  {
    if logWave == 1 {
      assert Pow2(1) == 2 * Pow2(0);
    } else {
      FourQuarters(logWave, Pow2(logWave - 2));
      ThreeQuarters(Pow2(logWave), Pow2(logWave - 2), j);
    }
  }

  lemma {:induction false} FourQuarters(logWave: nat, quarter: nat)
    requires logWave > 1 && quarter == Pow2(logWave - 2)
    ensures Pow2(logWave) == 4 * quarter
  {
    assert Pow2(logWave - 1) == 2 * quarter;
  }

  lemma {:induction false} ThreeQuarters(n: nat, quarter: nat, j: nat)
    requires n == 4 * quarter && 2 * j < n
    ensures j + n / 4 < n * 3 / 4
  {
    Quarter(n, quarter);
    Quarter(n * 3, 3 * quarter);
  }

  lemma {:induction false} Quarter(n: nat, quarter: nat)
    requires n == 4 * quarter
    ensures n / 4 == quarter
  {
  }

  lemma {:induction false} DivPositive(n: nat, d: nat)
    requires 0 < d <= n
    ensures n / d > 0
  {
  }

  lemma {:induction false} MulStrict(a: nat, b: nat, q: nat)
    requires a < b && 0 < q
    ensures a * q < b * q
  {
  }

  function TwiddleIndex(logWave: nat, l: nat, m: nat): (j: nat)
    requires 0 < l && m < l && 2 * l <= Pow2(logWave)
    ensures 2 * j < Pow2(logWave) && logWave > 0
  {
    TwiddleIndexInRange(logWave, l, m);
    m * (Pow2(logWave) / (2 * l))
  }

  /** The twiddle of lane m in a butterfly of half-width l: table index m * N_WAVE / (2 * l). */
  function Twiddle(tab: SineTable, l: nat, m: nat): Cx
    requires tab.Valid() && 0 < l && m < l && 2 * l <= Pow2(tab.logWave)
  {
    HalvedTwiddle(tab, TwiddleIndex(tab.logWave, l, m))
  }

  /** A radix-2 butterfly: (sum, difference) of q / 2 and w * x, every store wrapped to 16 bits. */
  function Butterfly(q: Cx, x: Cx, w: Cx): (Cx, Cx) {
    var t := Rotated(w, x);
    (Cx(Wrap16(q.re / 2 + t.re), Wrap16(q.im / 2 + t.im)), Cx(Wrap16(q.re / 2 - t.re), Wrap16(q.im / 2 - t.im)))
  }

  function Rotated(w: Cx, x: Cx): Cx {
    Cx(Wrap16(FixMpy(w.re, x.re) - FixMpy(w.im, x.im)), Wrap16(FixMpy(w.re, x.im) + FixMpy(w.im, x.re)))
  }

  /** The rotated sample, and one output of a butterfly, before their stores are wrapped; sign is 1 for the sum. */
  function RotatedWide(w: Cx, x: Cx): (int, int) {
    (FixMpy(w.re, x.re) - FixMpy(w.im, x.im), FixMpy(w.re, x.im) + FixMpy(w.im, x.re))
  }

  function Wide(q: Cx, x: Cx, w: Cx, sign: int): (int, int) {
    var t := RotatedWide(w, x);
    (q.re / 2 + sign * t.0, q.im / 2 + sign * t.1)
  }

  predicate Holds(c: Cx, v: (int, int)) {
    c.re == v.0 && c.im == v.1
  }

  /** Every 16-bit store of the butterfly holds the value computed for it. */
  predicate StoresFit(q: Cx, x: Cx, w: Cx) {
    Holds(Rotated(w, x), RotatedWide(w, x)) &&
    Holds(Butterfly(q, x, w).0, Wide(q, x, w, 1)) &&
    Holds(Butterfly(q, x, w).1, Wide(q, x, w, -1))
  }

  function Evens<T>(x: seq<T>): (r: seq<T>)
    ensures |r| == |x| / 2
  {
    seq(|x| / 2, i requires 0 <= i < |x| / 2 => x[2 * i])
  }

  function Odds<T>(x: seq<T>): (r: seq<T>)
    ensures |r| == |x| / 2
  {
    seq(|x| / 2, i requires 0 <= i < |x| / 2 => x[2 * i + 1])
  }

  /** Joins the transforms of the even and the odd samples into one of twice the length. */
  function Combine(tab: SineTable, e: seq<Cx>, o: seq<Cx>): (r: seq<Cx>)
    requires tab.Valid() && 0 < |e| == |o| && 2 * |e| <= Pow2(tab.logWave)
    ensures |r| == 2 * |e|
  {
    var l := |e|;
    seq(2 * l, p requires 0 <= p < 2 * l =>
      if p < l then Butterfly(e[p], o[p], Twiddle(tab, l, p)).0
      else Butterfly(e[p - l], o[p - l], Twiddle(tab, l, p - l)).1)
  }

  /** The recursive decimation-in-time transform of 2^k samples. */
  function Fft(tab: SineTable, k: nat, x: seq<Cx>): (r: seq<Cx>)
    requires tab.Valid() && |x| == Pow2(k) && k <= tab.logWave
    ensures |r| == |x|
    decreases k
  {
    if k == 0 then x
    else
      Pow2Monotone(k, tab.logWave);
      Combine(tab, Fft(tab, k - 1, Evens(x)), Fft(tab, k - 1, Odds(x)))
  }

  /** The number whose k binary digits are those of x in reverse. */
  function Rev(k: nat, x: nat): nat {
    if k == 0 then 0 else (if x % 2 == 1 then Pow2(k - 1) else 0) + Rev(k - 1, x / 2)
  }

  /** Bit-reversal permutation, by recursion on the data. */
  function Reordered<T>(k: nat, x: seq<T>): (r: seq<T>)
    requires |x| == Pow2(k)
    ensures |r| == |x|
    decreases k
  {
    if k == 0 then x else Reordered(k - 1, Evens(x)) + Reordered(k - 1, Odds(x))
  }
}

/** Facts about bit reversal. */
module BitReversal {
  import opened CInts
  import opened FftSpec

  lemma {:induction false} RevInRange(k: nat, x: nat)
    ensures Rev(k, x) < Pow2(k)
  {
    if k > 0 {
      RevInRange(k - 1, x / 2);
      assert x % 2 == 0 || x % 2 == 1;
    }
  }

  /** The top digit of the argument becomes the bottom digit of the result. */
  lemma {:induction false} RevTopDigit(k: nat, x: nat)
    requires k > 0 && x < Pow2(k - 1)
    ensures Rev(k, x) == 2 * Rev(k - 1, x)
    ensures Rev(k, Pow2(k - 1) + x) == 2 * Rev(k - 1, x) + 1
    decreases k
  {
    if k == 1 {
      assert Pow2(0) == 1 && Rev(0, 0) == 0;
    } else {
      var h := Pow2(k - 2);
      assert Pow2(k - 1) == 2 * h;
      assert (2 * h + x) / 2 == h + x / 2 && (2 * h + x) % 2 == x % 2;
      RevTopDigit(k - 1, x / 2);
    }
  }

  lemma {:induction false} RevInvolution(k: nat, x: nat)
    requires x < Pow2(k)
    ensures Rev(k, Rev(k, x)) == x
    decreases k
  {
    if k > 0 {
      var y := Rev(k - 1, x / 2);
      RevInRange(k - 1, x / 2);
      RevTopDigit(k, y);
      RevInvolution(k - 1, x / 2);
    }
  }

  /** Adding one to the reversed number: carry from the top digit down. */
  function RevCarry(k: nat, r: nat): nat {
    if k == 0 then 0
    else if r < Pow2(k - 1) then r + Pow2(k - 1)
    else RevCarry(k - 1, r - Pow2(k - 1))
  }

  lemma {:induction false} NextHalf(x: nat)
    ensures x % 2 == 0 ==> (x + 1) / 2 == x / 2 && (x + 1) % 2 == 1
    ensures x % 2 == 1 ==> (x + 1) / 2 == x / 2 + 1 && (x + 1) % 2 == 0
  {
  }

  lemma {:induction false} RevSuccessor(k: nat, x: nat)
    requires x + 1 < Pow2(k)
    ensures Rev(k, x + 1) == RevCarry(k, Rev(k, x))
    ensures Rev(k, x) < Pow2(k) - 1
    decreases k
  {
    if k > 0 {
      RevInRange(k - 1, x / 2);
      NextHalf(x);
      if x % 2 == 1 {
        RevSuccessor(k - 1, x / 2);
      }
    }
  }

  lemma {:induction false} HalfAt<T>(a: seq<T>, b: seq<T>, h: nat, p: nat)
    requires |a| == h
    ensures p < h ==> (a + b)[p] == a[p]
    ensures p < |b| ==> (a + b)[h + p] == b[p]
  {
  }

  /** The permuted sequence holds at p the sample whose index is p reversed. */
  lemma {:induction false} ReorderedAt<T>(k: nat, x: seq<T>, p: nat)
    requires |x| == Pow2(k) && p < |x|
    ensures Rev(k, p) < |x| && Reordered(k, x)[p] == x[Rev(k, p)]
    decreases k
  {
    if k == 0 {
    } else {
      var h := Pow2(k - 1);
      if p < h {
        ReorderedFirst(k, x, p, h);
      } else {
        ReorderedSecond(k, x, p - h, h);
      }
    }
  }

  lemma {:induction false} ReorderedFirst<T>(k: nat, x: seq<T>, p: nat, h: nat)
    requires k > 0 && |x| == Pow2(k) && h == Pow2(k - 1) && p < h
    ensures Rev(k, p) < |x| && Reordered(k, x)[p] == x[Rev(k, p)]
    decreases k, 0
  {
    RevInRange(k, p);
    RevTopDigit(k, p);
    ReorderedAt(k - 1, Evens(x), p);
    HalfAt(Reordered(k - 1, Evens(x)), Reordered(k - 1, Odds(x)), h, p);
  }

  lemma {:induction false} ReorderedSecond<T>(k: nat, x: seq<T>, p: nat, h: nat)
    requires k > 0 && |x| == Pow2(k) && h == Pow2(k - 1) && p < h
    ensures Rev(k, h + p) < |x| && Reordered(k, x)[h + p] == x[Rev(k, h + p)]
    decreases k, 0
  {
    RevInRange(k, h + p);
    RevTopDigit(k, p);
    ReorderedAt(k - 1, Odds(x), p);
    HalfAt(Reordered(k - 1, Evens(x)), Reordered(k - 1, Odds(x)), h, p);
  }
}
