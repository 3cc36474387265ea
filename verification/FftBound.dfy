/** Plane vectors over the reals: just enough to bound complex moduli without square roots. */
module ComplexReals {
  datatype C = C(re: real, im: real)

  function Add(a: C, b: C): C {
    C(a.re + b.re, a.im + b.im)
  }

  function Mul(a: C, b: C): C {
    C(a.re * b.re - a.im * b.im, a.re * b.im + a.im * b.re)
  }

  function Scale(s: real, a: C): C {
    C(s * a.re, s * a.im)
  }

  function Norm2(a: C): real {
    a.re * a.re + a.im * a.im
  }

  /** The modulus of a is at most m. */
  predicate Within(a: C, m: real) {
    0.0 <= m && Norm2(a) <= m * m
  }

  lemma {:induction false} SquareRoot(x: real, y: real)
    requires 0.0 <= y && x * x <= y * y
    ensures -y <= x <= y
  {
    SquareStrict(x, y);
    SquareStrict(-x, y);
    assert (-x) * (-x) == x * x;
  }

  lemma {:induction false} SquareStrict(x: real, y: real)
    requires 0.0 <= y
    ensures y < x ==> y * y < x * x
  {
    if y < x {
      var d := x - y;
      assert d * d > 0.0 && y * d >= 0.0;
      assert x * x == y * y + 2.0 * (y * d) + d * d;
    }
  }

  lemma {:induction false} SquareMonotone(x: real, y: real)
    requires 0.0 <= x <= y
    ensures x * x <= y * y
  {
    assert x * x <= x * y;
    assert x * y <= y * y;
  }

  lemma {:induction false} ProductMonotone(a: real, b: real, c: real, d: real)
    requires 0.0 <= a <= b && 0.0 <= c <= d
    ensures a * c <= b * d
  {
    assert a * c <= b * c;
    assert b * c <= b * d;
  }

  lemma {:induction false} SquareOfSum(x: real, y: real)
    ensures (x + y) * (x + y) == x * x + 2.0 * (x * y) + y * y
    ensures (x - y) * (x - y) == x * x - 2.0 * (x * y) + y * y
  {
  }

  lemma {:induction false} SquareOfProduct(a: real, b: real)
    ensures (a * b) * (a * b) == (a * a) * (b * b)
  {
  }

  lemma {:induction false} Exchange(p: real, q: real, r: real, s: real)
    ensures (p * r) * (q * s) == (p * s) * (q * r)
  {
  }

  lemma {:induction false} ProductOfSums(a: real, b: real, c: real, d: real)
    ensures (a + b) * (c + d) == a * c + a * d + b * c + b * d
  {
  }

  /** The product of two sums of squares as a sum of two squares. */
  lemma {:induction false} TwoSquares(p: real, q: real, r: real, s: real)
    ensures var x, y, u, v := p * r, q * s, p * s, q * r;
            (p * p + q * q) * (r * r + s * s) == (x - y) * (x - y) + (u + v) * (u + v) &&
            (p * p + q * q) * (r * r + s * s) == (x + y) * (x + y) + (u - v) * (u - v)
  {
    SquareOfSum(p * r, q * s);
    SquareOfSum(p * s, q * r);
    SquareOfProduct(p, r);
    SquareOfProduct(p, s);
    SquareOfProduct(q, r);
    SquareOfProduct(q, s);
    Exchange(p, q, r, s);
    ProductOfSums(p * p, q * q, r * r, s * s);
  }

  lemma {:induction false} NormOfProduct(a: C, b: C)
    ensures Norm2(Mul(a, b)) == Norm2(a) * Norm2(b)
  {
    TwoSquares(a.re, a.im, b.re, b.im);
  }

  lemma {:induction false} WithinProduct(a: C, ma: real, b: C, mb: real)
    requires Within(a, ma) && Within(b, mb)
    ensures Within(Mul(a, b), ma * mb)
  {
    NormOfProduct(a, b);
    ProductMonotone(Norm2(a), ma * ma, Norm2(b), mb * mb);
    assert (ma * ma) * (mb * mb) == (ma * mb) * (ma * mb);
  }

  function Dot(a: C, b: C): real {
    a.re * b.re + a.im * b.im
  }

  lemma {:induction false} CauchySchwarz(a: C, b: C)
    ensures Dot(a, b) * Dot(a, b) <= Norm2(a) * Norm2(b)
  {
    var d := a.re * b.im - a.im * b.re;
    TwoSquares(a.re, a.im, b.re, b.im);
    NonNegative(d);
  }

  lemma {:induction false} NonNegative(x: real)
    ensures x * x >= 0.0
  {
  }

  lemma {:induction false} Triangle(a: C, ma: real, b: C, mb: real)
    requires Within(a, ma) && Within(b, mb)
    ensures Within(Add(a, b), ma + mb)
  {
    CauchySchwarz(a, b);
    ProductMonotone(Norm2(a), ma * ma, Norm2(b), mb * mb);
    assert (ma * ma) * (mb * mb) == (ma * mb) * (ma * mb);
    SquareRoot(Dot(a, b), ma * mb);
    NormOfSum(a, b);
    assert (ma + mb) * (ma + mb) == ma * ma + mb * mb + 2.0 * (ma * mb);
  }

  lemma {:induction false} NormOfSum(a: C, b: C)
    ensures Norm2(Add(a, b)) == Norm2(a) + Norm2(b) + 2.0 * Dot(a, b)
  {
  }

  lemma {:induction false} WithinScale(s: real, a: C, m: real)
    requires Within(a, m) && 0.0 <= s
    ensures Within(Scale(s, a), s * m)
    ensures Within(Scale(-s, a), s * m)
  {
    WithinProduct(C(s, 0.0), s, a, m);
    WithinProduct(C(-s, 0.0), s, a, m);
  }

  lemma {:induction false} WithinLarger(a: C, m: real, n: real)
    requires Within(a, m) && m <= n
    ensures Within(a, n)
  {
    SquareMonotone(m, n);
  }

  lemma {:induction false} Parts(a: C, m: real)
    requires Within(a, m)
    ensures -m <= a.re <= m && -m <= a.im <= m
  {
    assert a.re * a.re >= 0.0 && a.im * a.im >= 0.0;
    SquareRoot(a.re, m);
    SquareRoot(a.im, m);
  }

  lemma {:induction false} Box(a: C, h: real, m: real)
    requires -h <= a.re <= h && -h <= a.im <= h && 0.0 <= m && 2.0 * (h * h) <= m * m
    ensures Within(a, m)
  {
    AbsSquare(a.re, h);
    AbsSquare(a.im, h);
  }

  lemma {:induction false} AbsSquare(x: real, h: real)
    requires -h <= x <= h
    ensures x * x <= h * h
  {
    if x >= 0.0 {
      SquareMonotone(x, h);
    } else {
      SquareMonotone(-x, h);
      assert (-x) * (-x) == x * x;
    }
  }
}

/**
 How far one fixed-point butterfly is from the exact one, and what that means for
 the whole transform: no store wraps, and the error grows by at most 3 a stage.
 */
module FftBound {
  import opened CInts
  import opened FftSpec
  import opened FftStores
  import opened ComplexReals

  function R(x: Cx): C {
    C(x.re as real, x.im as real)
  }

  const UNIT := 1.0 / 32768.0

  /** The exact sum (sign = 1) or difference (sign = -1) that a butterfly approximates. */
  function ExactButterfly(q: C, x: C, w: C, sign: real): C {
    Add(Scale(0.5, q), Scale(sign * UNIT, Mul(w, x)))
  }

  /** FIX_MPY rounds a * b / 2^15 to a nearest integer, when that fits 16 bits. */
  lemma {:induction false} FixMpyRounds(a: int16, b: int16)
    requires a * b <= 0x2000_0000 * 2 - 0x4001
    ensures -0x4000 < 0x8000 * FixMpy(a, b) - a * b <= 0x4000
  {
    var p: int := a * b;
    AbsProduct(a, b, 0x8000, 0x8000);
    var c := p / 0x4000;
    assert p == 0x4000 * c + p % 0x4000;
    assert c % 2 == 0 || c % 2 == 1;
    var f := c / 2 + c % 2;
    assert -0x8000 <= f < 0x8000;
    assert 2 * f == c + c % 2;
  }

  lemma {:induction false} AbsProduct(x: int, y: int, a: int, b: int)
    requires -a <= x <= a && -b <= y <= b
    ensures -(a * b) <= x * y <= a * b
  {
    var s, t, u, v := a - x, b + y, a + x, b - y;
    assert s * t >= 0 && u * v >= 0 && s * v >= 0 && u * t >= 0;
    assert s * t + u * v == 2 * (a * b) - 2 * (x * y);
    assert s * v + u * t == 2 * (a * b) + 2 * (x * y);
  }

  predicate TwiddleOk(w: Cx) {
    Within(R(w), 16385.0)
  }

  lemma {:induction false} TwiddleParts(w: Cx)
    requires TwiddleOk(w)
    ensures -16385 <= w.re <= 16385 && -16385 <= w.im <= 16385
  {
    Parts(R(w), 16385.0);
  }

  function RotationError(w: Cx, x: Cx): C {
    var t := RotatedWide(w, x);
    Add(C(t.0 as real, t.1 as real), Scale(-UNIT, Mul(R(w), R(x))))
  }

  lemma {:induction false} RotationIntError(w: Cx, x: Cx)
    requires TwiddleOk(w)
    ensures var t := RotatedWide(w, x);
            -0x8000 <= 0x8000 * t.0 - (w.re * x.re - w.im * x.im) <= 0x8000 &&
            -0x8000 <= 0x8000 * t.1 - (w.re * x.im + w.im * x.re) <= 0x8000
  {
    TwiddleParts(w);
    AbsProduct(w.re, x.re, 16385, 0x8000);
    AbsProduct(w.im, x.im, 16385, 0x8000);
    AbsProduct(w.re, x.im, 16385, 0x8000);
    AbsProduct(w.im, x.re, 16385, 0x8000);
    FixMpyRounds(w.re, x.re);
    FixMpyRounds(w.im, x.im);
    FixMpyRounds(w.re, x.im);
    FixMpyRounds(w.im, x.re);
  }

  lemma {:induction false} RotationClose(w: Cx, x: Cx)
    requires TwiddleOk(w)
    ensures Within(RotationError(w, x), 1.415)
  {
    var t := RotatedWide(w, x);
    var p, q: int := w.re * x.re - w.im * x.im, w.re * x.im + w.im * x.re;
    RotationIntError(w, x);
    ScaledError(t.0, p);
    ScaledError(t.1, q);
    MulOfIntegers(w, x);
    Box(RotationError(w, x), 1.0, 1.415);
  }

  lemma {:induction false} IntRealProduct(a: int, b: int)
    ensures (a as real) * (b as real) == (a * b) as real
  {
  }

  lemma {:induction false} MulOfIntegers(w: Cx, x: Cx)
    ensures Mul(R(w), R(x)) == C((w.re * x.re - w.im * x.im) as real, (w.re * x.im + w.im * x.re) as real)
  {
    IntRealProduct(w.re, x.re);
    IntRealProduct(w.im, x.im);
    IntRealProduct(w.re, x.im);
    IntRealProduct(w.im, x.re);
  }

  lemma {:induction false} ScaledError(t: int, p: int)
    requires -0x8000 <= 0x8000 * t - p <= 0x8000
    ensures -1.0 <= t as real + (-UNIT) * (p as real) <= 1.0
  {
    var d := 0x8000 * t - p;
    assert d as real == 32768.0 * (t as real) - p as real;
    assert t as real + (-UNIT) * (p as real) == UNIT * (d as real);
  }

  /** Both stores of the rotated sample fit 16 bits when the sample has modulus at most 32767. */
  lemma {:induction false} RotationFits(w: Cx, x: Cx, m: real)
    requires TwiddleOk(w) && Within(R(x), m) && m <= 32767.0
    ensures var t := RotatedWide(w, x);
            -0x8000 <= t.0 < 0x8000 && -0x8000 <= t.1 < 0x8000
    ensures Rotated(w, x) == Cx(RotatedWide(w, x).0, RotatedWide(w, x).1)
    ensures Within(Scale(UNIT, Mul(R(w), R(x))), 0.5 * m + 1.0)
    ensures Within(Scale(-UNIT, Mul(R(w), R(x))), 0.5 * m + 1.0)
  {
    var t := RotatedWide(w, x);
    var p := Mul(R(w), R(x));
    WithinProduct(R(w), 16385.0, R(x), m);
    WithinScale(UNIT, p, 16385.0 * m);
    var n := UNIT * (16385.0 * m);
    assert n <= 0.5 * m + 1.0;
    WithinLarger(Scale(UNIT, p), n, 0.5 * m + 1.0);
    WithinLarger(Scale(-UNIT, p), n, 0.5 * m + 1.0);
    RotationClose(w, x);
    Parts(RotationError(w, x), 1.415);
    Parts(Scale(-UNIT, p), 0.5 * m + 1.0);
    assert -16387.0 < t.0 as real < 16387.0 && -16387.0 < t.1 as real < 16387.0;
  }

  function HalvingError(q: Cx): C {
    Add(C((q.re / 2) as real, (q.im / 2) as real), Scale(-0.5, R(q)))
  }

  lemma {:induction false} HalvingClose(q: Cx)
    ensures Within(HalvingError(q), 0.708)
  {
    assert q.re == 2 * (q.re / 2) + q.re % 2 && q.im == 2 * (q.im / 2) + q.im % 2;
    var a, b := q.re % 2, q.im % 2;
    assert HalvingError(q) == C(-0.5 * (a as real), -0.5 * (b as real));
    Box(HalvingError(q), 0.5, 0.708);
  }

  function WideReal(q: Cx, x: Cx, w: Cx, sign: int): C {
    C(Wide(q, x, w, sign).0 as real, Wide(q, x, w, sign).1 as real)
  }

  function Diff(a: C, b: C): C {
    C(a.re - b.re, a.im - b.im)
  }

  lemma {:induction false} Signed(a: C, m: real, sign: int)
    requires Within(a, m) && (sign == 1 || sign == -1)
    ensures Within(Scale(sign as real, a), m)
  {
    WithinScale(1.0, a, m);
  }

  lemma {:induction false} WideClose(q: Cx, x: Cx, w: Cx, sign: int)
    requires TwiddleOk(w) && (sign == 1 || sign == -1)
    ensures Within(Diff(WideReal(q, x, w, sign), ExactButterfly(R(q), R(x), R(w), sign as real)), 2.13)
  {
    HalvingClose(q);
    RotationClose(w, x);
    var eq, et := HalvingError(q), RotationError(w, x);
    Signed(et, 1.415, sign);
    Triangle(eq, 0.708, Scale(sign as real, et), 1.415);
    WithinLarger(Add(eq, Scale(sign as real, et)), 2.123, 2.13);
    ErrorSplits(q, x, w, sign);
  }

  lemma {:induction false} ErrorSplits(q: Cx, x: Cx, w: Cx, sign: int)
    requires sign == 1 || sign == -1
    ensures Diff(WideReal(q, x, w, sign), ExactButterfly(R(q), R(x), R(w), sign as real))
         == Add(HalvingError(q), Scale(sign as real, RotationError(w, x)))
  {
    hide Mul, RotatedWide;
    var p, t := Mul(R(w), R(x)), RotatedWide(w, x);
    PartSplits(q.re, t.0, p.re, sign);
    PartSplits(q.im, t.1, p.im, sign);
  }

  lemma {:induction false} PartSplits(q: int, t: int, p: real, sign: int)
    requires sign == 1 || sign == -1
    ensures (q / 2 + sign * t) as real - (0.5 * (q as real) + ((sign as real) * UNIT) * p)
         == ((q / 2) as real + (-0.5) * (q as real)) + (sign as real) * (t as real + (-UNIT) * p)
  {
  }

  lemma {:induction false} ExactBounded(q: C, x: C, w: C, m: real, sign: real)
    requires Within(w, 16385.0) && Within(q, m) && Within(x, m) && (sign == 1.0 || sign == -1.0)
    ensures Within(ExactButterfly(q, x, w, sign), m + UNIT * m)
  {
    WithinScale(0.5, q, m);
    WithinProduct(w, 16385.0, x, m);
    WithinScale(UNIT, Mul(w, x), 16385.0 * m);
    Triangle(Scale(0.5, q), 0.5 * m, Scale(sign * UNIT, Mul(w, x)), UNIT * (16385.0 * m));
    assert 0.5 * m + UNIT * (16385.0 * m) == m + UNIT * m;
  }

  lemma {:induction false} WideBounded(q: Cx, x: Cx, w: Cx, m: real, sign: int)
    requires TwiddleOk(w) && Within(R(q), m) && Within(R(x), m) && m <= 32763.0
    requires sign == 1 || sign == -1
    ensures Within(WideReal(q, x, w, sign), m + 4.0)
    ensures -0x8000 < Wide(q, x, w, sign).0 < 0x8000 && -0x8000 < Wide(q, x, w, sign).1 < 0x8000
  {
    var e := ExactButterfly(R(q), R(x), R(w), sign as real);
    var v := WideReal(q, x, w, sign);
    ExactBounded(R(q), R(x), R(w), m, sign as real);
    WideClose(q, x, w, sign);
    Triangle(e, m + UNIT * m, Diff(v, e), 2.13);
    assert Add(e, Diff(v, e)) == v;
    WithinLarger(v, m + UNIT * m + 2.13, m + 4.0);
    Parts(v, m + 4.0);
  }

  /** A stage raises the largest modulus by at most 4 and adds at most 2.13 of rounding. */
  lemma {:induction false} ButterflyClose(q: Cx, x: Cx, w: Cx, m: real)
    requires TwiddleOk(w) && Within(R(q), m) && Within(R(x), m) && m <= 32763.0
    ensures StoresFit(q, x, w)
    ensures var u := Butterfly(q, x, w);
            Within(R(u.0), m + 4.0) && Within(R(u.1), m + 4.0) &&
            Within(Diff(R(u.0), ExactButterfly(R(q), R(x), R(w), 1.0)), 2.13) &&
            Within(Diff(R(u.1), ExactButterfly(R(q), R(x), R(w), -1.0)), 2.13)
  {
    RotationFits(w, x, m);
    WideBounded(q, x, w, m, 1);
    WideBounded(q, x, w, m, -1);
    WideClose(q, x, w, 1);
    WideClose(q, x, w, -1);
    ButterflyIsWide(q, x, w);
  }

  lemma {:induction false} ButterflyIsWide(q: Cx, x: Cx, w: Cx)
    requires Holds(Rotated(w, x), RotatedWide(w, x))
    requires -0x8000 < Wide(q, x, w, 1).0 < 0x8000 && -0x8000 < Wide(q, x, w, 1).1 < 0x8000
    requires -0x8000 < Wide(q, x, w, -1).0 < 0x8000 && -0x8000 < Wide(q, x, w, -1).1 < 0x8000
    ensures StoresFit(q, x, w)
    ensures R(Butterfly(q, x, w).0) == WideReal(q, x, w, 1)
    ensures R(Butterfly(q, x, w).1) == WideReal(q, x, w, -1)
  {
  }

  lemma {:induction false} ExactLinear(a: C, b: C, c: C, d: C, w: C, sign: real)
    ensures Diff(ExactButterfly(a, b, w, sign), ExactButterfly(c, d, w, sign))
         == ExactButterfly(Diff(a, c), Diff(b, d), w, sign)
  {
    var s := sign * UNIT;
    assert Diff(Mul(w, b), Mul(w, d)) == Mul(w, Diff(b, d));
    ScaleDiff(s, Mul(w, b), Mul(w, d));
    ScaleDiff(0.5, a, c);
  }

  lemma {:induction false} ScaleDiff(s: real, a: C, b: C)
    ensures Diff(Scale(s, a), Scale(s, b)) == Scale(s, Diff(a, b))
  {
  }

  /** Errors e in both inputs and 2.13 in the butterfly leave at most e + 3 in the output. */
  lemma {:induction false} ErrorGrows(u: C, q: C, x: C, q': C, x': C, w: C, e: real, sign: real)
    requires Within(w, 16385.0) && (sign == 1.0 || sign == -1.0)
    requires Within(Diff(q, q'), e) && Within(Diff(x, x'), e) && e <= 28000.0
    requires Within(Diff(u, ExactButterfly(q, x, w, sign)), 2.13)
    ensures Within(Diff(u, ExactButterfly(q', x', w, sign)), e + 3.0)
  {
    var f, g := ExactButterfly(q, x, w, sign), ExactButterfly(q', x', w, sign);
    ExactLinear(q, x, q', x', w, sign);
    ExactBounded(Diff(q, q'), Diff(x, x'), w, e, sign);
    Triangle(Diff(u, f), 2.13, Diff(f, g), e + UNIT * e);
    assert Add(Diff(u, f), Diff(f, g)) == Diff(u, g);
    WithinLarger(Diff(u, g), 2.13 + (e + UNIT * e), e + 3.0);
  }

  // ----- the whole transform

  function Reals(x: seq<Cx>): (r: seq<C>)
    ensures |r| == |x|
  {
    seq(|x|, p requires 0 <= p < |x| => R(x[p]))
  }

  function ExactCombine(tab: SineTable, e: seq<C>, o: seq<C>): (r: seq<C>)
    requires tab.Valid() && 0 < |e| == |o| && 2 * |e| <= Pow2(tab.logWave)
    ensures |r| == 2 * |e|
  {
    var l := |e|;
    seq(2 * l, p requires 0 <= p < 2 * l =>
      if p < l then ExactButterfly(e[p], o[p], R(Twiddle(tab, l, p)), 1.0)
      else ExactButterfly(e[p - l], o[p - l], R(Twiddle(tab, l, p - l)), -1.0))
  }

  /** The same recursion over real numbers: no rounding and no width. */
  function ExactFft(tab: SineTable, k: nat, x: seq<C>): (r: seq<C>)
    requires tab.Valid() && |x| == Pow2(k) && k <= tab.logWave
    ensures |r| == |x|
    decreases k
  {
    if k == 0 then x
    else
      Pow2Monotone(k, tab.logWave);
      ExactCombine(tab, ExactFft(tab, k - 1, Evens(x)), ExactFft(tab, k - 1, Odds(x)))
  }

  ghost predicate TableOk(tab: SineTable)
    requires tab.Valid()
  {
    forall j: nat | 2 * j < Pow2(tab.logWave) && tab.logWave > 0 :: TwiddleOk(HalvedTwiddle(tab, j))
  }

  ghost predicate AllWithin(z: seq<C>, m: real) {
    forall p | 0 <= p < |z| :: Within(z[p], m)
  }

  ghost predicate AllClose(y: seq<C>, z: seq<C>, e: real) {
    |y| == |z| && forall p | 0 <= p < |y| :: Within(Diff(y[p], z[p]), e)
  }

  lemma {:induction false} Member(z: seq<Cx>, m: real, p: nat)
    requires p < |z| && AllWithin(Reals(z), m)
    ensures Within(R(z[p]), m)
  {
    assert Reals(z)[p] == R(z[p]);
  }

  lemma {:induction false} TwiddleIsOk(tab: SineTable, l: nat, p: nat)
    requires tab.Valid() && TableOk(tab) && p < l && 2 * l <= Pow2(tab.logWave)
    ensures TwiddleOk(Twiddle(tab, l, p))
  {
    hide TwiddleOk, HalvedTwiddle;
    assert 2 * TwiddleIndex(tab.logWave, l, p) < Pow2(tab.logWave);
  }

  lemma {:induction false} PairModulus(tab: SineTable, e: seq<Cx>, o: seq<Cx>, m: real, p: nat)
    requires tab.Valid() && TableOk(tab) && 0 < |e| == |o| && 2 * |e| <= Pow2(tab.logWave)
    requires AllWithin(Reals(e), m) && AllWithin(Reals(o), m) && m <= 32763.0
    requires p < |e|
    ensures var w := Twiddle(tab, |e|, p);
            var u := Butterfly(e[p], o[p], w);
            TwiddleOk(w) && StoresFit(e[p], o[p], w) &&
            Within(R(u.0), m + 4.0) && Within(R(u.1), m + 4.0) &&
            Within(Diff(R(u.0), ExactButterfly(R(e[p]), R(o[p]), R(w), 1.0)), 2.13) &&
            Within(Diff(R(u.1), ExactButterfly(R(e[p]), R(o[p]), R(w), -1.0)), 2.13)
  {
    hide *;
    TwiddleIsOk(tab, |e|, p);
    Member(e, m, p);
    Member(o, m, p);
    ButterflyClose(e[p], o[p], Twiddle(tab, |e|, p), m);
  }

  lemma {:induction false} Members(z: seq<Cx>, m: real)
    requires forall p: nat | p < |z| :: Within(R(z[p]), m)
    ensures AllWithin(Reals(z), m)
  {
  }

  lemma {:induction false} CombineModulus(tab: SineTable, e: seq<Cx>, o: seq<Cx>, m: real)
    requires tab.Valid() && TableOk(tab) && 0 < |e| == |o| && 2 * |e| <= Pow2(tab.logWave)
    requires AllWithin(Reals(e), m) && AllWithin(Reals(o), m) && m <= 32763.0
    ensures AllWithin(Reals(Combine(tab, e, o)), m + 4.0)
  {
    hide Butterfly, ExactButterfly, R, StoresFit, TableOk, Twiddle, Within;
    var c := Combine(tab, e, o);
    forall p: nat | p < |c|
      ensures Within(R(c[p]), m + 4.0)
    {
      PairModulus(tab, e, o, m, if p < |e| then p else p - |e|);
    }
    Members(c, m + 4.0);
  }

  /** The errors of one pair of outputs. */
  lemma {:induction false} PairError(tab: SineTable, e: seq<Cx>, o: seq<Cx>, e': seq<C>, o': seq<C>, m: real,
                                     err: real, i: nat)
    requires tab.Valid() && TableOk(tab) && 0 < |e| == |o| == |e'| == |o'| && 2 * |e| <= Pow2(tab.logWave)
    requires AllWithin(Reals(e), m) && AllWithin(Reals(o), m) && m <= 32763.0
    requires AllClose(Reals(e), e', err) && AllClose(Reals(o), o', err) && err <= 28000.0 && i < |e|
    ensures var c, d, l := Combine(tab, e, o), ExactCombine(tab, e', o'), |e|;
            Within(Diff(R(c[i]), d[i]), err + 3.0) && Within(Diff(R(c[l + i]), d[l + i]), err + 3.0)
  {
    hide Butterfly, Diff, ExactButterfly, StoresFit, TableOk, Twiddle, Within;
    var w := Twiddle(tab, |e|, i);
    var u := Butterfly(e[i], o[i], w);
    PairModulus(tab, e, o, m, i);
    assert Reals(e)[i] == R(e[i]) && Reals(o)[i] == R(o[i]);
    ErrorGrows(R(u.0), R(e[i]), R(o[i]), e'[i], o'[i], R(w), err, 1.0);
    ErrorGrows(R(u.1), R(e[i]), R(o[i]), e'[i], o'[i], R(w), err, -1.0);
  }

  lemma {:induction false} CombineError(tab: SineTable, e: seq<Cx>, o: seq<Cx>, e': seq<C>, o': seq<C>, m: real,
                                        err: real)
    requires tab.Valid() && TableOk(tab) && 0 < |e| == |o| == |e'| == |o'| && 2 * |e| <= Pow2(tab.logWave)
    requires AllWithin(Reals(e), m) && AllWithin(Reals(o), m) && m <= 32763.0
    requires AllClose(Reals(e), e', err) && AllClose(Reals(o), o', err) && err <= 28000.0
    ensures AllClose(Reals(Combine(tab, e, o)), ExactCombine(tab, e', o'), err + 3.0)
  {
    hide Combine, Diff, ExactCombine, R, TableOk, Within;
    var c, d := Combine(tab, e, o), ExactCombine(tab, e', o');
    forall p: nat | p < |c|
      ensures Within(Diff(R(c[p]), d[p]), err + 3.0)
    {
      PairError(tab, e, o, e', o', m, err, if p < |e| then p else p - |e|);
    }
  }

  /** The modulus bound after k stages. */
  function ModulusAfter(m: real, k: nat): (r: real)
    ensures r == m + 4.0 * k as real
  {
    if k == 0 then m else ModulusAfter(m, k - 1) + 4.0
  }

  /** The error bound after k stages. */
  function ErrorAfter(k: nat): (r: real)
    ensures r == 3.0 * k as real
  {
    if k == 0 then 0.0 else ErrorAfter(k - 1) + 3.0
  }

  lemma {:induction false} ModulusStep(tab: SineTable, k: nat, x: seq<Cx>, m: real, after: real)
    requires tab.Valid() && TableOk(tab) && |x| == Pow2(k) && 0 < k <= tab.logWave && m <= 32763.0 && after == m + 4.0
    requires AllWithin(Reals(Fft(tab, k - 1, Evens(x))), m) && AllWithin(Reals(Fft(tab, k - 1, Odds(x))), m)
    ensures AllWithin(Reals(Fft(tab, k, x)), after)
  {
    Pow2Monotone(k, tab.logWave);
    CombineModulus(tab, Fft(tab, k - 1, Evens(x)), Fft(tab, k - 1, Odds(x)), m);
  }

  /**
   With halved twiddles of modulus at most 16385, a stage raises the largest
   modulus by at most 4, for inputs of modulus at most 32767 - 4 * k.
   */
  lemma {:induction false} FftModulus(tab: SineTable, k: nat, x: seq<Cx>, m: real)
    requires tab.Valid() && TableOk(tab) && |x| == Pow2(k) && k <= tab.logWave
    requires AllWithin(Reals(x), m) && ModulusAfter(m, k) <= 32767.0
    ensures AllWithin(Reals(Fft(tab, k, x)), ModulusAfter(m, k))
    decreases k
  {
    if k > 0 {
      HalvesOfReals(x, m);
      FftModulus(tab, k - 1, Evens(x), m);
      FftModulus(tab, k - 1, Odds(x), m);
      ModulusStep(tab, k, x, ModulusAfter(m, k - 1), ModulusAfter(m, k));
    }
  }

  lemma {:induction false} StageNeverWraps(tab: SineTable, e: seq<Cx>, o: seq<Cx>, m: real)
    requires tab.Valid() && TableOk(tab) && 0 < |e| == |o| && 2 * |e| <= Pow2(tab.logWave)
    requires AllWithin(Reals(e), m) && AllWithin(Reals(o), m) && m <= 32763.0
    ensures StageFits(tab, e, o)
  {
    forall p: nat | p < |e|
      ensures StoresFit(e[p], o[p], Twiddle(tab, |e|, p))
    {
      PairModulus(tab, e, o, m, p);
    }
  }

  /** Under the same conditions no 16-bit store of any of the k stages wraps. */
  lemma {:induction false} FftNeverWraps(tab: SineTable, k: nat, x: seq<Cx>, m: real)
    requires tab.Valid() && TableOk(tab) && |x| == Pow2(k) && k <= tab.logWave
    requires AllWithin(Reals(x), m) && ModulusAfter(m, k) <= 32767.0
    ensures NothingWraps(tab, k, x)
    decreases k
  {
    if k > 0 {
      HalvesOfReals(x, m);
      FftNeverWraps(tab, k - 1, Evens(x), m);
      FftNeverWraps(tab, k - 1, Odds(x), m);
      FftModulus(tab, k - 1, Evens(x), m);
      FftModulus(tab, k - 1, Odds(x), m);
      Pow2Monotone(k, tab.logWave);
      StageNeverWraps(tab, Fft(tab, k - 1, Evens(x)), Fft(tab, k - 1, Odds(x)), ModulusAfter(m, k - 1));
    }
  }

  lemma {:induction false} ErrorStep(tab: SineTable, k: nat, x: seq<Cx>, m: real, err: real, after: real)
    requires tab.Valid() && TableOk(tab) && |x| == Pow2(k) && 0 < k <= tab.logWave && m <= 32763.0 && err <= 28000.0
    requires Reals(Evens(x)) == Evens(Reals(x)) && Reals(Odds(x)) == Odds(Reals(x)) && after == err + 3.0
    requires AllWithin(Reals(Fft(tab, k - 1, Evens(x))), m) && AllWithin(Reals(Fft(tab, k - 1, Odds(x))), m)
    requires AllClose(Reals(Fft(tab, k - 1, Evens(x))), ExactFft(tab, k - 1, Reals(Evens(x))), err)
    requires AllClose(Reals(Fft(tab, k - 1, Odds(x))), ExactFft(tab, k - 1, Reals(Odds(x))), err)
    ensures AllClose(Reals(Fft(tab, k, x)), ExactFft(tab, k, Reals(x)), after)
  {
    Pow2Monotone(k, tab.logWave);
    CombineError(tab, Fft(tab, k - 1, Evens(x)), Fft(tab, k - 1, Odds(x)),
                 ExactFft(tab, k - 1, Evens(Reals(x))), ExactFft(tab, k - 1, Odds(Reals(x))), m, err);
  }

  /** And each output is within 3 * k of the same transform over the reals. */
  lemma {:induction false} FftAccurate(tab: SineTable, k: nat, x: seq<Cx>, m: real)
    requires tab.Valid() && TableOk(tab) && |x| == Pow2(k) && k <= tab.logWave
    requires AllWithin(Reals(x), m) && ModulusAfter(m, k) <= 32767.0
    ensures AllClose(Reals(Fft(tab, k, x)), ExactFft(tab, k, Reals(x)), ErrorAfter(k))
    decreases k
  {
    if k == 0 {
      assert forall p | 0 <= p < |x| :: Diff(Reals(x)[p], Reals(x)[p]) == C(0.0, 0.0);
    } else {
      HalvesOfReals(x, m);
      FftModulus(tab, k - 1, Evens(x), m);
      FftModulus(tab, k - 1, Odds(x), m);
      FftAccurate(tab, k - 1, Evens(x), m);
      FftAccurate(tab, k - 1, Odds(x), m);
      ErrorStep(tab, k, x, ModulusAfter(m, k - 1), ErrorAfter(k - 1), ErrorAfter(k));
    }
  }

  lemma {:induction false} HalvesOfReals(x: seq<Cx>, m: real)
    requires AllWithin(Reals(x), m)
    ensures Reals(Evens(x)) == Evens(Reals(x)) && Reals(Odds(x)) == Odds(Reals(x))
    ensures AllWithin(Reals(Evens(x)), m) && AllWithin(Reals(Odds(x)), m)
    ensures |x| > 0 ==> m >= 0.0
  {
    if |x| > 0 {
      assert Within(Reals(x)[0], m);
    }
    forall p | 0 <= p < |x| / 2
      ensures Within(Reals(Evens(x))[p], m) && Within(Reals(Odds(x))[p], m)
    {
      assert Within(Reals(x)[2 * p], m) && Within(Reals(x)[2 * p + 1], m);
    }
  }
}
