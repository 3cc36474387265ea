/** The discrete Fourier transform itself, and how far the fixed-point transform is from it. */
module FftDft {
  import opened CInts
  import opened DivMod
  import opened FftSpec
  import opened ComplexReals
  import opened FftBound
  import FixFft

  const ZERO := C(0.0, 0.0)
  const ONE := C(1.0, 0.0)

  function Power(w: C, e: nat): C {
    if e == 0 then ONE else Mul(w, Power(w, e - 1))
  }

  /** x[0] + x[1] * v + x[2] * v^2 + ... */
  function Sum(x: seq<C>, v: C): C {
    if x == [] then ZERO else Add(x[0], Mul(v, Sum(x[1..], v)))
  }

  /** 1 / 2^k. */
  function Halved(k: nat): (h: real)
    ensures 0.0 < h <= 1.0
  {
    if k == 0 then 1.0 else 0.5 * Halved(k - 1)
  }

  /** The power of the root for 2^logWave that is power p of the root for 2^k. */
  function Index(logWave: nat, k: nat, p: nat): nat
    requires k <= logWave
  {
    p * Pow2(logWave - k)
  }

  /** Output p of the transform of 2^k samples, from the root of unity for 2^logWave: the sum of all
      x[j] * r^(j * p) over 2^k, with r the root of unity for 2^k. */
  function DftAt(root: C, logWave: nat, k: nat, x: seq<C>, p: nat): C
    requires k <= logWave
  {
    Scale(Halved(k), Sum(x, Power(root, Index(logWave, k, p))))
  }

  /** root is a root of unity for 2^logWave whose quarter power is -i, as cos - i * sin of a full turn over 2^logWave
      is. */
  ghost predicate IsRoot(root: C, logWave: nat) {
    Norm2(root) == 1.0 &&
    if logWave == 1 then root == C(-1.0, 0.0) else logWave > 1 && Power(root, Pow2(logWave - 2)) == C(0.0, -1.0)
  }

  /** The table as sine_table fills it: three quarters of a wave of 32767 * sine, rounded to the nearest. */
  ghost predicate IsSineTable(tab: SineTable, root: C) {
    tab.Valid() && forall i | 0 <= i < |tab.sine| :: SineAt(tab, root, i)
  }

  ghost predicate SineAt(tab: SineTable, root: C, i: nat)
    requires i < |tab.sine|
  {
    -0.5 <= tab.sine[i] as real + 32767.0 * Power(root, i).im <= 0.5
  }

  // ----- algebra

  lemma {:induction false} MulAssociates(a: C, b: C, c: C)
    ensures Mul(a, Mul(b, c)) == Mul(Mul(a, b), c)
  {
  }

  lemma {:induction false} PowerAdds(w: C, a: nat, b: nat)
    ensures Power(w, a + b) == Mul(Power(w, a), Power(w, b))
  {
    if a > 0 {
      PowerAdds(w, a - 1, b);
      MulAssociates(w, Power(w, a - 1), Power(w, b));
    }
  }

  lemma {:induction false} PowerUnit(w: C, e: nat)
    requires Norm2(w) == 1.0
    ensures Norm2(Power(w, e)) == 1.0
  {
    if e > 0 {
      PowerUnit(w, e - 1);
      NormOfProduct(w, Power(w, e - 1));
    }
  }

  lemma {:induction false} HornerTwice(a: C, b: C, v: C, s: C, e: C, o: C)
    requires s == Mul(v, v)
    ensures Add(a, Mul(v, Add(b, Mul(v, Add(e, Mul(v, o)))))) == Add(Add(a, Mul(s, e)), Mul(v, Add(b, Mul(s, o))))
  {
    var x := Mul(v, o);
    MulAssociates(v, v, e);
    MulAssociates(v, v, x);
    MulAssociates(s, v, o);
    MulAssociates(v, s, o);
    MulCommutes(s, v);
    MulDistributes(v, e, x);
    MulDistributes(v, b, Add(Mul(v, e), Mul(v, x)));
    MulDistributes(v, Mul(v, e), Mul(v, x));
    MulDistributes(v, b, Mul(s, o));
  }

  lemma {:induction false} MulCommutes(a: C, b: C)
    ensures Mul(a, b) == Mul(b, a)
  {
  }

  lemma {:induction false} MulDistributes(a: C, b: C, c: C)
    ensures Mul(a, Add(b, c)) == Add(Mul(a, b), Mul(a, c))
  {
  }

  lemma {:induction false} SumOfTwo(x: seq<C>, v: C, y: seq<C>)
    requires |x| >= 2 && y == x[2..]
    ensures Sum(x, v) == Add(x[0], Mul(v, Add(x[1], Mul(v, Sum(y, v)))))
  {
    assert x[1..][1..] == y;
  }

  lemma {:induction false} SumsOfHalves(x: seq<C>, s: C, y: seq<C>)
    requires |x| >= 2 && y == x[2..]
    ensures Sum(Evens(x), s) == Add(x[0], Mul(s, Sum(Evens(y), s)))
    ensures Sum(Odds(x), s) == Add(x[1], Mul(s, Sum(Odds(y), s)))
  {
    assert Evens(x)[1..] == Evens(y) && Odds(x)[1..] == Odds(y);
  }

  /** Even and odd terms of the sum: the step that makes the transform fast. */
  lemma {:induction false} SumSplits(x: seq<C>, v: C, s: C, half: nat)
    requires |x| == 2 * half && s == Mul(v, v)
    ensures Sum(x, v) == Add(Sum(Evens(x), s), Mul(v, Sum(Odds(x), s)))
    decreases |x|
  {
    if x != [] {
      var y := x[2..];
      SumSplits(y, v, s, half - 1);
      SumOfTwo(x, v, y);
      SumsOfHalves(x, s, y);
      HornerTwice(x[0], x[1], v, s, Sum(Evens(y), s), Sum(Odds(y), s));
    } else {
      assert Evens(x) == [] && Odds(x) == [];
    }
  }

  lemma {:induction false} ScaledPart(h: real, e: real, p: real, sign: real)
    ensures (0.5 * h) * (e + sign * p) == 0.5 * (h * e) + (sign * UNIT) * (16384.0 * (h * p))
  {
    assert (sign * UNIT) * (16384.0 * (h * p)) == 0.5 * (sign * (h * p));
  }

  lemma {:induction false} ScaledRotation(h: real, o: C, v: C, p: C)
    requires p == Mul(v, o)
    ensures Mul(Scale(16384.0, v), Scale(h, o)) == Scale(16384.0, Scale(h, p))
  {
    hide Mul;
    ScaleMul(16384.0, v, Scale(h, o));
    MulCommutes(v, Scale(h, o));
    ScaleMul(h, o, v);
    MulCommutes(o, v);
  }

  lemma {:induction false} ScaledTerms(h: real, e: C, p: C, sign: real)
    ensures Scale(0.5 * h, Add(e, Scale(sign, p)))
         == Add(Scale(0.5, Scale(h, e)), Scale(sign * UNIT, Scale(16384.0, Scale(h, p))))
  {
    ScaledPart(h, e.re, p.re, sign);
    ScaledPart(h, e.im, p.im, sign);
  }

  lemma {:induction false} ScaledButterfly(h: real, e: C, o: C, v: C, sign: real)
    ensures Scale(0.5 * h, Add(e, Mul(Scale(sign, v), o)))
         == ExactButterfly(Scale(h, e), Scale(h, o), Scale(16384.0, v), sign)
  {
    hide Add, Mul, Scale;
    var p := Mul(v, o);
    ScaleMul(sign, v, o);
    ScaledRotation(h, o, v, p);
    ScaledTerms(h, e, p, sign);
  }

  lemma {:induction false} ScaleMul(t: real, a: C, b: C)
    ensures Mul(Scale(t, a), b) == Scale(t, Mul(a, b))
  {
  }

  // ----- the transform of 2^k samples from those of its halves

  lemma {:induction false} HalfTurns(root: C, i: nat, half: nat, v: C)
    requires Power(root, half) == C(-1.0, 0.0) && v == Power(root, i)
    ensures Power(root, i + i) == Mul(v, v) && Power(root, i + half) == Scale(-1.0, v)
  {
    hide Power;
    PowerAdds(root, i, i);
    PowerAdds(root, i, half);
    Negated(v);
  }

  lemma {:induction false} Indices(p: nat, l: nat, stride: nat, half: nat)
    requires l * stride == half
    ensures p * (2 * stride) == p * stride + p * stride && (p + l) * stride == p * stride + half
  {
  }

  lemma {:induction false} Negated(v: C)
    ensures Mul(v, C(-1.0, 0.0)) == Scale(-1.0, v)
  {
  }

  lemma {:induction false} TwoQuarters(root: C, quarter: nat, half: nat)
    requires Power(root, quarter) == C(0.0, -1.0) && half == quarter + quarter
    ensures Power(root, half) == C(-1.0, 0.0)
  {
    PowerAdds(root, quarter, quarter);
    assert Mul(C(0.0, -1.0), C(0.0, -1.0)) == C(-1.0, 0.0);
  }

  lemma {:induction false} HalfWave(root: C, logWave: nat, half: nat)
    requires IsRoot(root, logWave) && logWave > 0 && half == Pow2(logWave - 1)
    ensures Power(root, half) == C(-1.0, 0.0)
  {
    if logWave == 1 {
      OnlyPower(root);
    } else {
      TwoQuarters(root, Pow2(logWave - 2), half);
    }
  }

  lemma {:induction false} OnlyPower(root: C)
    ensures Power(root, 1) == root
  {
    assert Power(root, 1) == Mul(root, Power(root, 0));
  }

  /** The indices of lane p and of lane p + l, for 2^k samples and for their halves. */
  lemma {:induction false} LaneIndices(logWave: nat, k: nat, p: nat, i: nat, half: nat)
    requires 0 < k <= logWave && i == Index(logWave, k, p) && half == Pow2(logWave - 1)
    ensures Index(logWave, k - 1, p) == i + i && Index(logWave, k, p + Pow2(k - 1)) == i + half
  {
    Pow2Add(k - 1, logWave - k);
    Indices(p, Pow2(k - 1), Pow2(logWave - k), half);
  }

  lemma {:induction false} TransformSplits(k: nat, x: seq<C>, v: C, s: C, half: nat)
    requires k > 0 && |x| == 2 * half && s == Mul(v, v)
    ensures var e, o := Scale(Halved(k - 1), Sum(Evens(x), s)), Scale(Halved(k - 1), Sum(Odds(x), s));
            Scale(Halved(k), Sum(x, v)) == ExactButterfly(e, o, Scale(16384.0, v), 1.0) &&
            Scale(Halved(k), Sum(x, Scale(-1.0, v))) == ExactButterfly(e, o, Scale(16384.0, v), -1.0)
  {
    var n := Scale(-1.0, v);
    assert Mul(n, n) == s && Scale(1.0, v) == v;
    SumSplits(x, v, s, half);
    SumSplits(x, n, s, half);
    ScaledButterfly(Halved(k - 1), Sum(Evens(x), s), Sum(Odds(x), s), v, 1.0);
    ScaledButterfly(Halved(k - 1), Sum(Evens(x), s), Sum(Odds(x), s), v, -1.0);
  }

  /** The powers of the root for lane p: v, the square of v for the halves, and -v for lane p + l. */
  lemma {:induction false} LanePowers(root: C, logWave: nat, k: nat, p: nat, i: nat, v: C)
    requires IsRoot(root, logWave) && 0 < k <= logWave && i == Index(logWave, k, p) && v == Power(root, i)
    ensures Power(root, Index(logWave, k - 1, p)) == Mul(v, v)
    ensures Power(root, Index(logWave, k, p + Pow2(k - 1))) == Scale(-1.0, v)
  {
    hide Index, IsRoot, Mul, Pow2, Power, Scale;
    var half := Pow2(logWave - 1);
    LaneIndices(logWave, k, p, i, half);
    HalfWave(root, logWave, half);
    HalfTurns(root, i, half, v);
  }

  lemma {:induction false} DftStep(root: C, logWave: nat, k: nat, x: seq<C>, p: nat, i: nat)
    requires IsRoot(root, logWave) && 0 < k <= logWave && |x| == Pow2(k) && i == Index(logWave, k, p)
    ensures var e, o := DftAt(root, logWave, k - 1, Evens(x), p), DftAt(root, logWave, k - 1, Odds(x), p);
            var w := Scale(16384.0, Power(root, i));
            DftAt(root, logWave, k, x, p) == ExactButterfly(e, o, w, 1.0) &&
            DftAt(root, logWave, k, x, p + Pow2(k - 1)) == ExactButterfly(e, o, w, -1.0)
  {
    hide Add, Evens, ExactButterfly, Halved, Index, IsRoot, Mul, Odds, Power, Scale, Sum;
    var v := Power(root, i);
    LanePowers(root, logWave, k, p, i, v);
    TransformSplits(k, x, v, Mul(v, v), Pow2(k - 1));
  }

  // ----- the twiddles of a rounded sine table

  lemma {:induction false} HalfRounds(s: int, a: real)
    requires -0.5 <= s as real - 32767.0 * a <= 0.5
    ensures -0.75 <= (s / 2) as real - 16383.5 * a <= 0.25
  {
    var b := s % 2;
    assert s as real == 2.0 * (s / 2) as real + b as real;
  }

  /** A quarter of a wave on, the table holds the cosine. */
  lemma {:induction false} CosineAt(tab: SineTable, root: C, j: nat, i: nat)
    requires IsRoot(root, tab.logWave) && IsSineTable(tab, root) && tab.logWave > 1
    requires 2 * j < Pow2(tab.logWave) && i == j + Pow2(tab.logWave) / 4
    ensures i < |tab.sine| && -0.5 <= tab.sine[i] as real - 32767.0 * Power(root, j).re <= 0.5
  {
    QuarterOffset(tab.logWave, j);
    var quarter := Pow2(tab.logWave - 2);
    assert Pow2(tab.logWave) == 2 * Pow2(tab.logWave - 1) == 4 * quarter;
    PowerAdds(root, j, quarter);
    assert SineAt(tab, root, i);
  }

  /** Rounding and halving leave a twiddle within 1.57 of 16384 times the power of the root. */
  lemma {:induction false} TwiddleNear(tab: SineTable, root: C, j: nat)
    requires IsRoot(root, tab.logWave) && IsSineTable(tab, root) && tab.logWave > 1 && 2 * j < Pow2(tab.logWave)
    ensures TwiddleOk(HalvedTwiddle(tab, j))
    ensures Within(Diff(R(HalvedTwiddle(tab, j)), Scale(16384.0, Power(root, j))), 1.57)
  {
    var v, w := Power(root, j), HalvedTwiddle(tab, j);
    var i := j + Pow2(tab.logWave) / 4;
    CosineAt(tab, root, j, i);
    HalfRounds(tab.sine[i], v.re);
    assert SineAt(tab, root, j);
    PowerUnit(root, j);
    Parts(v, 1.0);
    var s: int := tab.sine[j];
    assert Wrap16(-s) == -s;
    HalfRounds(-s, v.im);
    RoundedNear(R(w), v);
  }

  lemma {:induction false} RoundedNear(w: C, v: C)
    requires Norm2(v) == 1.0
    requires -0.75 <= w.re - 16383.5 * v.re <= 0.25 && -0.75 <= w.im - 16383.5 * v.im <= 0.25
    ensures Within(w, 16385.0) && Within(Diff(w, Scale(16384.0, v)), 1.57)
  {
    var d := Diff(w, Scale(16383.5, v));
    Box(d, 0.75, 1.07);
    UnitScaled(v, 16383.5);
    UnitScaled(v, 0.5);
    Triangle(d, 1.07, Scale(16383.5, v), 16383.5);
    assert Add(d, Scale(16383.5, v)) == w;
    WithinLarger(w, 16384.57, 16385.0);
    Triangle(d, 1.07, Scale(-0.5, v), 0.5);
    assert Add(d, Scale(-0.5, v)) == Diff(w, Scale(16384.0, v));
  }

  lemma {:induction false} UnitScaled(v: C, s: real)
    requires Norm2(v) == 1.0 && 0.0 <= s
    ensures Within(Scale(s, v), s) && Within(Scale(-s, v), s)
  {
    WithinScale(s, v, 1.0);
  }

  lemma {:induction false} TableIsOk(tab: SineTable, root: C)
    requires IsRoot(root, tab.logWave) && IsSineTable(tab, root) && tab.logWave > 1
    ensures TableOk(tab)
  {
    forall j: nat | 2 * j < Pow2(tab.logWave)
      ensures TwiddleOk(HalvedTwiddle(tab, j))
    {
      TwiddleNear(tab, root, j);
    }
  }

  // ----- the error of a stage

  lemma {:induction false} ButterflyOfTwiddles(q: C, x: C, w: C, t: C, sign: real)
    ensures Diff(ExactButterfly(q, x, w, sign), ExactButterfly(q, x, t, sign)) == Scale(sign * UNIT, Mul(Diff(w, t), x))
  {
    assert Diff(Mul(w, x), Mul(t, x)) == Mul(Diff(w, t), x);
    ScaleDiff(sign * UNIT, Mul(w, x), Mul(t, x));
  }

  /** A butterfly with twiddle t = 16384 * v does not enlarge an error. */
  lemma {:induction false} ErrorStays(a: C, b: C, c: C, d: C, v: C, e: real, sign: real)
    requires Norm2(v) == 1.0 && Within(Diff(a, c), e) && Within(Diff(b, d), e) && (sign == 1.0 || sign == -1.0)
    ensures var w := Scale(16384.0, v); Within(Diff(ExactButterfly(a, b, w, sign), ExactButterfly(c, d, w, sign)), e)
  {
    var w, q, x := Scale(16384.0, v), Diff(a, c), Diff(b, d);
    ExactLinear(a, b, c, d, w, sign);
    UnitScaled(v, 16384.0);
    WithinScale(0.5, q, e);
    WithinProduct(w, 16384.0, x, e);
    WithinScale(UNIT, Mul(w, x), 16384.0 * e);
    Triangle(Scale(0.5, q), 0.5 * e, Scale(sign * UNIT, Mul(w, x)), UNIT * (16384.0 * e));
    assert 0.5 * e + UNIT * (16384.0 * e) == e;
  }

  /** The butterfly's own 2.13 and the twiddle's 1.57 add up to less than 4. */
  lemma {:induction false} StageError(u: C, q: C, x: C, q': C, x': C, w: C, v: C, e: real, sign: real)
    requires Norm2(v) == 1.0 && (sign == 1.0 || sign == -1.0)
    requires Within(Diff(q, q'), e) && Within(Diff(x, x'), e) && Within(x, 32767.0)
    requires Within(Diff(w, Scale(16384.0, v)), 1.57) && Within(Diff(u, ExactButterfly(q, x, w, sign)), 2.13)
    ensures Within(Diff(u, ExactButterfly(q', x', Scale(16384.0, v), sign)), e + 4.0)
  {
    var t := Scale(16384.0, v);
    var f, g, h := ExactButterfly(q, x, w, sign), ExactButterfly(q, x, t, sign), ExactButterfly(q', x', t, sign);
    ButterflyOfTwiddles(q, x, w, t, sign);
    WithinProduct(Diff(w, t), 1.57, x, 32767.0);
    WithinScale(UNIT, Mul(Diff(w, t), x), 1.57 * 32767.0);
    WithinLarger(Diff(f, g), UNIT * (1.57 * 32767.0), 1.57);
    ErrorStays(q, x, q', x', v, e, sign);
    Triangle(Diff(u, f), 2.13, Diff(f, g), 1.57);
    assert Add(Diff(u, f), Diff(f, g)) == Diff(u, g);
    Triangle(Diff(u, g), 2.13 + 1.57, Diff(g, h), e);
    assert Add(Diff(u, g), Diff(g, h)) == Diff(u, h);
    WithinLarger(Diff(u, h), 2.13 + 1.57 + e, e + 4.0);
  }

  // ----- the whole transform

  ghost predicate Near(a: Cx, b: C, e: real) {
    Within(Diff(R(a), b), e)
  }

  ghost predicate NearDft(tab: SineTable, root: C, k: nat, x: seq<Cx>, e: real)
    requires tab.Valid() && |x| == Pow2(k) && k <= tab.logWave
  {
    forall p: nat | p < |x| :: Near(Fft(tab, k, x)[p], DftAt(root, tab.logWave, k, Reals(x), p), e)
  }

  /** The twiddle of lane p is near the power of the root that the transform has there. */
  lemma {:induction false} LaneTwiddle(tab: SineTable, root: C, k: nat, p: nat, j: nat)
    requires IsRoot(root, tab.logWave) && IsSineTable(tab, root) && tab.logWave > 1
    requires 0 < k <= tab.logWave && p < Pow2(k - 1) && j == Index(tab.logWave, k, p)
    ensures 2 * Pow2(k - 1) <= Pow2(tab.logWave) && Norm2(Power(root, j)) == 1.0
    ensures Within(Diff(R(Twiddle(tab, Pow2(k - 1), p)), Scale(16384.0, Power(root, j))), 1.57)
  {
    FixFft.ShiftIsStride(tab.logWave, k - 1);
    TwiddleIndexInRange(tab.logWave, Pow2(k - 1), p);
    TwiddleNear(tab, root, j);
    PowerUnit(root, j);
  }

  lemma {:induction false} PairNear(tab: SineTable, y: seq<Cx>, z: seq<Cx>, e': C, o': C, v: C, m: real, e: real,
                                    p: nat)
    requires tab.Valid() && TableOk(tab) && 0 < |y| == |z| && 2 * |y| <= Pow2(tab.logWave) && p < |y|
    requires AllWithin(Reals(y), m) && AllWithin(Reals(z), m) && m <= 32763.0 && Near(y[p], e', e) && Near(z[p], o', e)
    requires Norm2(v) == 1.0 && Within(Diff(R(Twiddle(tab, |y|, p)), Scale(16384.0, v)), 1.57)
    ensures Near(Combine(tab, y, z)[p], ExactButterfly(e', o', Scale(16384.0, v), 1.0), e + 4.0)
    ensures Near(Combine(tab, y, z)[p + |y|], ExactButterfly(e', o', Scale(16384.0, v), -1.0), e + 4.0)
  {
    hide Butterfly, Diff, ExactButterfly, Norm2, Reals, Scale, StoresFit, TableOk, Twiddle, Within;
    var w := Twiddle(tab, |y|, p);
    var u := Butterfly(y[p], z[p], w);
    PairModulus(tab, y, z, m, p);
    Member(z, m, p);
    WithinLarger(R(z[p]), m, 32767.0);
    StageError(R(u.0), R(y[p]), R(z[p]), e', o', R(w), v, e, 1.0);
    StageError(R(u.1), R(y[p]), R(z[p]), e', o', R(w), v, e, -1.0);
  }

  lemma {:induction false} LaneNearDft(tab: SineTable, root: C, k: nat, x: seq<Cx>, m: real, e: real, p: nat)
    requires IsRoot(root, tab.logWave) && IsSineTable(tab, root) && TableOk(tab) && tab.logWave > 1
    requires |x| == Pow2(k) && 0 < k <= tab.logWave && p < Pow2(k - 1) && m <= 32763.0
    requires Reals(Evens(x)) == Evens(Reals(x)) && Reals(Odds(x)) == Odds(Reals(x))
    requires AllWithin(Reals(Fft(tab, k - 1, Evens(x))), m) && AllWithin(Reals(Fft(tab, k - 1, Odds(x))), m)
    requires NearDft(tab, root, k - 1, Evens(x), e) && NearDft(tab, root, k - 1, Odds(x), e)
    ensures Near(Fft(tab, k, x)[p], DftAt(root, tab.logWave, k, Reals(x), p), e + 4.0)
    ensures var q := p + Pow2(k - 1); Near(Fft(tab, k, x)[q], DftAt(root, tab.logWave, k, Reals(x), q), e + 4.0)
  {
    hide DftAt, Evens, ExactButterfly, Index, Near, Norm2, Odds, Power, Reals, SineAt, TableOk, Twiddle, Within;
    var y, z := Fft(tab, k - 1, Evens(x)), Fft(tab, k - 1, Odds(x));
    var j := Index(tab.logWave, k, p);
    LaneTwiddle(tab, root, k, p, j);
    DftStep(root, tab.logWave, k, Reals(x), p, j);
    var e' := DftAt(root, tab.logWave, k - 1, Reals(Evens(x)), p);
    var o' := DftAt(root, tab.logWave, k - 1, Reals(Odds(x)), p);
    PairNear(tab, y, z, e', o', Power(root, j), m, e, p);
  }

  lemma {:induction false} StageNearDft(tab: SineTable, root: C, k: nat, x: seq<Cx>, m: real, e: real, after: real)
    requires IsRoot(root, tab.logWave) && IsSineTable(tab, root) && TableOk(tab) && tab.logWave > 1
    requires |x| == Pow2(k) && 0 < k <= tab.logWave && m <= 32763.0 && after == e + 4.0
    requires Reals(Evens(x)) == Evens(Reals(x)) && Reals(Odds(x)) == Odds(Reals(x))
    requires AllWithin(Reals(Fft(tab, k - 1, Evens(x))), m) && AllWithin(Reals(Fft(tab, k - 1, Odds(x))), m)
    requires NearDft(tab, root, k - 1, Evens(x), e) && NearDft(tab, root, k - 1, Odds(x), e)
    ensures NearDft(tab, root, k, x, after)
  {
    hide DftAt, Fft, Near, SineAt, TableOk;
    forall p: nat | p < |x|
      ensures Near(Fft(tab, k, x)[p], DftAt(root, tab.logWave, k, Reals(x), p), after)
    {
      LaneNearDft(tab, root, k, x, m, e, if p < Pow2(k - 1) then p else p - Pow2(k - 1));
    }
  }

  /** The error bound after k stages. */
  function DftError(k: nat): (r: real)
    ensures r == 4.0 * k as real
  {
    if k == 0 then 0.0 else DftError(k - 1) + 4.0
  }

  /** With a rounded sine table, each output is within 4 * k of the discrete Fourier transform over 2^k, for inputs of
      modulus at most 32767 - 4 * k. */
  lemma {:induction false} FftIsDft(tab: SineTable, root: C, k: nat, x: seq<Cx>, m: real)
    requires IsRoot(root, tab.logWave) && IsSineTable(tab, root) && tab.logWave > 1
    requires |x| == Pow2(k) && k <= tab.logWave && AllWithin(Reals(x), m) && ModulusAfter(m, k) <= 32767.0
    ensures NearDft(tab, root, k, x, DftError(k))
    decreases k
  {
    TableIsOk(tab, root);
    if k == 0 {
      SingleSample(tab, root, x);
    } else {
      HalvesOfReals(x, m);
      FftModulus(tab, k - 1, Evens(x), m);
      FftModulus(tab, k - 1, Odds(x), m);
      FftIsDft(tab, root, k - 1, Evens(x), m);
      FftIsDft(tab, root, k - 1, Odds(x), m);
      StageNearDft(tab, root, k, x, ModulusAfter(m, k - 1), DftError(k - 1), DftError(k));
    }
  }

  lemma {:induction false} SingleSample(tab: SineTable, root: C, x: seq<Cx>)
    requires tab.Valid() && |x| == 1
    ensures NearDft(tab, root, 0, x, 0.0)
  {
    forall v: C
      ensures Sum(Reals(x), v) == R(x[0])
    {
      SumSingle(Reals(x), v);
    }
    assert Halved(0) == 1.0;
  }

  // ----- two bins

  /** With two bins the table is the single entry sin 0, which serves as the cosine too: both outputs are half of the
      first sample, and the second sample is lost. */
  lemma {:induction false} TwoBins(tab: SineTable, root: C, x: seq<Cx>)
    requires IsRoot(root, 1) && IsSineTable(tab, root) && tab.logWave == 1 && |x| == 2
    ensures var h := Cx(x[0].re / 2, x[0].im / 2); Fft(tab, 1, x) == [h, h]
  {
    assert SineAt(tab, root, 0);
    assert tab.sine[0] == 0 && HalvedTwiddle(tab, 0) == Cx(0, 0);
    assert Rotated(Cx(0, 0), x[1]) == Cx(0, 0);
    assert Fft(tab, 0, Evens(x)) == [x[0]] && Fft(tab, 0, Odds(x)) == [x[1]];
    assert Twiddle(tab, 1, 0) == Cx(0, 0);
  }

  lemma {:induction false} SumOfLast(y: seq<C>)
    requires y == [ZERO, C(100.0, 0.0)]
    ensures Sum(y, ONE) == C(100.0, 0.0)
  {
    hide Sum;
    var last := C(100.0, 0.0);
    assert y[1..] == [last];
    SumSingle([last], ONE);
    SumMore(y, ONE);
    assert Mul(ONE, last) == last && Add(ZERO, last) == last;
  }

  lemma {:induction false} SumMore(x: seq<C>, v: C)
    requires x != []
    ensures Sum(x, v) == Add(x[0], Mul(v, Sum(x[1..], v)))
  {
    hide Add, Mul;
  }

  lemma {:induction false} SumSingle(x: seq<C>, v: C)
    requires |x| == 1
    ensures Sum(x, v) == x[0]
  {
    SumMore(x, v);
    assert Mul(v, ZERO) == ZERO && Add(x[0], ZERO) == x[0];
  }

  lemma {:induction false} FirstBin(root: C, y: seq<C>)
    ensures DftAt(root, 1, 1, y, 0) == Scale(0.5, Sum(y, ONE))
  {
    assert Halved(1) == 0.5 * Halved(0);
    assert Index(1, 1, 0) == 0 && Power(root, 0) == ONE;
  }

  lemma {:induction false} Apart(a: Cx, b: C)
    requires a == Cx(0, 0) && b == C(50.0, 0.0)
    ensures !Near(a, b, 4.0)
  {
  }

  lemma {:induction false} FarApart(tab: SineTable, root: C, x: seq<Cx>, y: seq<C>)
    requires IsRoot(root, 1) && IsSineTable(tab, root) && tab.logWave == 1
    requires x == [Cx(0, 0), Cx(100, 0)] && y == [ZERO, C(100.0, 0.0)]
    ensures !Near(Fft(tab, 1, x)[0], DftAt(root, 1, 1, y, 0), 4.0)
  {
    hide Fft, DftAt, Near, Sum, Power;
    TwoBins(tab, root, x);
    SumOfLast(y);
    FirstBin(root, y);
    Apart(Cx(0, 0), C(50.0, 0.0));
  }

  lemma {:induction false} SmallSamples(x: seq<Cx>, m: real)
    requires x == [Cx(0, 0), Cx(100, 0)] && m >= 100.0
    ensures AllWithin(Reals(x), m) && Reals(x) == [ZERO, C(100.0, 0.0)]
  {
    SquareMonotone(100.0, m);
  }

  /** 100 in the second sample should show as 50 in the first bin, and does not show at all. */
  lemma {:induction false} TwoBinsFail(tab: SineTable, root: C, x: seq<Cx>, m: real)
    requires IsRoot(root, 1) && IsSineTable(tab, root) && tab.logWave == 1 && m >= 100.0
    requires x == [Cx(0, 0), Cx(100, 0)]
    ensures AllWithin(Reals(x), m) && !NearDft(tab, root, 1, x, DftError(1))
  {
    hide Fft, DftAt, Near, Reals;
    SmallSamples(x, m);
    FarApart(tab, root, x, Reals(x));
    assert DftError(1) == 4.0;
  }

  /** The transforms of rtl_power are over the whole wave: near the discrete Fourier transform for all inputs of modulus
      up to m exactly unless there are two bins. */
  lemma {:induction false} SpectrumNearIff(tab: SineTable, root: C, m: real)
    requires IsRoot(root, tab.logWave) && IsSineTable(tab, root) && m >= 100.0
    requires ModulusAfter(m, tab.logWave) <= 32767.0
    ensures (forall x: seq<Cx> | |x| == Pow2(tab.logWave) && AllWithin(Reals(x), m) ::
               NearDft(tab, root, tab.logWave, x, DftError(tab.logWave)))
       <==> tab.logWave != 1
  {
    if tab.logWave == 1 {
      TwoBinsFail(tab, root, [Cx(0, 0), Cx(100, 0)], m);
    } else {
      forall x: seq<Cx> | |x| == Pow2(tab.logWave) && AllWithin(Reals(x), m)
        ensures NearDft(tab, root, tab.logWave, x, DftError(tab.logWave))
      {
        FftIsDft(tab, root, tab.logWave, x, m);
      }
    }
  }
}
