/**
 fix_fft itself: the reorder loop and the three nested butterfly loops over the
 interleaved buffer, each proved to leave what the specification says.
 */
module FixFft {
  import opened CInts
  import opened DivMod
  import opened FftSpec
  import opened BitReversal
  import opened FftStages
  import opened FftRefinement
  import opened FftStores

  /** The n complex samples at the front of an interleaved buffer. */
  function View(a: seq<int16>, n: nat): (z: seq<Cx>)
    requires 2 * n <= |a|
    ensures |z| == n
  {
    seq(n, p requires 0 <= p < n => Cx(a[2 * p], a[2 * p + 1]))
  }

  function Store(a: seq<int16>, p: nat, v: Cx): (b: seq<int16>)
    requires 2 * p + 1 < |a|
    ensures |b| == |a|
  {
    a[2 * p := v.re][2 * p + 1 := v.im]
  }

  lemma {:induction false} ViewStore(a: seq<int16>, n: nat, p: nat, v: Cx)
    requires 2 * n <= |a| && p < n
    ensures View(Store(a, p, v), n) == View(a, n)[p := v]
    ensures Store(a, p, v)[2 * n..] == a[2 * n..]
  {
    var b, c := View(Store(a, p, v), n), View(a, n)[p := v];
    forall i | 0 <= i < n
      ensures b[i] == c[i]
    {
    }
  }

  /** Finds the highest zero digit of the reversed counter and carries into it. */
  method NextReversed(k: nat, n: nat, mr: nat) returns (r: nat)
    requires n == Pow2(k) && mr + 1 < n
    ensures r == RevCarry(k, mr)
  {
    var l := n / 2;
    ghost var j := k - 1;
    assert Pow2(0) == 1;
    while mr + l > n - 1
      invariant 0 <= j < k && l == Pow2(j)
      invariant n - 2 * l <= mr
      invariant RevCarry(k, mr) == RevCarry(j + 1, mr - (n - 2 * l))
      decreases l
    {
      l := l / 2;
      j := j - 1;
    }
    MaskBelow(j, k, mr);
    r := mr % l + l;
  }

  /** Masking with l - 1 removes the ones above the zero digit. */
  lemma {:induction false} MaskBelow(j: nat, k: nat, mr: nat)
    requires j < k && Pow2(k) - 2 * Pow2(j) <= mr < Pow2(k) - Pow2(j)
    ensures mr % Pow2(j) == mr - (Pow2(k) - 2 * Pow2(j))
  {
    Pow2Add(k - j, j);
    Pow2Monotone(1, k - j);
    assert Pow2(1) == 2 * Pow2(0);
    MaskMultiple(Pow2(k - j), Pow2(j), mr);
  }

  lemma {:induction false} MaskMultiple(c: nat, l: nat, mr: nat)
    requires c >= 2 && l > 0 && c * l - 2 * l <= mr < c * l - l
    ensures mr % l == mr - (c * l - 2 * l)
  {
    var q := c - 2;
    assert q * l == c * l - 2 * l;
    ModUnique(q, l, mr - q * l);
  }

  /** The samples after every pair whose smaller index is at most m has been exchanged. */
  function Swapped(k: nat, x: seq<Cx>, m: nat): (r: seq<Cx>)
    requires |x| == Pow2(k)
    ensures |r| == |x|
  {
    seq(|x|, p requires 0 <= p < |x| => (RevInRange(k, p); if p <= m || Rev(k, p) <= m then x[Rev(k, p)] else x[p]))
  }

  lemma {:induction false} RevZero(k: nat)
    ensures Rev(k, 0) == 0
  {
    if k > 0 {
      RevZero(k - 1);
    }
  }

  lemma {:induction false} SwappedStart(k: nat, x: seq<Cx>)
    requires |x| == Pow2(k)
    ensures Swapped(k, x, 0) == x
  {
    RevZero(k);
    var s := Swapped(k, x, 0);
    forall p | 0 <= p < |x|
      ensures s[p] == x[p]
    {
      RevInRange(k, p);
      RevInvolution(k, p);
    }
  }

  lemma {:induction false} SwappedEnd(k: nat, x: seq<Cx>, m: nat)
    requires |x| == Pow2(k) && m + 1 >= |x|
    ensures Swapped(k, x, m) == Reordered(k, x)
  {
    var s, r := Swapped(k, x, m), Reordered(k, x);
    forall p | 0 <= p < |x|
      ensures s[p] == r[p]
    {
      ReorderedAt(k, x, p);
    }
  }

  /** Index m needs no exchange when its reversal is not above it, and exactly one otherwise. */
  lemma {:induction false} SwappedStep(k: nat, x: seq<Cx>, m: nat)
    requires |x| == Pow2(k) && m + 1 < |x|
    ensures var r := Rev(k, m + 1);
            var s := Swapped(k, x, m);
            r < |x| &&
            Swapped(k, x, m + 1) == if r <= m + 1 then s else s[m + 1 := s[r]][r := s[m + 1]]
  {
    hide Rev;
    var i := m + 1;
    RevInRange(k, i);
    var r := Rev(k, i);
    RevInvolution(k, i);
    var s, t := Swapped(k, x, m), Swapped(k, x, i);
    var u := if r <= i then s else s[i := s[r]][r := s[i]];
    forall p | 0 <= p < |x|
      ensures t[p] == u[p]
    {
      RevInRange(k, p);
      RevInvolution(k, p);
    }
  }

  method SwapSamples(iq: array<int16>, i: nat, j: nat, n: nat)
    requires i < n && j < n && i != j && 2 * n <= iq.Length
    modifies iq
    ensures View(iq[..], n) == old(View(iq[..], n)[i := View(iq[..], n)[j]][j := View(iq[..], n)[i]])
    ensures iq[2 * n..] == old(iq[2 * n..])
  {
    ghost var was := iq[..];
    ghost var z := View(was, n);
    var tr := iq[2 * i];
    iq[2 * i] := iq[2 * j];
    iq[2 * j] := tr;
    var ti := iq[2 * i + 1];
    iq[2 * i + 1] := iq[2 * j + 1];
    iq[2 * j + 1] := ti;
    assert iq[..] == Store(Store(was, i, z[j]), j, z[i]);
    ViewStore(was, n, i, z[j]);
    ViewStore(Store(was, i, z[j]), n, j, z[i]);
  }

  /** Decimation in time: the bit-reversal reorder, in place. */
  method Reorder(iq: array<int16>, k: nat, n: nat)
    requires n == Pow2(k) && 2 * n <= iq.Length
    modifies iq
    ensures View(iq[..], n) == Reordered(k, old(View(iq[..], n)))
    ensures iq[2 * n..] == old(iq[2 * n..])
  {
    hide *;
    ghost var x := View(iq[..], n);
    var mr := 0;
    var nn := n - 1;
    RevZero(k);
    SwappedStart(k, x);
    for m := 1 to nn + 1
      invariant 0 <= mr < n && mr == Rev(k, m - 1)
      invariant View(iq[..], n) == Swapped(k, x, m - 1)
      invariant iq[2 * n..] == old(iq[2 * n..])
    {
      RevSuccessor(k, m - 1);
      SwappedStep(k, x, m - 1);
      mr := NextReversed(k, n, mr);
      if mr <= m {
        continue;
      }
      SwapSamples(iq, m, mr, n);
    }
    SwappedEnd(k, x, nn);
  }

  method StoreSample(iq: array<int16>, p: nat, re: int16, im: int16, n: nat)
    requires p < n && 2 * n <= iq.Length
    modifies iq
    ensures View(iq[..], n) == old(View(iq[..], n))[p := Cx(re, im)]
    ensures iq[2 * n..] == old(iq[2 * n..])
  {
    ViewStore(iq[..], n, p, Cx(re, im));
    ghost var was := iq[..];
    iq[2 * p] := re;
    iq[2 * p + 1] := im;
    assert iq[..] == Store(was, p, Cx(re, im));
  }

  /** The stored difference and sum of a butterfly, and when all six of its stores hold their values. */
  lemma {:induction false} ButterflyStored(q: Cx, x: Cx, w: Cx, t: Cx, lower: Cx, upper: Cx)
    requires t == Rotated(w, x)
    requires lower == Cx(Wrap16(q.re / 2 - t.re), Wrap16(q.im / 2 - t.im))
    requires upper == Cx(Wrap16(q.re / 2 + t.re), Wrap16(q.im / 2 + t.im))
    ensures Butterfly(q, x, w) == (upper, lower)
    ensures StoresFit(q, x, w) <==>
              Holds(t, RotatedWide(w, x)) && Holds(lower, (q.re / 2 - t.re, q.im / 2 - t.im)) &&
              Holds(upper, (q.re / 2 + t.re, q.im / 2 + t.im))
  {
    hide FixMpy, Rotated, RotatedWide, Wrap16;
  }

  /** The lower sample times the twiddle; `kept` if neither store changed its value. */
  method Rotate(wr: int16, wi: int16, re: int16, im: int16) returns (tr: int16, ti: int16, ghost kept: bool)
    ensures Cx(tr, ti) == Rotated(Cx(wr, wi), Cx(re, im))
    ensures kept == Holds(Cx(tr, ti), RotatedWide(Cx(wr, wi), Cx(re, im)))
  {
    tr := Wrap16(FixMpy(wr, re) - FixMpy(wi, im));
    ti := Wrap16(FixMpy(wr, im) + FixMpy(wi, re));
    kept := tr == FixMpy(wr, re) - FixMpy(wi, im) && ti == FixMpy(wr, im) + FixMpy(wi, re);
  }

  /** The body of the innermost loop: one butterfly on samples i and j; `fits` if no store changed its value. */
  method ButterflyInPlace(iq: array<int16>, i: nat, j: nat, wr: int16, wi: int16, n: nat) returns (ghost fits: bool)
    requires i < n && j < n && i != j && 2 * n <= iq.Length
    modifies iq
    ensures var z := old(View(iq[..], n));
            var u := Butterfly(z[i], z[j], Cx(wr, wi));
            View(iq[..], n) == z[j := u.1][i := u.0] && fits == StoresFit(z[i], z[j], Cx(wr, wi))
    ensures iq[2 * n..] == old(iq[2 * n..])
  {
    hide Butterfly, StoresFit, Rotated, RotatedWide;
    ghost var z := View(iq[..], n);
    assert z[i] == Cx(iq[2 * i], iq[2 * i + 1]) && z[j] == Cx(iq[2 * j], iq[2 * j + 1]);
    var tr, ti, kept := Rotate(wr, wi, iq[2 * j], iq[2 * j + 1]);
    var qr: int, qi: int := iq[2 * i] / 2, iq[2 * i + 1] / 2;
    var jr, ji, ir, ii := Wrap16(qr - tr), Wrap16(qi - ti), Wrap16(qr + tr), Wrap16(qi + ti);
    ButterflyStored(z[i], z[j], Cx(wr, wi), Cx(tr, ti), Cx(jr, ji), Cx(ir, ii));
    fits := kept && jr == qr - tr && ji == qi - ti && ir == qr + tr && ii == qi + ti;
    StoreSample(iq, j, jr, ji, n);
    StoreSample(iq, i, ir, ii, n);
  }

  /** The innermost loop: every pair of lane m. */
  method ButterflyLane(tab: SineTable, iq: array<int16>, n: nat, l: nat, m: nat, wr: int16, wi: int16,
                       ghost z: seq<Cx>, ghost before: bool)
    returns (ghost fits: bool)
    requires 2 * n <= iq.Length && |z| == n && StageOk(tab, l, n) && m < l
    requires Cx(wr, wi) == Twiddle(tab, l, m)
    requires InStage(tab, l, z, m, m, View(iq[..], n), before)
    modifies iq
    ensures InStage(tab, l, z, m + 1, m + 1, View(iq[..], n), fits)
    ensures iq[2 * n..] == old(iq[2 * n..])
  {
    hide InStage, Butterfly, StoresFit, Twiddle, View;
    var istep := 2 * l;
    var i := m;
    fits := before;
    ModUnique(0, istep, m);
    while i < n
      invariant i % istep == m
      invariant InStage(tab, l, z, m, i, View(iq[..], n), fits)
      invariant iq[2 * n..] == old(iq[2 * n..])
    {
      PairFacts(l, i, m);
      BlockFits(n, istep, i);
      InStageStep(tab, l, z, m, i, i + l, View(iq[..], n), fits);
      ghost var now := ButterflyInPlace(iq, i, i + l, wr, wi, n);
      fits := fits && now;
      i := i + istep;
    }
    InStageNextLane(tab, l, z, m, i, View(iq[..], n), fits);
  }

  /** The table index m << k of the loops is the index m * N_WAVE / (2 * l) of the specification. */
  lemma {:induction false} ShiftIsStride(logWave: nat, s: nat)
    requires s < logWave
    ensures Pow2(logWave) / (2 * Pow2(s)) == Pow2(logWave - 1 - s)
    ensures 2 * Pow2(s) <= Pow2(logWave)
  {
    Pow2Add(logWave - 1 - s, s + 1);
    Pow2Monotone(s + 1, logWave);
    DivExact(Pow2(logWave - 1 - s), 2 * Pow2(s));
  }

  /** One stage: all lanes m < l, with the twiddle of lane m read from the table. */
  method ButterflyStage(tab: SineTable, iq: array<int16>, n: nat, l: nat, k: nat, ghost s: nat)
    returns (ghost fits: bool)
    requires 2 * n <= iq.Length && StageOk(tab, l, n)
    requires s + k + 1 == tab.logWave && l == Pow2(s)
    modifies iq
    ensures View(iq[..], n) == Stage(tab, l, old(View(iq[..], n)))
    ensures fits == PairsFit(tab, l, old(View(iq[..], n)))
    ensures iq[2 * n..] == old(iq[2 * n..])
  {
    hide InStage;
    ghost var z := View(iq[..], n);
    fits := true;
    InStageEnds(tab, l, z, z, fits);
    ShiftIsStride(tab.logWave, s);
    for m := 0 to l
      invariant InStage(tab, l, z, m, m, View(iq[..], n), fits)
      invariant iq[2 * n..] == old(iq[2 * n..])
    {
      var j := m * Pow2(k);
      TwiddleIndexInRange(tab.logWave, l, m);
      var w := HalvedTwiddle(tab, j);
      fits := ButterflyLane(tab, iq, n, l, m, w.re, w.im, z, fits);
    }
    InStageEnds(tab, l, z, View(iq[..], n), fits);
  }

  lemma {:induction false} Pow2Strict(a: nat, b: nat)
    requires a < b
    ensures Pow2(a) < Pow2(b)
    decreases b
  {
    Pow2Monotone(a, b - 1);
  }

  lemma {:induction false} StageReady(tab: SineTable, m: nat, s: nat)
    requires tab.Valid() && m <= tab.logWave && s <= m && Pow2(s) < Pow2(m)
    ensures s < m && StageOk(tab, Pow2(s), Pow2(m)) && StagesOk(tab, s + 1, Pow2(m))
  {
    var c, d := Pow2(m - s - 1), Pow2(s + 1);
    Pow2Add(m - s - 1, s + 1);
    assert c * d + 0 == Pow2(m);
    ModUnique(c, d, 0);
    ShiftIsStride(tab.logWave, s);
  }

  /** After s stages over z: the samples, and whether every store fitted so far. */
  ghost predicate AfterStages(tab: SineTable, s: nat, z: seq<Cx>, now: seq<Cx>, fits: bool) {
    StagesOk(tab, s, |z|) && now == Stages(tab, s, z) && fits == StagesFit(tab, s, z)
  }

  lemma {:induction false} NextStage(tab: SineTable, m: nat, s: nat, z: seq<Cx>, now: seq<Cx>, fits: bool)
    requires tab.Valid() && m <= tab.logWave && s <= m && Pow2(s) < Pow2(m) == |z| && AfterStages(tab, s, z, now, fits)
    ensures s < m && |now| == |z| && StageOk(tab, Pow2(s), |z|) && Pow2(s + 1) == 2 * Pow2(s)
    ensures AfterStages(tab, s + 1, z, Stage(tab, Pow2(s), now), fits && PairsFit(tab, Pow2(s), now))
  {
    StageReady(tab, m, s);
  }

  /** The outer loop: every stage over the reordered samples. */
  method ButterflyStages(tab: SineTable, iq: array<int16>, n: nat, m: nat) returns (ghost fits: bool)
    requires tab.Valid() && m <= tab.logWave && n == Pow2(m) && 2 * n <= iq.Length
    modifies iq
    ensures AfterStages(tab, m, old(View(iq[..], n)), View(iq[..], n), fits)
    ensures iq[2 * n..] == old(iq[2 * n..])
  {
    hide *;
    ghost var z := View(iq[..], n);
    var l := 1;
    var k := tab.logWave - 1;
    ghost var s := 0;
    fits := true;
    StagesStart(tab, z);
    while l < n
      invariant 0 <= s <= m && l == Pow2(s) && s + k + 1 == tab.logWave
      invariant AfterStages(tab, s, z, View(iq[..], n), fits)
      invariant iq[2 * n..] == old(iq[2 * n..])
      decreases m - s
    {
      NextStage(tab, m, s, z, View(iq[..], n), fits);
      ghost var now := ButterflyStage(tab, iq, n, l, k, s);
      fits := fits && now;
      k := k - 1;
      l := 2 * l;
      s := s + 1;
    }
    if s < m {
      Pow2Strict(s, m);
    }
  }

  lemma {:induction false} StagesStart(tab: SineTable, z: seq<Cx>)
    requires tab.Valid()
    ensures AfterStages(tab, 0, z, z, true) && Pow2(0) == 1
  {
    assert |z| % Pow2(0) == 0;
  }

  /** The whole transform; `fits` if none of its stores changed a value. A length above N_WAVE is refused and nothing
      is touched. */
  method Transform(tab: SineTable, iq: array<int16>, m: nat) returns (r: int, ghost fits: bool)
    requires tab.Valid()
    requires m <= tab.logWave ==> 2 * Pow2(m) <= iq.Length
    modifies iq
    ensures r == if m <= tab.logWave then 0 else -1
    ensures m <= tab.logWave ==>
              View(iq[..], Pow2(m)) == Fft(tab, m, old(View(iq[..], Pow2(m)))) &&
              fits == NothingWraps(tab, m, old(View(iq[..], Pow2(m)))) &&
              iq[2 * Pow2(m)..] == old(iq[2 * Pow2(m)..])
    ensures m > tab.logWave ==> iq[..] == old(iq[..])
  {
    var n := Pow2(m);
    if n > Pow2(tab.logWave) {
      assert m > tab.logWave by {
        if m <= tab.logWave {
          Pow2Monotone(m, tab.logWave);
        }
      }
      return -1, true;
    }
    if m > tab.logWave {
      Pow2Strict(tab.logWave, m);
    }
    ghost var x := View(iq[..], n);
    Reorder(iq, m, n);
    fits := ButterflyStages(tab, iq, n, m);
    StagesGiveFft(tab, m, x);
    StagesFitIff(tab, m, x);
    return 0, fits;
  }
}
