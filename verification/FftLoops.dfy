/**
 One stage of the in-place transform, described position by position, and the
 proof that all stages over the reordered samples give the recursive transform.
 */
module FftStages {
  import opened CInts
  import opened DivMod
  import opened FftSpec

  /** Where a position sits in its block of 2 * l: its lane, and the upper position of its pair. */
  function Lane(l: nat, p: nat): nat
    requires 0 < l
  {
    if p % (2 * l) < l then p % (2 * l) else p % (2 * l) - l
  }

  function Base(l: nat, p: nat): nat
    requires 0 < l
  {
    if p % (2 * l) < l then p else (ModAtMost(p, 2 * l); p - l)
  }

  lemma {:induction false} BaseFacts(n: nat, l: nat, p: nat)
    requires 0 < l && n % (2 * l) == 0 && p < n
    ensures Base(l, p) + l < n && Base(l, p) % (2 * l) == Lane(l, p) < l
    ensures p == Base(l, p) || p == Base(l, p) + l
  {
    BlockFits(n, 2 * l, p);
    if p % (2 * l) >= l {
      var q := Decompose(p, 2 * l);
      ModUnique(q, 2 * l, p % (2 * l) - l);
    }
  }

  lemma {:induction false} PairFacts(l: nat, i: nat, m: nat)
    requires 0 < l && i % (2 * l) == m && m < l
    ensures Lane(l, i) == m && Base(l, i) == i
    ensures (i + l) % (2 * l) == m + l && Lane(l, i + l) == m && Base(l, i + l) == i
    ensures (i + 2 * l) % (2 * l) == m
  {
    var q := Decompose(i, 2 * l);
    ModUnique(q, 2 * l, m + l);
    assert i + 2 * l == (q + 1) * (2 * l) + m;
    ModUnique(q + 1, 2 * l, m);
  }

  ghost predicate StageOk(tab: SineTable, l: nat, n: nat) {
    tab.Valid() && 0 < l && n % (2 * l) == 0 && 2 * l <= Pow2(tab.logWave)
  }

  /** What one stage stores at position p. */
  function StageAt(tab: SineTable, l: nat, z: seq<Cx>, p: nat): Cx
    requires StageOk(tab, l, |z|) && p < |z|
  {
    BaseFacts(|z|, l, p);
    var b := Base(l, p);
    var u := Butterfly(z[b], z[b + l], Twiddle(tab, l, Lane(l, p)));
    if p == b then u.0 else u.1
  }

  function Stage(tab: SineTable, l: nat, z: seq<Cx>): (r: seq<Cx>)
    requires StageOk(tab, l, |z|)
    ensures |r| == |z|
  {
    seq(|z|, p requires 0 <= p < |z| => StageAt(tab, l, z, p))
  }

  /** Lanes below m are done, and lane m is done for pairs starting below i. */
  predicate Done(l: nat, m: nat, i: nat, p: nat)
    requires 0 < l
  {
    Lane(l, p) < m || (Lane(l, p) == m && Base(l, p) < i)
  }

  function Partial(tab: SineTable, l: nat, z: seq<Cx>, m: nat, i: nat): (r: seq<Cx>)
    requires StageOk(tab, l, |z|)
    ensures |r| == |z|
  {
    seq(|z|, p requires 0 <= p < |z| => if Done(l, m, i, p) then StageAt(tab, l, z, p) else z[p])
  }

  lemma {:induction false} DoneStep(l: nat, n: nat, m: nat, i: nat, p: nat)
    requires 0 < l && n % (2 * l) == 0 && p < n && m < l && i % (2 * l) == m
    ensures Done(l, m, i + 2 * l, p) <==> Done(l, m, i, p) || p == i || p == i + l
    ensures p == i || p == i + l ==> !Done(l, m, i, p) && Base(l, p) == i && Lane(l, p) == m
  {
    PairFacts(l, i, m);
    BaseFacts(n, l, p);
    if Lane(l, p) == m && i <= Base(l, p) < i + 2 * l {
      SameRemainder(i, Base(l, p), 2 * l);
    }
  }

  /** Before its butterfly a pair still holds the samples the stage started from. */
  lemma {:induction false} PairUntouched(tab: SineTable, l: nat, z: seq<Cx>, m: nat, i: nat, j: nat)
    requires StageOk(tab, l, |z|) && m < l && i % (2 * l) == m && j == i + l < |z|
    ensures Partial(tab, l, z, m, i)[i] == z[i] && Partial(tab, l, z, m, i)[j] == z[j]
  {
    hide StageAt;
    DoneStep(l, |z|, m, i, i);
    DoneStep(l, |z|, m, i, j);
  }

  /** What the next partial stage holds at p. */
  lemma {:induction false} PartialStepAt(tab: SineTable, l: nat, z: seq<Cx>, m: nat, i: nat, j: nat, p: nat)
    requires StageOk(tab, l, |z|) && m < l && i % (2 * l) == m && j == i + l < |z| && p < |z|
    ensures var u := Butterfly(z[i], z[j], Twiddle(tab, l, m));
            Partial(tab, l, z, m, i + 2 * l)[p]
              == if p == i then u.0 else if p == j then u.1 else Partial(tab, l, z, m, i)[p]
  {
    hide Butterfly, Twiddle;
    DoneStep(l, |z|, m, i, p);
  }

  /** One butterfly at (i, i + l) advances the partial stage to the next pair of the lane. */
  lemma {:induction false} PartialStep(tab: SineTable, l: nat, z: seq<Cx>, m: nat, i: nat, j: nat)
    requires StageOk(tab, l, |z|) && m < l && i % (2 * l) == m && j == i + l < |z|
    ensures var c := Partial(tab, l, z, m, i);
            var u := Butterfly(c[i], c[j], Twiddle(tab, l, m));
            c[j := u.1][i := u.0] == Partial(tab, l, z, m, i + 2 * l)
  {
    hide Butterfly, Twiddle, Partial;
    var c := Partial(tab, l, z, m, i);
    PairUntouched(tab, l, z, m, i, j);
    var u := Butterfly(z[i], z[j], Twiddle(tab, l, m));
    var d := c[j := u.1][i := u.0];
    var e := Partial(tab, l, z, m, i + 2 * l);
    forall p | 0 <= p < |z|
      ensures d[p] == e[p]
    {
      PartialStepAt(tab, l, z, m, i, j, p);
    }
  }

  lemma {:induction false} PartialNextLane(tab: SineTable, l: nat, z: seq<Cx>, m: nat, i: nat)
    requires StageOk(tab, l, |z|) && m < l && i >= |z|
    ensures Partial(tab, l, z, m, i) == Partial(tab, l, z, m + 1, m + 1)
  {
    var c, d := Partial(tab, l, z, m, i), Partial(tab, l, z, m + 1, m + 1);
    forall p | 0 <= p < |z|
      ensures c[p] == d[p]
    {
      BaseFacts(|z|, l, p);
      ModAtMost(Base(l, p), 2 * l);
    }
  }

  lemma {:induction false} PartialStart(tab: SineTable, l: nat, z: seq<Cx>)
    requires StageOk(tab, l, |z|)
    ensures Partial(tab, l, z, 0, 0) == z
  {
  }

  lemma {:induction false} PartialEnd(tab: SineTable, l: nat, z: seq<Cx>, i: nat)
    requires StageOk(tab, l, |z|)
    ensures Partial(tab, l, z, l, i) == Stage(tab, l, z)
  {
    var c, d := Partial(tab, l, z, l, i), Stage(tab, l, z);
    forall p | 0 <= p < |z|
      ensures c[p] == d[p]
    {
      BaseFacts(|z|, l, p);
    }
  }
}

/** All stages in order, over samples already reordered, are the recursive transform. */
module FftRefinement {
  import opened CInts
  import opened DivMod
  import opened FftSpec
  import opened FftStages

  ghost predicate StagesOk(tab: SineTable, k: nat, n: nat) {
    tab.Valid() && k <= tab.logWave && n % Pow2(k) == 0
  }

  lemma {:induction false} StagesOkBelow(tab: SineTable, k: nat, n: nat)
    requires StagesOk(tab, k, n) && k > 0
    ensures StagesOk(tab, k - 1, n) && StageOk(tab, Pow2(k - 1), n)
  {
    ModHalf(n, Pow2(k - 1));
    Pow2Monotone(k, tab.logWave);
  }

  /** The stages of half-width 1, 2, 4, ... 2^(k-1), one after the other. */
  function Stages(tab: SineTable, k: nat, z: seq<Cx>): (r: seq<Cx>)
    requires StagesOk(tab, k, |z|)
    ensures |r| == |z|
    decreases k
  {
    if k == 0 then z
    else
      StagesOkBelow(tab, k, |z|);
      Stage(tab, Pow2(k - 1), Stages(tab, k - 1, z))
  }

  lemma {:induction false} StageAtLeft(tab: SineTable, l: nat, a: seq<Cx>, b: seq<Cx>, p: nat)
    requires StageOk(tab, l, |a|) && StageOk(tab, l, |a + b|) && p < |a|
    ensures StageAt(tab, l, a + b, p) == StageAt(tab, l, a, p)
  {
    hide Butterfly, Twiddle;
    BaseFacts(|a|, l, p);
  }

  lemma {:induction false} StageAtRight(tab: SineTable, l: nat, a: seq<Cx>, b: seq<Cx>, p: nat)
    requires StageOk(tab, l, |a|) && StageOk(tab, l, |b|) && StageOk(tab, l, |a + b|) && p < |b|
    ensures StageAt(tab, l, a + b, |a| + p) == StageAt(tab, l, b, p)
  {
    hide Butterfly, Twiddle;
    ModShift(p, 2 * l, |a|);
    BaseFacts(|b|, l, p);
    BaseFacts(|a + b|, l, |a| + p);
    var i := Base(l, p);
    assert Base(l, |a| + p) == |a| + i && Lane(l, |a| + p) == Lane(l, p);
    assert (a + b)[|a| + i] == b[i] && (a + b)[|a| + i + l] == b[i + l];
  }

  /** A stage works block by block. */
  lemma {:induction false} StageConcat(tab: SineTable, l: nat, a: seq<Cx>, b: seq<Cx>)
    requires StageOk(tab, l, |a|) && StageOk(tab, l, |b|)
    ensures |a + b| % (2 * l) == 0
    ensures Stage(tab, l, a + b) == Stage(tab, l, a) + Stage(tab, l, b)
  {
    hide StageAt;
    ModShift(|b|, 2 * l, |a|);
    var c, d := Stage(tab, l, a + b), Stage(tab, l, a) + Stage(tab, l, b);
    forall p | 0 <= p < |a + b|
      ensures c[p] == d[p]
    {
      if p < |a| {
        StageAtLeft(tab, l, a, b, p);
      } else {
        StageAtRight(tab, l, a, b, p - |a|);
      }
    }
  }

  lemma {:induction false} StagesConcat(tab: SineTable, k: nat, a: seq<Cx>, b: seq<Cx>)
    requires StagesOk(tab, k, |a|) && StagesOk(tab, k, |b|)
    ensures StagesOk(tab, k, |a + b|)
    ensures Stages(tab, k, a + b) == Stages(tab, k, a) + Stages(tab, k, b)
    decreases k
  {
    ModShift(|b|, Pow2(k), |a|);
    if k > 0 {
      StagesOkBelow(tab, k, |a|);
      StagesOkBelow(tab, k, |b|);
      StagesConcat(tab, k - 1, a, b);
      StageConcat(tab, Pow2(k - 1), Stages(tab, k - 1, a), Stages(tab, k - 1, b));
    }
  }

  lemma {:induction false} CombineAt(tab: SineTable, e: seq<Cx>, o: seq<Cx>, l: nat, p: nat)
    requires 0 < |e| == |o| == l && StageOk(tab, l, |e + o|) && p < 2 * l
    ensures StageAt(tab, l, e + o, p) == Combine(tab, e, o)[p]
  {
    hide Butterfly, Twiddle;
    ModUnique(0, 2 * l, p);
  }

  /** On a single block, a stage joins the two halves as the recursive transform does. */
  lemma {:induction false} StageIsCombine(tab: SineTable, e: seq<Cx>, o: seq<Cx>)
    requires tab.Valid() && 0 < |e| == |o| && 2 * |e| <= Pow2(tab.logWave)
    ensures |e + o| % (2 * |e|) == 0
    ensures Stage(tab, |e|, e + o) == Combine(tab, e, o)
  {
    hide StageAt, Combine;
    var l := |e|;
    ModUnique(1, 2 * l, 0);
    var c, d := Stage(tab, l, e + o), Combine(tab, e, o);
    forall p | 0 <= p < 2 * l
      ensures c[p] == d[p]
    {
      CombineAt(tab, e, o, l, p);
    }
  }

  /** The stages over the bit-reversed samples compute the recursive even/odd transform. */
  lemma {:induction false} StagesGiveFft(tab: SineTable, k: nat, x: seq<Cx>)
    requires tab.Valid() && |x| == Pow2(k) && k <= tab.logWave
    ensures StagesOk(tab, k, |x|)
    ensures Stages(tab, k, Reordered(k, x)) == Fft(tab, k, x)
    decreases k
  {
    ModSelf(Pow2(k));
    if k > 0 {
      hide Combine, Stage;
      var e, o := Evens(x), Odds(x);
      ModSelf(Pow2(k - 1));
      StagesGiveFft(tab, k - 1, e);
      StagesGiveFft(tab, k - 1, o);
      StagesConcat(tab, k - 1, Reordered(k - 1, e), Reordered(k - 1, o));
      Pow2Monotone(k, tab.logWave);
      StageIsCombine(tab, Fft(tab, k - 1, e), Fft(tab, k - 1, o));
    }
  }

  /** All stages but the last leave the transforms of the two halves. */
  lemma {:induction false} StagesOfHalves(tab: SineTable, k: nat, x: seq<Cx>)
    requires tab.Valid() && |x| == Pow2(k) && 0 < k <= tab.logWave
    ensures StagesOk(tab, k - 1, |x|) && StagesOk(tab, k - 1, Pow2(k - 1))
    ensures Stages(tab, k - 1, Reordered(k, x)) == Fft(tab, k - 1, Evens(x)) + Fft(tab, k - 1, Odds(x))
  {
    hide Fft, Stage;
    ModSelf(Pow2(k - 1));
    StagesGiveFft(tab, k - 1, Evens(x));
    StagesGiveFft(tab, k - 1, Odds(x));
    StagesConcat(tab, k - 1, Reordered(k - 1, Evens(x)), Reordered(k - 1, Odds(x)));
  }
}
