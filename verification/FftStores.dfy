/** When the 16-bit stores of the transform hold what was computed: recursively, and stage by stage in place. */
module FftStores {
  import opened CInts
  import opened DivMod
  import opened FftSpec
  import opened FftStages
  import opened FftRefinement

  ghost predicate StageFits(tab: SineTable, e: seq<Cx>, o: seq<Cx>)
    requires tab.Valid() && 0 < |e| == |o| && 2 * |e| <= Pow2(tab.logWave)
  {
    forall p | 0 <= p < |e| :: StoresFit(e[p], o[p], Twiddle(tab, |e|, p))
  }

  /** Every store of every butterfly of the transform of x holds the value computed for it. */
  ghost predicate NothingWraps(tab: SineTable, k: nat, x: seq<Cx>)
    requires tab.Valid() && |x| == Pow2(k) && k <= tab.logWave
    decreases k
  {
    k == 0 ||
    (Pow2Monotone(k, tab.logWave);
     NothingWraps(tab, k - 1, Evens(x)) && NothingWraps(tab, k - 1, Odds(x)) &&
     StageFits(tab, Fft(tab, k - 1, Evens(x)), Fft(tab, k - 1, Odds(x))))
  }

  // ----- one stage in place

  /** The butterfly that the stage does at position p. */
  ghost predicate PairFits(tab: SineTable, l: nat, z: seq<Cx>, p: nat)
    requires StageOk(tab, l, |z|) && p < |z|
  {
    BaseFacts(|z|, l, p);
    StoresFit(z[Base(l, p)], z[Base(l, p) + l], Twiddle(tab, l, Lane(l, p)))
  }

  ghost predicate PairsFit(tab: SineTable, l: nat, z: seq<Cx>)
    requires StageOk(tab, l, |z|)
  {
    forall p: nat | p < |z| :: PairFits(tab, l, z, p)
  }

  /** ... of those done so far. */
  ghost predicate DoneFit(tab: SineTable, l: nat, z: seq<Cx>, m: nat, i: nat)
    requires StageOk(tab, l, |z|)
  {
    forall p: nat | p < |z| && Done(l, m, i, p) :: PairFits(tab, l, z, p)
  }

  lemma {:induction false} PairOfLane(tab: SineTable, l: nat, z: seq<Cx>, m: nat, i: nat, j: nat)
    requires StageOk(tab, l, |z|) && m < l && i % (2 * l) == m && j == i + l < |z|
    ensures PairFits(tab, l, z, i) == StoresFit(z[i], z[j], Twiddle(tab, l, m))
    ensures PairFits(tab, l, z, j) == StoresFit(z[i], z[j], Twiddle(tab, l, m))
  {
    hide StoresFit, Twiddle;
    PairFacts(l, i, m);
  }

  lemma {:induction false} DoneFitStep(tab: SineTable, l: nat, z: seq<Cx>, m: nat, i: nat, next: nat)
    requires StageOk(tab, l, |z|) && m < l && i % (2 * l) == m && i + l < |z| && next == i + 2 * l
    ensures DoneFit(tab, l, z, m, next)
       <==> DoneFit(tab, l, z, m, i) && PairFits(tab, l, z, i) && PairFits(tab, l, z, i + l)
  {
    hide PairFits, Done;
    forall p: nat | p < |z|
      ensures Done(l, m, next, p) <==> Done(l, m, i, p) || p == i || p == i + l
    {
      DoneStep(l, |z|, m, i, p);
    }
  }

  /** What the loops keep: the samples of the partly done stage, and whether every store fitted so far. */
  ghost predicate InStage(tab: SineTable, l: nat, z: seq<Cx>, m: nat, i: nat, now: seq<Cx>, fits: bool)
    requires StageOk(tab, l, |z|)
  {
    now == Partial(tab, l, z, m, i) && fits == DoneFit(tab, l, z, m, i)
  }

  lemma {:induction false} InStageStep(tab: SineTable, l: nat, z: seq<Cx>, m: nat, i: nat, j: nat, now: seq<Cx>,
                                       fits: bool)
    requires StageOk(tab, l, |z|) && m < l && i % (2 * l) == m && j == i + l < |z| &&
             InStage(tab, l, z, m, i, now, fits)
    ensures var w := Twiddle(tab, l, m);
            var u := Butterfly(now[i], now[j], w);
            InStage(tab, l, z, m, i + 2 * l, now[j := u.1][i := u.0], fits && StoresFit(now[i], now[j], w))
  {
    hide DoneFit, PairFits, StoresFit, Butterfly, Twiddle, Partial;
    PartialStep(tab, l, z, m, i, j);
    PairUntouched(tab, l, z, m, i, j);
    PairOfLane(tab, l, z, m, i, j);
    DoneFitStep(tab, l, z, m, i, i + 2 * l);
  }

  lemma {:induction false} DoneFitNextLane(tab: SineTable, l: nat, z: seq<Cx>, m: nat, i: nat)
    requires StageOk(tab, l, |z|) && m < l && i >= |z|
    ensures DoneFit(tab, l, z, m, i) <==> DoneFit(tab, l, z, m + 1, m + 1)
  {
    forall p: nat | p < |z|
      ensures Done(l, m, i, p) <==> Done(l, m + 1, m + 1, p)
    {
      BaseFacts(|z|, l, p);
      ModAtMost(Base(l, p), 2 * l);
    }
  }

  lemma {:induction false} InStageNextLane(tab: SineTable, l: nat, z: seq<Cx>, m: nat, i: nat, now: seq<Cx>, fits: bool)
    requires StageOk(tab, l, |z|) && m < l && i >= |z| && InStage(tab, l, z, m, i, now, fits)
    ensures InStage(tab, l, z, m + 1, m + 1, now, fits)
  {
    PartialNextLane(tab, l, z, m, i);
    DoneFitNextLane(tab, l, z, m, i);
  }

  lemma {:induction false} DoneFitEnds(tab: SineTable, l: nat, z: seq<Cx>)
    requires StageOk(tab, l, |z|)
    ensures DoneFit(tab, l, z, 0, 0)
    ensures DoneFit(tab, l, z, l, l) <==> PairsFit(tab, l, z)
  {
    forall p: nat | p < |z|
      ensures Done(l, l, l, p)
    {
      BaseFacts(|z|, l, p);
    }
  }

  lemma {:induction false} InStageEnds(tab: SineTable, l: nat, z: seq<Cx>, now: seq<Cx>, fits: bool)
    requires StageOk(tab, l, |z|)
    ensures InStage(tab, l, z, 0, 0, z, true)
    ensures InStage(tab, l, z, l, l, now, fits) ==> now == Stage(tab, l, z) && fits == PairsFit(tab, l, z)
  {
    PartialStart(tab, l, z);
    PartialEnd(tab, l, z, l);
    DoneFitEnds(tab, l, z);
  }

  // ----- all stages

  ghost predicate StagesFit(tab: SineTable, k: nat, z: seq<Cx>)
    requires StagesOk(tab, k, |z|)
    decreases k
  {
    k == 0 ||
    (StagesOkBelow(tab, k, |z|);
     StagesFit(tab, k - 1, z) && PairsFit(tab, Pow2(k - 1), Stages(tab, k - 1, z)))
  }

  lemma {:induction false} PairFitsLeft(tab: SineTable, l: nat, a: seq<Cx>, b: seq<Cx>, p: nat)
    requires StageOk(tab, l, |a|) && StageOk(tab, l, |a + b|) && p < |a|
    ensures PairFits(tab, l, a + b, p) == PairFits(tab, l, a, p)
  {
    hide StoresFit, Twiddle;
    BaseFacts(|a|, l, p);
  }

  lemma {:induction false} PairFitsRight(tab: SineTable, l: nat, a: seq<Cx>, b: seq<Cx>, p: nat)
    requires StageOk(tab, l, |a|) && StageOk(tab, l, |b|) && StageOk(tab, l, |a + b|) && p < |b|
    ensures PairFits(tab, l, a + b, |a| + p) == PairFits(tab, l, b, p)
  {
    hide StoresFit, Twiddle;
    ModShift(p, 2 * l, |a|);
    BaseFacts(|b|, l, p);
    BaseFacts(|a + b|, l, |a| + p);
    var i := Base(l, p);
    assert Base(l, |a| + p) == |a| + i && Lane(l, |a| + p) == Lane(l, p);
    assert (a + b)[|a| + i] == b[i] && (a + b)[|a| + i + l] == b[i + l];
  }

  lemma {:induction false} PairsFitConcat(tab: SineTable, l: nat, a: seq<Cx>, b: seq<Cx>)
    requires StageOk(tab, l, |a|) && StageOk(tab, l, |b|) && StageOk(tab, l, |a + b|)
    ensures PairsFit(tab, l, a + b) <==> PairsFit(tab, l, a) && PairsFit(tab, l, b)
  {
    hide PairFits;
    forall p: nat | p < |a|
      ensures PairFits(tab, l, a + b, p) == PairFits(tab, l, a, p)
    {
      PairFitsLeft(tab, l, a, b, p);
    }
    forall p: nat | p < |b|
      ensures PairFits(tab, l, a + b, |a| + p) == PairFits(tab, l, b, p)
    {
      PairFitsRight(tab, l, a, b, p);
    }
    if PairsFit(tab, l, a + b) {
      forall p: nat | p < |b|
        ensures PairFits(tab, l, b, p)
      {
        assert PairFits(tab, l, a + b, |a| + p);
      }
    }
    if PairsFit(tab, l, a) && PairsFit(tab, l, b) {
      forall p: nat | p < |a + b|
        ensures PairFits(tab, l, a + b, p)
      {
        assert p >= |a| ==> PairFits(tab, l, b, p - |a|);
      }
    }
  }

  lemma {:induction false} StagesFitConcat(tab: SineTable, k: nat, a: seq<Cx>, b: seq<Cx>)
    requires StagesOk(tab, k, |a|) && StagesOk(tab, k, |b|) && StagesOk(tab, k, |a + b|)
    ensures StagesFit(tab, k, a + b) <==> StagesFit(tab, k, a) && StagesFit(tab, k, b)
    decreases k
  {
    if k > 0 {
      StagesOkBelow(tab, k, |a|);
      StagesOkBelow(tab, k, |b|);
      StagesOkBelow(tab, k, |a + b|);
      StagesFitConcat(tab, k - 1, a, b);
      StagesConcat(tab, k - 1, a, b);
      PairsFitConcat(tab, Pow2(k - 1), Stages(tab, k - 1, a), Stages(tab, k - 1, b));
    }
  }

  lemma {:induction false} PairIsLane(tab: SineTable, e: seq<Cx>, o: seq<Cx>, p: nat)
    requires tab.Valid() && 0 < |e| == |o| && 2 * |e| <= Pow2(tab.logWave) && StageOk(tab, |e|, |e + o|) && p < 2 * |e|
    ensures var m := if p < |e| then p else p - |e|;
            PairFits(tab, |e|, e + o, p) == StoresFit(e[m], o[m], Twiddle(tab, |e|, m))
  {
    hide StoresFit, Twiddle;
    ModUnique(0, 2 * |e|, p);
  }

  lemma {:induction false} PairsFitCombine(tab: SineTable, e: seq<Cx>, o: seq<Cx>)
    requires tab.Valid() && 0 < |e| == |o| && 2 * |e| <= Pow2(tab.logWave) && StageOk(tab, |e|, |e + o|)
    ensures PairsFit(tab, |e|, e + o) <==> StageFits(tab, e, o)
  {
    hide StoresFit, Twiddle, PairFits;
    forall p: nat | p < 2 * |e|
      ensures var m := if p < |e| then p else p - |e|;
              PairFits(tab, |e|, e + o, p) == StoresFit(e[m], o[m], Twiddle(tab, |e|, m))
    {
      PairIsLane(tab, e, o, p);
    }
    if PairsFit(tab, |e|, e + o) {
      forall m | 0 <= m < |e|
        ensures StoresFit(e[m], o[m], Twiddle(tab, |e|, m))
      {
        assert PairFits(tab, |e|, e + o, m);
      }
    }
  }

  lemma {:induction false} FitOfHalves(tab: SineTable, k: nat, x: seq<Cx>)
    requires tab.Valid() && |x| == Pow2(k) && 0 < k <= tab.logWave
    requires StagesOk(tab, k - 1, |x|) && StagesOk(tab, k - 1, Pow2(k - 1))
    ensures StagesFit(tab, k - 1, Reordered(k, x)) <==>
              StagesFit(tab, k - 1, Reordered(k - 1, Evens(x))) && StagesFit(tab, k - 1, Reordered(k - 1, Odds(x)))
  {
    hide StagesFit;
    StagesFitConcat(tab, k - 1, Reordered(k - 1, Evens(x)), Reordered(k - 1, Odds(x)));
  }

  /** The butterflies of the loops are those of the recursion: the same stores wrap, or none. */
  lemma {:induction false} StagesFitIff(tab: SineTable, k: nat, x: seq<Cx>)
    requires tab.Valid() && |x| == Pow2(k) && k <= tab.logWave && StagesOk(tab, k, |x|)
    ensures StagesFit(tab, k, Reordered(k, x)) <==> NothingWraps(tab, k, x)
    decreases k
  {
    if k > 0 {
      hide PairsFit, StageFits, Stages, Fft, Reordered;
      var e, o := Evens(x), Odds(x);
      StagesOfHalves(tab, k, x);
      StagesFitIff(tab, k - 1, e);
      StagesFitIff(tab, k - 1, o);
      StagesOkBelow(tab, k, |x|);
      FitOfHalves(tab, k, x);
      Pow2Monotone(k, tab.logWave);
      PairsFitCombine(tab, Fft(tab, k - 1, e), Fft(tab, k - 1, o));
    }
  }
}
