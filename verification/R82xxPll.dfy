/** The PLL arithmetic of r82xx_set_pll: mixer divider, integer part, and the sigma-delta word. */
module R82xxPll {
  import opened CInts
  import opened DivMod
  import opened Options

  // ----- the sigma-delta word

  /** The word, what is left of the fraction, and how often the loop went round. */
  datatype Sdm = Sdm(word: nat, left: nat, rounds: nat)

  /** Twice the reference over the denominator 2^k, by halving. */
  function Quot(ref: nat, k: nat): nat
    requires k >= 1
  {
    if k == 1 then ref else Quot(ref, k - 1) / 2
  }

  /**
   The loop from denominator 2^k on, for a fraction of v kHz; the 16-bit denominator
   is shifted out after 2^15. None is the division by zero this leads to.
   */
  function SdmFrom(v: nat, ref: nat, k: nat): Option<Sdm>
    requires 1 <= k <= 16
    decreases 16 - k
  {
    if v <= 1 then Some(Sdm(0, v, 0))
    else if k == 16 then None
    else if v > Quot(ref, k) then
      if k == 15 then Some(Sdm(Pow2(1), v - Quot(ref, k), 1))
      else
        match SdmFrom(v - Quot(ref, k), ref, k + 1)
        case None => None
        case Some(r) => Some(Sdm(Pow2(16 - k) + r.word, r.left, r.rounds + 1))
    else
      match SdmFrom(v, ref, k + 1)
      case None => None
      case Some(r) => Some(Sdm(r.word, r.left, r.rounds + 1))
  }

  // ----- its denominators and weights

  lemma {:induction false} Doubled(p: nat, b: nat)
    ensures p * (2 * b) == (2 * p) * b && (2 * p + 2) * b == (2 * p) * b + 2 * b
  {
  }

  lemma {:induction false} DivHalves(a: nat, b: nat)
    requires b > 0
    ensures (a / b) / 2 == a / (2 * b)
  {
    var q := Decompose(a, b);
    var p := Decompose(a, 2 * b);
    Doubled(p, b);
    MulMonotone(q + 1, 2 * p, b);
    MulMonotone(2 * p + 2, q, b);
    NextMultiple(q, b);
  }

  lemma {:induction false} QuotIs(ref: nat, k: nat)
    requires k >= 1
    ensures 2 * ref / Pow2(k) == Quot(ref, k)
  {
    if k == 1 {
      assert Pow2(1) == 2 * Pow2(0);
    } else {
      QuotIs(ref, k - 1);
      DivHalves(2 * ref, Pow2(k - 1));
    }
  }

  lemma {:induction false} FirstWeight()
    ensures Pow2(13) == 0x2000 && Pow2(14) == 0x4000 && Pow2(15) == 0x8000
  {
    assert Pow2(3) == 8 && Pow2(6) == 64 && Pow2(9) == 512 && Pow2(12) == 4096;
  }

  lemma {:induction false} BelowTop(k: nat)
    requires 1 <= k <= 15
    ensures Pow2(k - 1) <= 0x4000 && (k < 15 ==> Pow2(k - 1) <= 0x2000)
  {
    FirstWeight();
    Pow2Monotone(k - 1, 14);
    if k < 15 {
      Pow2Monotone(k - 1, 13);
    }
  }

  lemma {:induction false} WeightExact(k: nat, half: nat, weight: nat)
    requires 1 <= k <= 15 && half == Pow2(k - 1) && weight == Pow2(16 - k)
    ensures 0x8000 / half == weight
  {
    FirstWeight();
    Pow2Add(k - 1, 16 - k);
    Commuted(weight, half);
    DivExact(weight, half);
  }

  lemma {:induction false} Commuted(a: nat, b: nat)
    ensures a * b == b * a
  {
  }

  lemma {:induction false} Denominator(k: nat)
    requires 1 <= k <= 15
    ensures Pow2(k) == 2 * Pow2(k - 1) && 1 <= Pow2(k - 1) <= 0x4000
    ensures Pow2(k) >= 0x8000 <==> k == 15
    ensures 0x8000 / (Pow2(k) / 2) == Pow2(16 - k)
  {
    FirstWeight();
    BelowTop(k);
    WeightExact(k, Pow2(k - 1), Pow2(16 - k));
  }

  lemma {:induction false} DoubleProduct(a: nat, b: nat)
    ensures (2 * a) * b == 2 * (a * b)
  {
  }

  /** The weight added to the word is worth the quotient subtracted, to within one. */
  lemma {:induction false} WeightIsWorth(ref: nat, k: nat)
    requires 1 <= k <= 15
    ensures 0 <= Pow2(16 - k) * (2 * ref) - 0x1_0000 * Quot(ref, k) <= if k == 1 then 0 else 0x1_0000
  {
    if k == 1 {
      assert Pow2(3) == 8 && Pow2(6) == 64 && Pow2(9) == 512 && Pow2(12) == 4096 && Pow2(15) == 0x8000;
    } else {
      WeightIsWorth(ref, k - 1);
      assert Pow2(16 - (k - 1)) == 2 * Pow2(16 - k);
      DoubleProduct(Pow2(16 - k), 2 * ref);
    }
  }

  lemma {:induction false} QuotBounded(ref: nat, k: nat)
    requires k >= 1 && ref < 0x8000
    ensures Quot(ref, k) * Pow2(k) < 0x1_0000
  {
    if k == 1 {
      assert Pow2(1) == 2 * Pow2(0);
    } else {
      QuotBounded(ref, k - 1);
      var q, p := Quot(ref, k - 1), Pow2(k - 1);
      MulMonotone(2 * (q / 2), q, p);
      DoubleProduct(q / 2, p);
      assert (q / 2) * (2 * p) == 2 * ((q / 2) * p);
    }
  }

  lemma {:induction false} LastQuot(ref: nat)
    requires ref < 0x8000
    ensures Quot(ref, 15) <= 1
  {
    QuotBounded(ref, 15);
    assert Pow2(3) == 8 && Pow2(6) == 64 && Pow2(9) == 512 && Pow2(12) == 4096 && Pow2(15) == 0x8000;
  }

  // ----- how good the word is

  /** What holds of the loop's outcome from denominator 2^k on. */
  ghost predicate Outcome(v: nat, ref: nat, k: nat, o: Option<Sdm>)
    requires 1 <= k <= 15
  {
    o.Some? && o.value.left <= 15 && o.value.left <= v && o.value.rounds <= 16 - k &&
    o.value.word <= Pow2(17 - k) - 2 &&
    0 <= o.value.word * (2 * ref) - 0x1_0000 * (v - o.value.left) <= 0x1_0000 * (if k == 1 then 14 else 16 - k)
  }

  lemma {:induction false} Distribute(a: nat, b: nat, c: nat)
    ensures (a + b) * c == a * c + b * c
  {
  }

  lemma {:induction false} OutcomeStep(v: nat, ref: nat, k: nat, r: Sdm)
    requires 1 <= k < 15
    requires Outcome(if v > Quot(ref, k) then v - Quot(ref, k) else v, ref, k + 1, Some(r))
    ensures v > Quot(ref, k) ==> Outcome(v, ref, k, Some(Sdm(Pow2(16 - k) + r.word, r.left, r.rounds + 1)))
    ensures v <= Quot(ref, k) ==> Outcome(v, ref, k, Some(Sdm(r.word, r.left, r.rounds + 1)))
  {
    WeightIsWorth(ref, k);
    Distribute(Pow2(16 - k), r.word, 2 * ref);
    assert Pow2(17 - k) == 2 * Pow2(16 - k);
  }

  lemma {:induction false} OutcomeBase(v: nat, ref: nat, k: nat)
    requires 1 <= k <= 15 && v <= 1
    ensures Outcome(v, ref, k, Some(Sdm(0, v, 0)))
  {
    Pow2Monotone(1, 17 - k);
    assert Pow2(1) == 2 * Pow2(0);
  }

  lemma {:induction false} OutcomeLast(v: nat, ref: nat)
    requires ref < 0x8000 && 1 < v <= 2 * Quot(ref, 15) + 14
    ensures Outcome(v, ref, 15, SdmFrom(v, ref, 15))
  {
    LastQuot(ref);
    WeightIsWorth(ref, 15);
    assert Pow2(2) == 4 && Pow2(1) == 2;
  }

  lemma {:induction false} SdmUnfolds(v: nat, ref: nat, k: nat, r: Sdm)
    requires 1 <= k < 15 && v > 1
    requires SdmFrom(if v > Quot(ref, k) then v - Quot(ref, k) else v, ref, k + 1) == Some(r)
    ensures SdmFrom(v, ref, k)
         == Some(Sdm(if v > Quot(ref, k) then Pow2(16 - k) + r.word else r.word, r.left, r.rounds + 1))
  {
  }

  lemma {:induction false} OutcomeEarly(v: nat, ref: nat, k: nat)
    requires 1 <= k <= 15 && ref < 0x8000 && v <= 2 * Quot(ref, k) + (k - 1) && (v <= 1 || k == 15)
    ensures Outcome(v, ref, k, SdmFrom(v, ref, k))
  {
    hide Outcome, Quot;
    if v <= 1 {
      OutcomeBase(v, ref, k);
    } else {
      OutcomeLast(v, ref);
    }
  }

  lemma {:induction false} SdmInduction(v: nat, ref: nat, k: nat)
    requires 1 <= k <= 15 && ref < 0x8000 && v <= 2 * Quot(ref, k) + (k - 1)
    ensures Outcome(v, ref, k, SdmFrom(v, ref, k))
    decreases 15 - k
  {
    if v <= 1 || k == 15 {
      OutcomeEarly(v, ref, k);
    } else {
      var left := if v > Quot(ref, k) then v - Quot(ref, k) else v;
      SdmInduction(left, ref, k + 1);
      var r := SdmFrom(left, ref, k + 1).value;
      OutcomeStep(v, ref, k, r);
      SdmUnfolds(v, ref, k, r);
    }
  }

  /**
   For a reference below 32768 kHz the loop ends within 15 rounds without dividing
   by a denominator shifted out, the word fits 16 bits, and it stands for the
   fraction to within 16 kHz: word / 2^16 of twice the reference.
   */
  lemma {:induction false} SdmAccurate(v: nat, ref: nat)
    requires ref < 0x8000 && v <= 2 * ref
    ensures var o := SdmFrom(v, ref, 1);
            o.Some? && o.value.rounds <= 15 && o.value.word <= 65534 &&
            -15 * 0x1_0000 <= o.value.word * (2 * ref) - 0x1_0000 * v <= 15 * 0x1_0000
  {
    SdmInduction(v, ref, 1);
    assert Pow2(4) == 16 && Pow2(8) == 256 && Pow2(12) == 4096 && Pow2(16) == 0x1_0000;
  }

  lemma {:induction false} QuotLarge(ref: nat, k: nat)
    requires ref >= 0x8000 && 1 <= k <= 15
    ensures Quot(ref, k) >= Pow2(16 - k)
  {
    if k == 1 {
      assert Pow2(3) == 8 && Pow2(6) == 64 && Pow2(9) == 512 && Pow2(12) == 4096 && Pow2(15) == 0x8000;
    } else {
      QuotLarge(ref, k - 1);
      assert Pow2(16 - (k - 1)) == 2 * Pow2(16 - k);
    }
  }

  lemma {:induction false} SdmDiverges(ref: nat, k: nat)
    requires ref >= 0x8000 && 1 <= k <= 16
    ensures SdmFrom(2, ref, k) == None
    decreases 16 - k
  {
    if k < 16 {
      QuotLarge(ref, k);
      Pow2Monotone(1, 16 - k);
      assert Pow2(1) == 2 * Pow2(0);
      SdmDiverges(ref, k + 1);
    }
  }

  /** The loop ends properly, with a word no larger than the bound. */
  ghost predicate EndsWithin(o: Option<Sdm>, bound: int) {
    o.Some? && o.value.word <= bound
  }

  lemma {:induction false} EndsEarly(v: nat, ref: nat, k: nat, weight: nat)
    requires 1 <= k <= 15 && ref < 0x8000 && weight == Pow2(16 - k) && (v <= 1 || k == 15)
    ensures EndsWithin(SdmFrom(v, ref, k), 2 * weight - 2)
  {
    if v > 1 {
      LastQuot(ref);
      Powers();
    }
  }

  lemma {:induction false} EndsStep(v: nat, ref: nat, k: nat, r: Sdm, weight: nat)
    requires 1 <= k < 15 && v > 1 && weight == Pow2(16 - k) && r.word <= weight - 2
    requires SdmFrom(if v > Quot(ref, k) then v - Quot(ref, k) else v, ref, k + 1) == Some(r)
    ensures EndsWithin(SdmFrom(v, ref, k), 2 * weight - 2)
  {
    SdmUnfolds(v, ref, k, r);
  }

  lemma {:induction false} HalfWeight(p: nat, weight: nat) returns (half: nat)
    requires p > 0 && weight == Pow2(p)
    ensures half == Pow2(p - 1) && weight == 2 * half
  {
    half := Pow2(p - 1);
  }

  /** Below that reference the loop ends properly for every fraction, and the word never wraps. */
  lemma {:induction false} SdmEnds(v: nat, ref: nat, k: nat, weight: nat)
    requires 1 <= k <= 15 && ref < 0x8000 && weight == Pow2(16 - k)
    ensures EndsWithin(SdmFrom(v, ref, k), 2 * weight - 2)
    decreases 15 - k
  {
    if v <= 1 || k == 15 {
      EndsEarly(v, ref, k, weight);
    } else {
      var left := if v > Quot(ref, k) then v - Quot(ref, k) else v;
      var next := HalfWeight(16 - k, weight);
      SdmEnds(left, ref, k + 1, next);
      EndsStep(v, ref, k, SdmFrom(left, ref, k + 1).value, weight);
    }
  }

  /** No part of the fraction is ever used up to nothing, and only the last of 15 rounds leaves more than 1 kHz. */
  lemma {:induction false} SdmLeaves(v: nat, ref: nat, k: nat)
    requires 1 <= k <= 16 && v > 0 && SdmFrom(v, ref, k).Some?
    ensures var r := SdmFrom(v, ref, k).value; 1 <= r.left <= v && (r.left > 1 ==> r.rounds == 16 - k)
    decreases 16 - k
  {
    hide Quot, SdmFrom;
    if v > 1 && k < 15 {
      var left := if v > Quot(ref, k) then v - Quot(ref, k) else v;
      NextEnds(v, ref, k);
      SdmLeaves(left, ref, k + 1);
      SdmUnfolds(v, ref, k, SdmFrom(left, ref, k + 1).value);
    } else {
      LastLeaves(v, ref, k);
    }
  }

  lemma {:induction false} NextEnds(v: nat, ref: nat, k: nat)
    requires 1 <= k < 15 && v > 1 && SdmFrom(v, ref, k).Some?
    ensures SdmFrom(if v > Quot(ref, k) then v - Quot(ref, k) else v, ref, k + 1).Some?
  {
    hide Quot;
  }

  lemma {:induction false} LastLeaves(v: nat, ref: nat, k: nat)
    requires 1 <= k <= 16 && v > 0 && (v <= 1 || k >= 15) && SdmFrom(v, ref, k).Some?
    ensures var r := SdmFrom(v, ref, k).value; 1 <= r.left <= v && (r.left > 1 ==> r.rounds == 16 - k)
  {
    hide Quot;
    if v > 1 {
      assert SdmFrom(v, ref, 16) == None;
    }
  }

  /** The bound on the reference is exact: from 32768 kHz on, a fraction of 2 kHz divides by zero. */
  lemma {:induction false} SdmDefinedIff(ref: nat)
    ensures (forall v: nat :: SdmFrom(v, ref, 1).Some?) <==> ref < 0x8000
  {
    if ref < 0x8000 {
      forall v: nat
        ensures SdmFrom(v, ref, 1).Some?
      {
        FirstWeight();
        SdmEnds(v, ref, 1, 0x8000);
      }
    } else {
      SdmDiverges(ref, 1);
    }
  }

  /** The quotient compared with and subtracted in a round, and the weight added to the word. */
  method RoundParts(ref: nat, nSdm: nat, ghost k: nat) returns (quotient: nat, weight: nat)
    requires 1 <= k <= 15 && nSdm == Pow2(k)
    ensures quotient == Quot(ref, k) && weight == Pow2(16 - k)
  {
    Denominator(k);
    QuotIs(ref, k);
    quotient := 2 * ref / nSdm;
    weight := 0x8000 / (nSdm / 2);
  }

  lemma {:induction false} NextDenominator(k: nat)
    requires 1 <= k <= 15
    ensures WrapU16(2 * Pow2(k)) == if k == 15 then 0 else Pow2(k + 1)
    ensures Pow2(k) >= 0x8000 <==> k == 15
    ensures k == 15 ==> Pow2(16 - k) == Pow2(1)
  {
    Denominator(k);
    assert Pow2(3) == 8 && Pow2(6) == 64 && Pow2(9) == 512 && Pow2(12) == 4096 && Pow2(15) == 0x8000;
  }

  /** From denominator 2^k on the loop ends properly and adds `rest` to the word. */
  ghost predicate Adds(v: nat, ref: nat, k: nat, rest: nat) {
    1 <= k <= 16 && SdmFrom(v, ref, k).Some? && SdmFrom(v, ref, k).value.word == rest
  }

  lemma {:induction false} SdmDefined(v: nat, ref: nat) returns (rest: nat)
    requires ref < 0x8000
    ensures Adds(v, ref, 1, rest) && rest <= 65534
  {
    FirstWeight();
    SdmEnds(v, ref, 1, 0x8000);
    rest := SdmFrom(v, ref, 1).value.word;
  }

  /** One turn of the loop, all stores in their widths: fraction, word and denominator after it. */
  method Round(v: nat, ref: nat, nSdm: nat, sdm: uint16, ghost k: nat, ghost word: nat)
    returns (left: nat, sum: uint16, next: uint16, last: bool)
    requires v > 1 && k >= 1 && (k < 16 ==> nSdm == Pow2(k)) && sdm <= word <= 65534 && Adds(v, ref, k, word - sdm)
    ensures k < 16 && sum <= word && (k < 15 ==> next == Pow2(k + 1))
    ensures if last then sum == word else Adds(left, ref, k + 1, word - sum)
  {
    NextDenominator(k);
    var quotient, weight := RoundParts(ref, nSdm, k);
    left, sum, last := v, sdm, false;
    if v > quotient {
      sum := WrapU16(sdm + weight);
      left := v - quotient;
      last := nSdm >= 0x8000;
    }
    next := WrapU16(2 * nSdm);
  }

  /** The loop itself, in 16-bit arithmetic. */
  method SdmCalculator(fraction: uint32, ref: uint32) returns (sdm: uint16)
    requires ref < 0x8000
    ensures Adds(fraction, ref, 1, sdm)
  {
    ghost var word := SdmDefined(fraction, ref);
    var vcoFra: nat := fraction;
    var nSdm: nat := 2;
    ghost var k := 1;
    sdm := 0;
    assert Pow2(1) == 2 * Pow2(0);
    while vcoFra > 1
      invariant sdm <= word && Adds(vcoFra, ref, k, word - sdm) && (k < 16 ==> nSdm == Pow2(k))
      decreases 16 - k
    {
      var last;
      vcoFra, sdm, nSdm, last := Round(vcoFra, ref, nSdm, sdm, k, word);
      if last {
        return;
      }
      k := k + 1;
    }
    AddsNothing(vcoFra, ref, k, word - sdm);
  }

  lemma {:induction false} AddsNothing(v: nat, ref: nat, k: nat, rest: nat)
    requires Adds(v, ref, k, rest) && v <= 1
    ensures rest == 0
  {
  }

  // ----- the mixer divider and the integer part

  const VCO_MIN: uint32 := 1_770_000

  predicate InVcoRange(freqKhz: uint32, div: nat) {
    VCO_MIN <= WrapU32(freqKhz * div) < 2 * VCO_MIN
  }

  /** The first power of two from div on that brings the frequency into the VCO's octave, or 128. */
  function MixDivFrom(freqKhz: uint32, div: nat): nat
    decreases if div == 0 then 0 else 128 - div
  {
    if div == 0 || div > 64 || InVcoRange(freqKhz, div) then div else MixDivFrom(freqKhz, 2 * div)
  }

  lemma {:induction false} MixDivCases(f: uint32)
    ensures MixDivFrom(f, 2) ==
              if InVcoRange(f, 2) then 2 else if InVcoRange(f, 4) then 4 else if InVcoRange(f, 8) then 8
              else if InVcoRange(f, 16) then 16 else if InVcoRange(f, 32) then 32
              else if InVcoRange(f, 64) then 64 else 128
  {
    assert MixDivFrom(f, 2) == if InVcoRange(f, 2) then 2 else MixDivFrom(f, 4);
    assert MixDivFrom(f, 4) == if InVcoRange(f, 4) then 4 else MixDivFrom(f, 8);
    assert MixDivFrom(f, 8) == if InVcoRange(f, 8) then 8 else MixDivFrom(f, 16);
    assert MixDivFrom(f, 16) == if InVcoRange(f, 16) then 16 else MixDivFrom(f, 32);
    assert MixDivFrom(f, 32) == if InVcoRange(f, 32) then 32 else MixDivFrom(f, 64);
    assert MixDivFrom(f, 64) == if InVcoRange(f, 64) then 64 else 128;
  }

  /** From 27657 kHz up to 1770 MHz exactly one divider fits, and it is found. */
  lemma {:induction false} MixDivFound(freqKhz: uint32)
    requires 27_657 <= freqKhz < VCO_MIN
    ensures var d := MixDivFrom(freqKhz, 2);
            d in {2, 4, 8, 16, 32, 64} && InVcoRange(freqKhz, d) && freqKhz * d < 2 * VCO_MIN &&
            forall e | e in {2, 4, 8, 16, 32, 64} && e != d :: !InVcoRange(freqKhz, e)
  {
    MixDivCases(freqKhz);
  }

  function Khz(hz: uint32): uint32 {
    WrapU32(hz + 500) / 1000
  }

  /** An oscillator frequency that a mixer divider can bring into range. */
  predicate Reachable(freq: uint32) {
    27_656_500 <= freq < 1_769_999_500
  }

  /** The search finds a divider for exactly these, the only one that fits; for all others none does, and it ends
      with 128. */
  lemma {:induction false} DividerFoundIff(freq: uint32)
    ensures var d := MixDivFrom(Khz(freq), 2);
            d in {2, 4, 8, 16, 32, 64, 128} && (d <= 64 <==> Reachable(freq)) && (!Reachable(freq) ==> d == 128) &&
            forall e | e in {2, 4, 8, 16, 32, 64} :: InVcoRange(Khz(freq), e) <==> Reachable(freq) && e == d
    ensures Reachable(freq) ==> 27_657 <= Khz(freq) < VCO_MIN
  {
    assert Khz(freq) <= 4_294_967;
    MixDivCases(Khz(freq));
    if Reachable(freq) {
      MixDivFound(Khz(freq));
    }
  }

  /** The divider number that stands for a divider: its power of two, less one; 0 when none was found. */
  function DivNum(mixDiv: nat): (n: nat)
    ensures mixDiv in {2, 4, 8, 16, 32, 64} ==> Pow2(n + 1) == mixDiv
  {
    Powers();
    if mixDiv == 4 then 1 else if mixDiv == 8 then 2 else if mixDiv == 16 then 3
    else if mixDiv == 32 then 4 else if mixDiv == 64 then 5 else 0
  }

  lemma {:induction false} Powers()
    ensures Pow2(1) == 2 && Pow2(2) == 4 && Pow2(3) == 8 && Pow2(4) == 16 && Pow2(5) == 32 && Pow2(6) == 64
  {
    assert Pow2(3) == 2 * Pow2(2) == 4 * Pow2(1) == 8 * Pow2(0);
    assert Pow2(6) == 2 * Pow2(5) == 4 * Pow2(4) == 8 * Pow2(3);
  }

  /** ... corrected by one when the chip's fine-tune reading is off its reference. */
  function CorrectedDivNum(mixDiv: nat, vcoFineTune: nat, vcoPowerRef: nat): uint8 {
    if vcoFineTune > vcoPowerRef then WrapU8(DivNum(mixDiv) - 1)
    else if vcoFineTune < vcoPowerRef then WrapU8(DivNum(mixDiv) + 1)
    else WrapU8(DivNum(mixDiv))
  }

  method MixDivider(freqKhz: uint32) returns (mixDiv: nat, divNum: nat)
    ensures mixDiv == MixDivFrom(freqKhz, 2) && divNum == DivNum(mixDiv)
  {
    mixDiv, divNum := 2, 0;
    while mixDiv <= 64
      invariant mixDiv in {2, 4, 8, 16, 32, 64, 128} && divNum == 0
      invariant MixDivFrom(freqKhz, mixDiv) == MixDivFrom(freqKhz, 2)
      decreases 128 - mixDiv
    {
      if WrapU32(freqKhz * mixDiv) >= VCO_MIN && WrapU32(freqKhz * mixDiv) < 2 * VCO_MIN {
        divNum := CountHalvings(mixDiv);
        break;
      }
      mixDiv := 2 * mixDiv;
    }
  }

  method CountHalvings(mixDiv: nat) returns (divNum: nat)
    requires mixDiv in {2, 4, 8, 16, 32, 64}
    ensures divNum == DivNum(mixDiv)
  {
    divNum := 0;
    var divBuf := mixDiv;
    while divBuf > 2
      invariant divBuf in {2, 4, 8, 16, 32, 64} && divNum + DivNum(divBuf) == DivNum(mixDiv)
    {
      divBuf := divBuf / 2;
      divNum := divNum + 1;
    }
  }

  /** The words written for a frequency: the divider searched for, its number, and registers 0x14 and 0x15/0x16. */
  datatype Words = Words(mixDiv: nat, divNum: uint8, reg14: uint8, sdm: uint16)

  /** The integer part that register 0x14 encodes as ni + (si << 6). */
  function IntegerPart(reg14: uint8): nat {
    4 * (reg14 % 64) + reg14 / 64 + 13
  }

  lemma {:induction false} IntegerPartKept(nint: nat)
    requires 13 <= nint < 128
    ensures var ni := (nint - 13) / 4;
            var si := nint - 4 * ni - 13;
            0 <= ni + si * 64 < 256 && IntegerPart(ni + si * 64) == nint
  {
    var ni := (nint - 13) / 4;
    var si := nint - 4 * ni - 13;
    assert 0 <= si < 4 && 0 <= ni < 64;
    assert (ni + si * 64) % 64 == ni && (ni + si * 64) / 64 == si;
  }

  lemma {:induction false} ScaleBounds(d: int, s: nat)
    requires -500 <= d <= 499
    ensures -500 * s <= d * s <= 499 * s
  {
  }

  lemma {:induction false} XtalSplit(xtal: int, ref: int, d: int, s: int)
    requires xtal == 1000 * ref + d
    ensures 2 * xtal * s == 1000 * (s * (2 * ref)) + 2 * (d * s)
  {
  }

  /**
   The VCO frequency that the words select, 2 * xtal * (nint + sdm / 2^16), is within
   17 kHz of the one asked for (both sides times 2^16).
   */
  lemma {:induction false} SelectedVco(vcoFreq: nat, xtal: nat, ref: nat, nint: nat, fraction: nat, sdm: nat)
    requires 500 <= xtal && ref == (xtal + 500) / 1000 && ref < 0x8000 && sdm <= 65534
    requires nint == vcoFreq / (2 * xtal) && fraction == (vcoFreq - 2 * xtal * nint) / 1000
    requires -15 * 0x1_0000 <= sdm * (2 * ref) - 0x1_0000 * fraction <= 15 * 0x1_0000
    ensures Close(vcoFreq, xtal, nint, sdm)
  {
    FractionFits(vcoFreq, xtal, ref);
    var rem := vcoFreq - 2 * xtal * nint;
    var delta := xtal - 1000 * ref;
    ScaleBounds(delta, sdm);
    XtalSplit(xtal, ref, delta, sdm);
    Distribute3(2 * xtal, nint, sdm);
  }

  lemma {:induction false} Distribute3(a: int, b: int, c: int)
    ensures a * (b * 0x1_0000 + c) == 0x1_0000 * (a * b) + a * c
  {
  }

  lemma {:induction false} FractionFits(vcoFreq: nat, xtal: nat, ref: nat)
    requires 500 <= xtal && ref == (xtal + 500) / 1000
    ensures var nint := vcoFreq / (2 * xtal);
            0 <= vcoFreq - 2 * xtal * nint < 2 * xtal && (vcoFreq - 2 * xtal * nint) / 1000 <= 2 * ref
  {
    var q := Decompose(vcoFreq, 2 * xtal);
    assert q * (2 * xtal) == 2 * xtal * q;
    assert 2 * xtal - 1 <= 2000 * ref + 999;
  }

  /** An integer part and a word are close: 2 * xtal * (nint + sdm / 2^16) lies within 17 kHz of the oscillator
      asked for (both sides times 2^16). */
  ghost predicate Close(vco: nat, xtal: nat, nint: nat, sdm: nat) {
    -17_000 * 0x1_0000 < 2 * xtal * (nint * 0x1_0000 + sdm) - 0x1_0000 * vco < 17_000 * 0x1_0000
  }

  /** The words written select that oscillator. */
  ghost predicate Selects(w: Words, vco: nat, xtal: uint32) {
    Close(vco, xtal, IntegerPart(w.reg14), w.sdm)
  }

  lemma {:induction false} ScaledFrequency(freq: nat, khz: nat, d: nat)
    requires 1000 * khz <= freq + 500 && freq <= 1000 * khz + 499 && d <= 64
    ensures 1000 * (khz * d) <= freq * d + 32_000 && freq * d <= 1000 * (khz * d) + 32_000
  {
    MulMonotone(1000 * khz, freq + 500, d);
    MulMonotone(freq, 1000 * khz + 499, d);
    Distribute(freq, 500, d);
    Distribute(1000 * khz, 499, d);
    assert (1000 * khz) * d == 1000 * (khz * d);
  }

  lemma {:induction false} QuotientWithin(a: nat, b: nat, lo: nat, hi: nat)
    requires b > 0 && lo * b <= a < hi * b
    ensures lo <= a / b < hi
  {
    var q := Decompose(a, b);
    MulMonotone(hi, q, b);
    MulMonotone(q + 1, lo, b);
    Distribute(q, 1, b);
  }

  lemma {:induction false} VcoBounds(freq: uint32, xtal: uint32)
    requires Reachable(freq) && 15_000_000 <= xtal < 32_767_500
    ensures var vco := freq * MixDivFrom(Khz(freq), 2);
            1_769_000_000 <= vco < 3_540_100_000 && 13 <= vco / (2 * xtal) < 128
  {
    DividerFoundIff(freq);
    MixDivFound(Khz(freq));
    var d := MixDivFrom(Khz(freq), 2);
    ScaledFrequency(freq, Khz(freq), d);
    QuotientWithin(freq * d, 2 * xtal, 13, 128);
  }

  /** The oscillator asked for. */
  function VcoFreq(freq: uint32): nat {
    freq * MixDivFrom(Khz(freq), 2)
  }

  /** Its integer part in units of twice the crystal, before it is cut to 8 bits. */
  function Nint(vco: nat, xtal: uint32): nat
    requires xtal > 0
  {
    vco / (2 * xtal)
  }

  /** Register 0x14 for an integer part, in the widths of the source. */
  function Reg14(nint: uint8): uint8 {
    var ni: int := WrapU8(TruncDiv(nint - 13, 4));
    WrapU8(ni + WrapU8(nint - 4 * ni - 13) * 64)
  }

  lemma {:induction false} Reg14Keeps(nint: nat)
    requires 13 <= nint < 128
    ensures IntegerPart(Reg14(nint)) == nint
  {
    IntegerPartKept(nint);
  }

  /** An integer part below 13 is not kept: in the widths of the source the register then stands for 4 more, or for
      259 more below 10. */
  lemma {:induction false} SmallIntegerWraps(nint: nat)
    requires nint < 13
    ensures IntegerPart(Reg14(nint)) == nint + if nint >= 10 then 4 else 259
  {
    hide IntegerPart;
    var q, r := (13 - nint) / 4, (13 - nint) % 4;
    assert TruncDiv(nint - 13, 4) == -q;
    WrappedRegister(q, r);
  }

  lemma {:induction false} LowByte(m: int, y: int)
    requires 0 <= y < 256
    ensures WrapU8(256 * m + y) == y
  {
  }

  lemma {:induction false} FieldsOf(high: nat, low: nat)
    requires high < 4 && low < 64
    ensures IntegerPart(64 * high + low) == 4 * low + high + 13
  {
  }

  lemma {:induction false} WrappedRegister(q: int, r: int)
    requires 0 <= q <= 3 && 0 <= r < 4 && 0 < 4 * q + r <= 13
    ensures var nint: int, ni: int := 13 - 4 * q - r, WrapU8(-q);
            IntegerPart(WrapU8(ni + WrapU8(nint - 4 * ni - 13) * 64)) == nint + if nint >= 10 then 4 else 259
  {
    hide IntegerPart, WrapU8;
    var nint := 13 - 4 * q - r;
    var ni := if q == 0 then 0 else 256 - q;
    var si := if r == 0 then 0 else 256 - r;
    var high, low := if r == 0 then 0 else 4 - r, if q == 0 then 0 else 64 - q;
    if q == 0 {
      LowByte(0, 0);
    } else {
      LowByte(-1, 256 - q);
    }
    if r == 0 {
      LowByte(if q == 0 then 0 else -4, 0);
    } else {
      LowByte(if q == 0 then -1 else -5, 256 - r);
    }
    assert WrapU8(-q) == ni && WrapU8(nint - 4 * ni - 13) == si;
    if r == 0 {
      LowByte(0, ni);
      FieldsOf(if q == 0 then 0 else 3, low);
    } else if q == 0 {
      LowByte(63, 64 * high);
      FieldsOf(high, low);
    } else {
      LowByte(64, 64 * high - q);
      FieldsOf(high - 1, low);
    }
  }

  /** The arithmetic of r82xx_set_pll between its register accesses, for every frequency. */
  method PllWords(freq: uint32, xtal: uint32, vcoPowerRef: nat, vcoFineTune: nat) returns (w: Option<Words>)
    requires (vcoPowerRef == 1 || vcoPowerRef == 2) && vcoFineTune <= 3 && 0 < xtal < 32_767_500
    ensures w.None? <==> Nint(VcoFreq(freq), xtal) % 256 > 128 / vcoPowerRef - 1
    ensures w.Some? ==> w.value.mixDiv == MixDivFrom(Khz(freq), 2) &&
                        w.value.reg14 == Reg14(Nint(VcoFreq(freq), xtal) % 256) &&
                        w.value.divNum == CorrectedDivNum(w.value.mixDiv, vcoFineTune, vcoPowerRef)
    ensures w.Some? && Encodable(VcoFreq(freq), xtal, Nint(VcoFreq(freq), xtal)) ==>
            Selects(w.value, VcoFreq(freq), xtal)
    ensures w.Some? && Reachable(freq) && 15_000_000 <= xtal ==> Selects(w.value, VcoFreq(freq), xtal)
  {
    var mixDiv, divNum := MixDivider(Khz(freq));
    var number: uint8 := CorrectedNumber(mixDiv, divNum, vcoFineTune, vcoPowerRef);
    var vcoFreq := freq * mixDiv;
    assert vcoFreq == VcoFreq(freq);
    var r := FrequencyWords(vcoFreq, xtal, Nint(vcoFreq, xtal), 128 / vcoPowerRef - 1);
    if r.None? {
      return None;
    }
    w := Some(Words(mixDiv, number, r.value.0, r.value.1));
    if Reachable(freq) && 15_000_000 <= xtal {
      ReachableEncodable(freq, xtal);
    }
  }

  lemma {:induction false} ReachableEncodable(freq: uint32, xtal: uint32)
    requires Reachable(freq) && 15_000_000 <= xtal < 32_767_500
    ensures Encodable(VcoFreq(freq), xtal, Nint(VcoFreq(freq), xtal))
  {
    VcoBounds(freq, xtal);
  }

  method CorrectedNumber(mixDiv: nat, divNum: nat, vcoFineTune: nat, vcoPowerRef: nat) returns (number: uint8)
    requires divNum == DivNum(mixDiv)
    ensures number == CorrectedDivNum(mixDiv, vcoFineTune, vcoPowerRef)
  {
    number := WrapU8(divNum);
    if vcoFineTune > vcoPowerRef {
      number := WrapU8(divNum - 1);
    } else if vcoFineTune < vcoPowerRef {
      number := WrapU8(divNum + 1);
    }
  }

  /** The chip can be given this oscillator: its integer part fits the register, and no product wraps. */
  predicate Encodable(vco: nat, xtal: uint32, nint: nat) {
    500 <= xtal && 13 <= nint < 128 && vco < 0x1_0000_0000
  }

  lemma {:induction false} ReferenceKhz(xtal: uint32)
    requires xtal < 32_767_500
    ensures Khz(xtal) == (xtal + 500) / 1000 < 0x8000
  {
  }

  lemma {:induction false} WordsSelect(vco: nat, xtal: uint32, fraction: nat, sdm: uint16, nint: nat)
    requires xtal < 32_767_500 && Encodable(vco, xtal, nint) && nint == Nint(vco, xtal)
    requires fraction == (vco - 2 * xtal * nint) / 1000 && Adds(fraction, Khz(xtal), 1, sdm)
    ensures Close(vco, xtal, IntegerPart(Reg14(nint)), sdm)
  {
    ReferenceKhz(xtal);
    FractionFits(vco, xtal, Khz(xtal));
    SdmAccurate(fraction, Khz(xtal));
    SelectedVco(vco, xtal, Khz(xtal), nint, fraction, sdm);
    Reg14Keeps(nint);
  }

  /** Registers 0x14 and 0x15/0x16 for an oscillator frequency, or None for too large an integer part. */
  method FrequencyWords(vcoFreq: nat, xtal: uint32, full: nat, most: nat) returns (w: Option<(uint8, uint16)>)
    requires 0 < xtal < 32_767_500 && full == Nint(vcoFreq, xtal)
    ensures w.None? <==> full % 256 > most
    ensures w.Some? ==> w.value.0 == Reg14(full % 256)
    ensures w.Some? && Encodable(vcoFreq, xtal, full) ==> Close(vcoFreq, xtal, IntegerPart(w.value.0), w.value.1)
  {
    hide Adds, Close, IntegerPart, Reg14;
    ReferenceKhz(xtal);
    var nint: uint8 := full % 256;
    var vcoFra := Fraction(vcoFreq, xtal, full);
    if nint > most {
      return None;
    }
    var reg14 := SplitInteger(nint);
    var sdm := SdmCalculator(vcoFra, Khz(xtal));
    if Encodable(vcoFreq, xtal, full) {
      assert nint == full;
      WordsSelect(vcoFreq, xtal, vcoFra, sdm, full);
    }
    return Some((reg14, sdm));
  }

  method SplitInteger(nint: uint8) returns (reg14: uint8)
    ensures reg14 == Reg14(nint)
  {
    var ni: uint8 := WrapU8(TruncDiv(nint - 13, 4));
    var si: uint8 := WrapU8(nint - 4 * ni - 13);
    reg14 := WrapU8(ni + si * 64);
  }

  lemma {:induction false} WholePart(vcoFreq: nat, twice: nat, nint: nat, full: nat)
    requires twice > 0 && full == vcoFreq / twice && nint <= full
    ensures nint * twice == twice * nint <= vcoFreq
  {
    var q := Decompose(vcoFreq, twice);
    MulMonotone(nint, q, twice);
  }

  /** The oscillator's fraction in kHz; the product with the integer part, cut to 8 bits, wraps in 32 bits. */
  method Fraction(vcoFreq: nat, xtal: uint32, full: nat) returns (vcoFra: uint32)
    requires 0 < xtal && full == Nint(vcoFreq, xtal)
    ensures Encodable(vcoFreq, xtal, full) ==> vcoFra == (vcoFreq - 2 * xtal * full) / 1000
  {
    var nint: uint8 := full % 256;
    var twice: nat := 2 * xtal;
    var whole: nat := nint * twice;
    WholePart(vcoFreq, twice, nint, full);
    vcoFra := WrapU32((vcoFreq - WrapU32(whole)) / 1000);
  }

  /** A frequency that r82xx_set_pll divides by zero for, with a crystal of 32768 kHz. */
  lemma {:induction false} SlowestFailure()
    ensures var vco, xtal := VcoFreq(983_041_000), 32_768_000;
            Nint(vco, xtal) == 30 && (vco - 2 * xtal * 30) / 1000 == 2 && SdmFrom(2, Khz(xtal), 1) == None
  {
    hide SdmFrom;
    MixDivCases(Khz(983_041_000));
    SdmDiverges(Khz(32_768_000), 1);
  }

  // ----- the divider number in the chip

  /** The three bits of register 0x10 that take the corrected divider number. */
  function DividerField(mixDiv: nat, vcoFineTune: nat, vcoPowerRef: nat): nat {
    CorrectedDivNum(mixDiv, vcoFineTune, vcoPowerRef) % 8
  }

  lemma {:induction false} LowestNumberIff(freq: uint32)
    ensures DivNum(MixDivFrom(Khz(freq), 2)) == 0 <==> !(27_656_500 <= freq < 884_999_500)
  {
    assert Khz(freq) <= 4_294_967;
    MixDivCases(Khz(freq));
  }

  /** The field underflows to 7 exactly when the reading is above its reference and no divider above 2 was found;
      otherwise it stands for the divider found, for half of it when the reading is high, for twice when it is low. */
  lemma {:induction false} DividerFieldIff(freq: uint32, vcoFineTune: nat, vcoPowerRef: nat)
    requires vcoFineTune <= 3
    ensures var d := MixDivFrom(Khz(freq), 2);
            var field := DividerField(d, vcoFineTune, vcoPowerRef);
            (field == 7 <==> vcoFineTune > vcoPowerRef && !(27_656_500 <= freq < 884_999_500)) &&
            (field != 7 && Reachable(freq) ==>
               Pow2(field + 1) == (if vcoFineTune > vcoPowerRef then d / 2
                                   else if vcoFineTune < vcoPowerRef then 2 * d else d))
  {
    hide MixDivFrom, Khz, InVcoRange;
    DividerFoundIff(freq);
    LowestNumberIff(freq);
    Powers();
    assert Pow2(7) == 2 * Pow2(6);
  }
}

/** Which tunes of the tuning state machine the PLL can serve. */
module TunerReach {
  import opened CInts
  import opened R82xxPll
  import opened Tuning

  /** A tune in tuner mode finds a mixer divider exactly when its oscillator frequency is reachable. */
  lemma {:induction false} TuneServedIff(d: Dongle, f: uint32, intFreq: uint32)
    ensures MixDivFrom(Khz(d.LoFor(f, intFreq)), 2) <= 64 <==> 27_656_500 <= d.LoFor(f, intFreq) < 1_769_999_500
  {
    DividerFoundIff(d.LoFor(f, intFreq));
  }

  /** At the default intermediate frequency, automatic mode gives the tuner of a plain R820T the frequencies from
      24 MHz on, of which the first 86.5 kHz and those from 1766.4295 MHz on are not served. */
  lemma {:induction false} AutomaticTunesServedIff(d: Dongle, f: uint32)
    requires d.chip == R820T && !d.isV4 && !d.isV4L && d.AutoMode(f) == 0 && f < 0xf000_0000
    ensures f >= 24_000_000
    ensures MixDivFrom(Khz(d.LoFor(f, R82XX_IF_FREQ)), 2) <= 64 <==> 24_086_500 <= f < 1_766_429_500
  {
    DividerFoundIff(d.LoFor(f, R82XX_IF_FREQ));
  }

  /** 24 MHz itself: no divider fits 27.57 MHz, and the PLL is set up with the number for a divider of 2 and an
      oscillator within 17 kHz of 128 times that frequency. */
  lemma {:induction false} LowestTuneNotServed(d: Dongle)
    requires d.chip == R820T && !d.isV4 && !d.isV4L
    ensures d.AutoMode(24_000_000) == 0 && d.LoFor(24_000_000, R82XX_IF_FREQ) == 27_570_000
    ensures MixDivFrom(Khz(27_570_000), 2) == 128 && DivNum(128) == 0 &&
            13 <= Nint(VcoFreq(27_570_000), 28_800_000) < 64
  {
    DividerFoundIff(27_570_000);
  }
}
