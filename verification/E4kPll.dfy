/** The PLL solver of the E4000 driver. */
module E4kPll {
  import opened CInts
  import opened DivMod

  const PLL_Y := 65536
  const FOSC_MIN := 16_000_000
  const FOSC_MAX := 30_000_000
  const EINVAL := 22

  datatype Setting = Setting(freq: nat, regSynth7: nat, mult: nat)

  const PLL_VARS: seq<Setting> := [
    Setting(72_400_000, 15, 48), Setting(81_200_000, 14, 40), Setting(108_300_000, 13, 32),
    Setting(162_500_000, 12, 24), Setting(216_600_000, 11, 16), Setting(325_000_000, 10, 12),
    Setting(350_000_000, 9, 8), Setting(432_000_000, 3, 8), Setting(667_000_000, 2, 6),
    Setting(1_200_000_000, 1, 4)]

  /** The first row whose limit lies above the frequency; no row from 1.2 GHz on. */
  predicate IsRow(i: nat, flo: nat) {
    i <= |PLL_VARS| && (i < |PLL_VARS| ==> flo < PLL_VARS[i].freq) && forall k :: 0 <= k < i ==> flo >= PLL_VARS[k].freq
  }

  function Row(flo: nat): (i: nat)
    ensures IsRow(i, flo)
  {
    if flo < 72_400_000 then 0 else if flo < 81_200_000 then 1 else if flo < 108_300_000 then 2
    else if flo < 162_500_000 then 3 else if flo < 216_600_000 then 4 else if flo < 325_000_000 then 5
    else if flo < 350_000_000 then 6 else if flo < 432_000_000 then 7 else if flo < 667_000_000 then 8
    else if flo < 1_200_000_000 then 9 else 10
  }

  function Mult(flo: nat): (r: nat)
    ensures 2 <= r <= 48
  {
    if Row(flo) < |PLL_VARS| then PLL_VARS[Row(flo)].mult else 2
  }

  /** Three-phase mixing (bit 3 of the synthesizer word) is chosen exactly below 350 MHz. */
  predicate ThreePhase(flo: nat) {
    flo < 350_000_000
  }

  /** From 54.2 MHz to 2.2 GHz the chosen multiplier puts the oscillator between 2.4 and 4.8 GHz. */
  lemma {:induction false} OscillatorRange(flo: nat)
    requires 54_200_000 <= flo <= 2_200_000_000
    ensures 2_400_000_000 <= flo * Mult(flo) <= 4_800_000_000
  {
  }

  // ----- the two words

  function Z(fosc: nat, fvco: nat): nat
    requires fosc > 0
  {
    fvco / fosc
  }

  function X(fosc: nat, fvco: nat): nat
    requires fosc > 0
  {
    (fvco % fosc) * PLL_Y / fosc
  }

  /** compute_fvco for a given pair of words. */
  function Fvco(fosc: nat, z: nat, x: nat): nat {
    fosc * z + fosc * x / PLL_Y
  }

  /** compute_flo: an oscillator of 0 Hz reads as the error -EINVAL in 32 bits. */
  function Flo(fosc: nat, z: nat, x: nat, r: nat): uint32
    requires r > 0
  {
    if Fvco(fosc, z, x) == 0 then WrapU32(-EINVAL) else WrapU32(Fvco(fosc, z, x) / r)
  }

  lemma {:induction false} WordEquation(fosc: nat, fvco: nat) returns (z: nat, x: nat, rem: nat, t: nat)
    requires fosc > 0
    ensures z == Z(fosc, fvco) && x == X(fosc, fvco)
    ensures fvco == z * fosc + rem && rem == fvco % fosc < fosc
    ensures rem * PLL_Y == x * fosc + t && t < fosc && x < PLL_Y
  {
    z := Decompose(fvco, fosc);
    rem := fvco % fosc;
    x := Decompose(rem * PLL_Y, fosc);
    t := (rem * PLL_Y) % fosc;
    if x >= PLL_Y {
      MulMonotone(PLL_Y, x, fosc);
      assert false;
    }
  }

  /** X is a 16-bit word, and the pair is the largest whose exact oscillator Fosc * (Z + X / 65536) does not
      exceed the intended one. */
  lemma {:induction false} LargestPair(fosc: nat, fvco: nat, z: nat, x: nat)
    requires fosc > 0 && x < PLL_Y
    ensures X(fosc, fvco) < PLL_Y
    ensures fosc * (PLL_Y * z + x) <= PLL_Y * fvco <==>
              (z < Z(fosc, fvco) || (z == Z(fosc, fvco) && x <= X(fosc, fvco)))
  {
    var bz, bx, rem, t := WordEquation(fosc, fvco);
    var best: nat := PLL_Y * bz + bx;
    var pair: nat := PLL_Y * z + x;
    assert fosc * best == PLL_Y * fvco - t by {
      Distribute(fosc, bz, bx);
    }
    assert (best + 1) * fosc == fosc * best + fosc;
    if pair <= best {
      MulMonotone(pair, best, fosc);
    } else {
      MulMonotone(best + 1, pair, fosc);
    }
  }

  lemma {:induction false} AtLeastOnce(a: nat, n: nat)
    requires n >= 1
    ensures a <= a * n && a * n == n * a
  {
    MulMonotone(1, n, a);
  }

  lemma {:induction false} BelowMultiple(z: nat, n: nat, fosc: nat, rem: nat)
    requires rem < fosc
    ensures z * fosc + rem >= n * fosc <==> z >= n
  {
    if z < n {
      MulMonotone(z + 1, n, fosc);
    } else {
      MulMonotone(n, z, fosc);
    }
  }

  lemma {:induction false} Distribute(fosc: nat, z: nat, x: nat)
    ensures fosc * (PLL_Y * z + x) == PLL_Y * (z * fosc) + x * fosc
  {
    assert fosc * (PLL_Y * z) == PLL_Y * (z * fosc);
  }

  /** The integer arithmetic loses at most one step of the fraction: Fosc / 65536, rounded up. */
  lemma {:induction false} RoundedPart(part: nat, t: nat, rem: nat, fosc: nat)
    requires rem * PLL_Y == part + t && t < fosc
    ensures part / PLL_Y <= rem <= part / PLL_Y + fosc / PLL_Y + 1
  {
  }

  lemma {:induction false} FvcoClose(fosc: nat, fvco: nat)
    requires fosc > 0
    ensures Fvco(fosc, Z(fosc, fvco), X(fosc, fvco)) <= fvco
    ensures fvco - Fvco(fosc, Z(fosc, fvco), X(fosc, fvco)) <= fosc / PLL_Y + 1
  {
    var z, x, rem, t := WordEquation(fosc, fvco);
    hide X, Z;
    assert fosc * x == rem * PLL_Y - t && fosc * z == z * fosc;
    RoundedPart(fosc * x, t, rem, fosc);
  }

  /** The computed frequency is the exact one of the two words, cut to whole hertz. */
  lemma {:induction false} FvcoFloors(fosc: nat, z: nat, x: nat)
    ensures var exact := fosc * (65536 * z + x); 65536 * Fvco(fosc, z, x) <= exact < 65536 * (Fvco(fosc, z, x) + 1)
  {
    Distribute(fosc, z, x);
    CutParts(fosc * z, fosc * x);
    assert fosc * z == z * fosc && fosc * x == x * fosc;
  }

  lemma {:induction false} CutParts(whole: nat, part: nat)
    ensures 65536 * (whole + part / PLL_Y) <= 65536 * whole + part < 65536 * (whole + part / PLL_Y + 1)
  {
  }

  /** The oscillator comes out as 0 Hz exactly when not even the smallest fraction fits. */
  lemma {:induction false} ZeroIff(fosc: nat, fvco: nat)
    requires fosc >= PLL_Y
    ensures Fvco(fosc, Z(fosc, fvco), X(fosc, fvco)) == 0 <==> fvco * PLL_Y < fosc
  {
    var z, x, rem, t := WordEquation(fosc, fvco);
    ZeroFvco(fosc, z, x);
    BelowMultiple(z, 1, fosc, rem);
    BelowMultiple(x, 1, fosc, t);
  }

  lemma {:induction false} ZeroFvco(fosc: nat, z: nat, x: nat)
    requires fosc >= PLL_Y
    ensures Fvco(fosc, z, x) == 0 <==> z == 0 && x == 0
  {
    if z > 0 {
      AtLeastOnce(fosc, z);
    } else if x > 0 {
      AtLeastOnce(fosc, x);
    }
  }

  /** Without an error and without wrap, the result is the divided oscillator. */
  lemma {:induction false} FloIs(fosc: nat, z: nat, x: nat, r: nat, got: nat)
    requires r > 0 && got == Fvco(fosc, z, x) && got > 0 && got / r < 0x1_0000_0000
    ensures Flo(fosc, z, x, r) == got / r
  {
  }

  /** flo meets the request: not above it, and the error, times the multiplier, is one step of the
      fraction plus the rounding of the division. */
  predicate Meets(fosc: nat, r: nat, intended: nat, flo: nat) {
    flo <= intended && r * (intended - flo) <= fosc / PLL_Y + r
  }

  lemma {:induction false} MeetsPerHertz(fosc: nat, r: nat, intended: nat, flo: nat)
    requires r > 0 && Meets(fosc, r, intended, flo)
    ensures intended - flo <= (fosc / PLL_Y + 1) / r + 1
  {
    var e: nat := fosc / PLL_Y + 1;
    var q := Decompose(e, r);
    var d: nat := intended - flo;
    assert (q + 2) * r == q * r + 2 * r;
    assert d * r == r * d;
    if d >= q + 2 {
      MulMonotone(q + 2, d, r);
    }
  }

  lemma {:induction false} CloseMeets(fosc: nat, r: nat, intended: nat, fvco: nat, got: nat)
    requires r > 0 && fvco == intended * r && got <= fvco && fvco - got <= fosc / PLL_Y + 1
    ensures got / r <= intended && Meets(fosc, r, intended, got / r)
  {
    var q := Decompose(got, r);
    MulMonotone(intended + 1, q, r);
    assert r * (intended - q) == intended * r - q * r;
  }

  /** What the solver returns for the multiplier r: Z is stored in 8 bits. */
  function SolvedWith(fosc: nat, fvco: nat, r: nat): uint32
    requires fosc > 0 && r > 0
  {
    Flo(fosc, Z(fosc, fvco) % 256, X(fosc, fvco), r)
  }

  function Solved(fosc: nat, intended: nat): uint32
    requires fosc > 0
  {
    SolvedWith(fosc, intended * Mult(intended), Mult(intended))
  }

  lemma {:induction false} FittingWords(fosc: nat, fvco: nat) returns (got: nat)
    requires fosc >= PLL_Y && fosc <= fvco * PLL_Y && fvco < 256 * fosc
    ensures got == Fvco(fosc, Z(fosc, fvco) % 256, X(fosc, fvco)) && 0 < got <= fvco && fvco - got <= fosc / PLL_Y + 1
  {
    var z, x, rem, t := WordEquation(fosc, fvco);
    BelowMultiple(z, 256, fosc, rem);
    assert z % 256 == z;
    got := Fvco(fosc, z, x);
    FvcoClose(fosc, fvco);
    ZeroIff(fosc, fvco);
  }

  lemma {:induction false} SolvedMeets(fosc: nat, intended: uint32, r: nat, fvco: nat)
    requires FOSC_MIN <= fosc <= FOSC_MAX && r > 0 && fvco == intended * r
    requires fosc <= fvco * PLL_Y && fvco < 256 * fosc
    ensures Meets(fosc, r, intended, SolvedWith(fosc, fvco, r))
  {
    var got := FittingWords(fosc, fvco);
    CloseMeets(fosc, r, intended, fvco, got);
    FloIs(fosc, Z(fosc, fvco) % 256, X(fosc, fvco), r, got);
  }

  /** A Z beyond 255 is cut to 8 bits, which takes whole multiples of 256 * Fosc off the oscillator. */
  lemma {:induction false} TruncatedFvco(fosc: nat, fvco: nat) returns (k: nat, low: nat, x: nat, rem: nat)
    requires fosc > 0 && fvco >= 256 * fosc
    ensures low == Z(fosc, fvco) % 256 && x == X(fosc, fvco) < PLL_Y && k >= 1
    ensures fvco == fosc * (256 * k) + fosc * low + rem && rem * PLL_Y - x * fosc < fosc
    ensures Fvco(fosc, low, x) + 256 * fosc <= fvco
  {
    var z, t;
    z, x, rem, t := WordEquation(fosc, fvco);
    BelowMultiple(z, 256, fosc, rem);
    k, low := z / 256, z % 256;
    assert z == 256 * k + low;
    SplitProduct(fosc, z, k, low);
    FvcoClose(fosc, fvco);
  }

  lemma {:induction false} SplitProduct(fosc: nat, z: nat, k: nat, low: nat)
    requires z == 256 * k + low && k >= 1
    ensures z * fosc == fosc * z == fosc * (256 * k) + fosc * low && fosc * (256 * k) >= 256 * fosc
  {
    MulMonotone(256, 256 * k, fosc);
    assert fosc * (256 * k) == (256 * k) * fosc;
  }

  lemma {:induction false} TruncatedMisses(fosc: nat, intended: uint32, r: nat, fvco: nat)
    requires FOSC_MIN <= fosc <= FOSC_MAX && 0 < r <= 48 && fvco == intended * r && fvco >= 256 * fosc
    requires intended >= 1_200_000_000 ==> r == 2
    ensures !Meets(fosc, r, intended, SolvedWith(fosc, fvco, r))
  {
    var k, low, x, rem := TruncatedFvco(fosc, fvco);
    var got := Fvco(fosc, low, x);
    if got == 0 {
      ZeroCannotPass(fosc, intended, r, k, rem, low, x);
    } else {
      var q := Decompose(got, r);
      FarBelow(r, intended, q, got, fosc);
      FloIs(fosc, low, x, r, got);
    }
  }

  lemma {:induction false} FarBelow(r: nat, intended: nat, q: nat, got: nat, fosc: nat)
    requires FOSC_MIN <= fosc && 0 < r <= 48 && q * r <= got && got + 256 * fosc <= intended * r
    ensures !Meets(fosc, r, intended, q)
    ensures q <= intended
  {
    if q > intended {
      MulMonotone(intended + 1, q, r);
      assert false;
    }
    assert r * (intended - q) == intended * r - q * r;
  }

  /** The error code itself never lands within reach of an intended frequency. */
  lemma {:induction false} ZeroCannotPass(fosc: nat, intended: uint32, r: nat, k: nat, rem: nat, low: nat, x: nat)
    requires FOSC_MIN <= fosc <= FOSC_MAX && k >= 1 && x < PLL_Y
    requires intended * r == fosc * (256 * k) + fosc * low + rem && Fvco(fosc, low, x) == 0
    requires intended >= 1_200_000_000 ==> r == 2
    requires rem * PLL_Y - x * fosc < fosc
    ensures intended < WrapU32(-EINVAL)
  {
    ZeroFvco(fosc, low, x);
    if intended >= 0x1_0000_0000 - EINVAL {
      assert rem < 458;
      var m: nat := fosc * k;
      assert fosc * (256 * k) == 256 * m;
      assert 2 * intended == 256 * m + rem;
      assert m == 33_554_431;
      OddMultiple(fosc, k);
    }
  }

  lemma {:induction false} OddMultiple(fosc: nat, k: nat)
    requires FOSC_MIN <= fosc <= FOSC_MAX && k >= 1
    ensures fosc * k != 33_554_431
  {
    if k >= 3 {
      MulMonotone(3, k, fosc);
      assert fosc * k >= 3 * fosc;
    }
  }

  lemma {:induction false} ZeroMisses(fosc: nat, intended: uint32, r: nat, fvco: nat)
    requires FOSC_MIN <= fosc <= FOSC_MAX && r > 0 && fvco == intended * r && fvco * PLL_Y < fosc
    ensures SolvedWith(fosc, fvco, r) == WrapU32(-EINVAL)
    ensures !Meets(fosc, r, intended, SolvedWith(fosc, fvco, r))
  {
    var z, x, rem, t := WordEquation(fosc, fvco);
    ZeroIff(fosc, fvco);
    ZeroFvco(fosc, z, x);
    AtLeastOnce(intended, r);
  }

  /** The result is as close as promised exactly when Z fits its 8 bits and the fraction is not lost. */
  lemma {:induction false} SolvedMeetsIff(fosc: nat, intended: uint32)
    requires FOSC_MIN <= fosc <= FOSC_MAX
    ensures Meets(fosc, Mult(intended), intended, Solved(fosc, intended)) <==>
              fosc <= intended * Mult(intended) * PLL_Y && intended * Mult(intended) < 256 * fosc
  {
    var r := Mult(intended);
    var fvco: nat := intended * r;
    if fvco * PLL_Y < fosc {
      ZeroMisses(fosc, intended, r, fvco);
    } else if fvco >= 256 * fosc {
      TruncatedMisses(fosc, intended, r, fvco);
    } else {
      SolvedMeets(fosc, intended, r, fvco);
    }
  }

  /** With a crystal of 18.75 MHz or more, Z always fits over the tuning range of the chip ... */
  lemma {:induction false} ZFitsTuningRange(fosc: nat, flo: nat)
    requires 18_750_001 <= fosc && flo <= 2_200_000_000
    ensures flo * Mult(flo) < 256 * fosc
  {
    if flo >= 54_200_000 {
      OscillatorRange(flo);
    } else {
      assert Mult(flo) == 48;
    }
  }

  /** ... but not with the slowest crystal the driver accepts. */
  lemma {:induction false} SlowCrystalFails()
    ensures !Meets(16_000_000, 4, 1_100_000_000, Solved(16_000_000, 1_100_000_000))
  {
    assert Mult(1_100_000_000) == 4;
    SolvedMeetsIff(16_000_000, 1_100_000_000);
  }

  // ----- the solver itself

  class Params {
    var fosc: uint32
    var intendedFlo: uint32
    var flo: uint32
    var x: uint16
    var z: uint8
    var r: uint8
    var rIdx: uint8
    var threephase: bool
  }

  /** e4k_compute_pll_params. */
  method ComputePllParams(oscp: Params, fosc: uint32, intendedFlo: uint32) returns (rc: uint32)
    modifies oscp
    ensures !(16_000_000 <= fosc <= 30_000_000) ==>
      rc == 0 && oscp.rIdx == 0 && oscp.r == old(oscp.r) && oscp.threephase == old(oscp.threephase) &&
      oscp.fosc == old(oscp.fosc) && oscp.intendedFlo == old(oscp.intendedFlo) && oscp.flo == old(oscp.flo) &&
      oscp.x == old(oscp.x) && oscp.z == old(oscp.z)
    ensures 16_000_000 <= fosc <= 30_000_000 ==>
      rc == Solved(fosc, intendedFlo) == oscp.flo && oscp.fosc == fosc && oscp.intendedFlo == intendedFlo &&
      oscp.r == Mult(intendedFlo) && oscp.threephase == ThreePhase(intendedFlo) &&
      oscp.rIdx == RegSynth7(intendedFlo) &&
      oscp.z == Z(fosc, intendedFlo * Mult(intendedFlo)) % 256 && oscp.x == X(fosc, intendedFlo * Mult(intendedFlo))
  {
    oscp.rIdx := 0;
    if fosc < FOSC_MIN || fosc > FOSC_MAX {
      return 0;
    }
    var r, rIdx, threePhase := Divider(intendedFlo);
    var fvco: nat := intendedFlo * r;
    var z, x, flo := SolveWords(fosc, fvco, r);
    oscp.rIdx := rIdx;
    oscp.fosc, oscp.flo, oscp.intendedFlo := fosc, flo, intendedFlo;
    oscp.r, oscp.threephase, oscp.x, oscp.z := r, threePhase, x, z;
    return flo;
  }

  function RegSynth7(flo: nat): (w: uint8) {
    if Row(flo) < |PLL_VARS| then PLL_VARS[Row(flo)].regSynth7 else 0
  }

  /** What the chip makes of the word: bit 3 selects three-phase mixing, the low bits the divider of that mode. */
  function ChipDivider(word: nat): nat {
    if word / 8 % 2 == 0 then 2 * (word % 8 + 1)
    else if word % 8 <= 3 then 4 * (word % 8 + 1)
    else 8 * (word % 8 - 1)
  }

  /** The word written for a frequency selects the multiplier that the oscillator was computed with. */
  lemma {:induction false} WordSelectsDivider(flo: nat)
    ensures RegSynth7(flo) < 16 && ChipDivider(RegSynth7(flo)) == Mult(flo)
    ensures RegSynth7(flo) / 8 == (if flo < 350_000_000 then 1 else 0)
  {
    RowWords(Row(flo));
  }

  lemma {:induction false} RowWords(i: nat)
    ensures i < |PLL_VARS| ==> PLL_VARS[i].regSynth7 < 16 && ChipDivider(PLL_VARS[i].regSynth7) == PLL_VARS[i].mult
    ensures i < |PLL_VARS| ==> PLL_VARS[i].regSynth7 / 8 == if i <= 6 then 1 else 0
  {
  }

  /** The divider, its register word and the mixing mode from the table. */
  method Divider(flo: nat) returns (r: uint8, rIdx: uint8, threePhase: bool)
    ensures r == Mult(flo) && rIdx == RegSynth7(flo) && threePhase == ThreePhase(flo)
  {
    r, rIdx, threePhase := 2, 0, false;
    var i := FindRow(flo);
    if i < |PLL_VARS| {
      threePhase := PLL_VARS[i].regSynth7 / 8 % 2 == 1;
      rIdx := PLL_VARS[i].regSynth7;
      r := PLL_VARS[i].mult;
    }
  }

  method FindRow(flo: nat) returns (i: nat)
    ensures i == Row(flo)
  {
    i := 0;
    while i < |PLL_VARS| && flo >= PLL_VARS[i].freq
      invariant i <= |PLL_VARS| && forall k :: 0 <= k < i ==> flo >= PLL_VARS[k].freq
    {
      i := i + 1;
    }
    RowUnique(i, Row(flo), flo);
  }

  method SolveWords(fosc: nat, intendedFvco: nat, r: nat) returns (z: uint8, x: uint16, flo: uint32)
    requires fosc > 0 && r > 0
    ensures z == Z(fosc, intendedFvco) % 256 && x == X(fosc, intendedFvco) && flo == SolvedWith(fosc, intendedFvco, r)
  {
    ghost var gz, gx, rem, t := WordEquation(fosc, intendedFvco);
    var wide: nat := intendedFvco / fosc;
    assert fosc * wide == wide * fosc;
    var remainder: nat := intendedFvco - fosc * wide;
    x := remainder * PLL_Y / fosc;
    z := wide % 256;
    flo := ComputeFlo(fosc, z, x, r);
  }

  lemma {:induction false} RowUnique(i: nat, j: nat, flo: nat)
    requires IsRow(i, flo) && IsRow(j, flo)
    ensures i == j
  {
  }

  method ComputeFlo(fosc: nat, z: nat, x: nat, r: nat) returns (flo: uint32)
    requires r > 0
    ensures flo == Flo(fosc, z, x, r)
  {
    var fvcoZ: nat := fosc * z;
    var fvcoX: nat := fosc * x / PLL_Y;
    var fvco := fvcoZ + fvcoX;
    if fvco == 0 {
      return WrapU32(-EINVAL);
    }
    return WrapU32(fvco / r);
  }
}
