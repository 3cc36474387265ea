/** The RTL2832 resampler ratio word written by rtlsdr_set_sample_rate. */
module Resampler {
  import opened CInts
  import opened DivMod

  const NOMINAL_XTAL := 28_800_000
  const MIN_XTAL := NOMINAL_XTAL - 1000
  const MAX_XTAL := NOMINAL_XTAL + 1000

  predicate Accepted(rate: uint32) {
    !(rate <= 225_000 || rate > 3_200_000 || (rate > 300_000 && rate <= 900_000))
  }

  /** The crystal frequency times 2^22. */
  function Scaled(xtal: uint32): nat {
    xtal * 0x40_0000
  }

  function Quotient(xtal: uint32, rate: uint32): nat
    requires rate > 0
  {
    Scaled(xtal) / rate
  }

  /** The quotient masked with 0x0ffffffc: 28 bits, the lowest two cleared. */
  function RatioWord(q: nat): nat {
    q % 0x1000_0000 - q % 4
  }

  /** The hardware's reading of the word: bit 27 is copied to bit 28. */
  function Extended(word: nat): nat {
    word + (if word / 0x800_0000 % 2 == 1 then 0x1000_0000 else 0)
  }

  /** The rate that the written word really selects, as stored in the device. */
  function StoredRate(xtal: uint32, rate: uint32): uint32
    requires rate > 0 && Extended(RatioWord(Quotient(xtal, rate))) > 0
  {
    WrapU32(Scaled(xtal) / Extended(RatioWord(Quotient(xtal, rate))))
  }

  /** The extension recovers the true ratio (a multiple of 4) exactly on two ranges of quotients. */
  lemma {:induction false} ExtensionExact(q: nat)
    ensures Extended(RatioWord(q)) == q - q % 4 <==> q < 0x800_0000 || 0x1800_0000 <= q < 0x2000_0000
  {
    var w := RatioWord(q);
    assert 0 <= w < 0x1000_0000;
    if q < 0x2000_0000 {
      var a, b := q / 0x1000_0000, q % 0x1000_0000;
      assert q == a * 0x1000_0000 + b && 0 <= a < 2;
      assert w == b - q % 4;
      assert w < 0x800_0000 <==> b < 0x800_0000 by {
        assert q % 4 == b % 4;
      }
    } else {
      assert q - q % 4 >= 0x2000_0000;
    }
  }

  lemma {:induction false} QuotientBounds(x: nat, rate: nat, q: nat)
    requires rate > 0 && q == x / rate
    ensures q * rate <= x < q * rate + rate
  {
  }

  lemma {:induction false} QuotientAtMost(x: nat, rate: nat, t: nat)
    requires rate > 0
    ensures x / rate < t <==> x < t * rate
  {
    var q := x / rate;
    QuotientBounds(x, rate, q);
    if q < t {
      assert (q + 1) * rate <= t * rate;
    } else {
      assert t * rate <= q * rate;
    }
  }

  /** At the nominal crystal the rate limits are exactly the rates whose ratio survives the extension. */
  lemma {:induction false} LimitsAreTight(rate: uint32)
    requires rate > 0
    ensures var q := Quotient(NOMINAL_XTAL, rate);
            Extended(RatioWord(q)) == q - q % 4 <==> Accepted(rate) || rate > 3_200_000
  {
    var x := Scaled(NOMINAL_XTAL);
    var q := Quotient(NOMINAL_XTAL, rate);
    QuotientAtMost(x, rate, 0x800_0000);
    QuotientAtMost(x, rate, 0x1800_0000);
    QuotientAtMost(x, rate, 0x2000_0000);
    ExtensionExact(q);
  }

  lemma {:induction false} AcceptedQuotients(xtal: uint32, rate: uint32)
    requires MIN_XTAL <= xtal <= MAX_XTAL && Accepted(rate)
    ensures var q := Quotient(xtal, rate);
            0x200_0000 <= q < 0x801_0000 || 0x17ff_0000 <= q < 0x2001_0000
  {
    var x := Scaled(xtal);
    QuotientAtMost(x, rate, 0x200_0000);
    QuotientAtMost(x, rate, 0x801_0000);
    QuotientAtMost(x, rate, 0x17ff_0000);
    QuotientAtMost(x, rate, 0x2001_0000);
  }

  /**
   Among accepted rates at permitted crystals, the word is zero (and the stored
   rate undefined, a division by zero) exactly when the quotient reaches 2^29.
   */
  lemma {:induction false} ZeroRatio(xtal: uint32, rate: uint32)
    requires MIN_XTAL <= xtal <= MAX_XTAL && Accepted(rate)
    ensures var q := Quotient(xtal, rate);
            Extended(RatioWord(q)) == 0 <==> 0x2000_0000 <= q < 0x2000_0004
  {
    AcceptedQuotients(xtal, rate);
    var q := Quotient(xtal, rate);
    var a, b := q / 0x1000_0000, q % 0x1000_0000;
    assert q == a * 0x1000_0000 + b;
    assert b % 4 == q % 4;
  }

  /** A crystal 128 Hz high and the lowest accepted rate: the quotient is 2^29. */
  lemma {:induction false} ZeroRatioHappens()
    ensures MIN_XTAL <= 28_800_128 <= MAX_XTAL && Accepted(225_001)
    ensures Extended(RatioWord(Quotient(28_800_128, 225_001))) == 0
  {
  }

  /** The quotients that come through the 28-bit word and its extension. */
  predicate Survives(q: nat) {
    q < 0x800_0000 || 0x1800_0000 <= q < 0x2000_0000
  }

  /** The rate stored back is the requested one exactly when its quotient survives, at any permitted crystal. */
  lemma {:induction false} RateIsExactIff(xtal: uint32, rate: uint32)
    requires MIN_XTAL <= xtal <= MAX_XTAL && Accepted(rate)
    ensures var e := Extended(RatioWord(Quotient(xtal, rate)));
            (e > 0 && Scaled(xtal) / e == rate <==> Survives(Quotient(xtal, rate))) &&
            (Survives(Quotient(xtal, rate)) ==> e > 0 && StoredRate(xtal, rate) == rate)
  {
    var x, q: nat := Scaled(xtal), Quotient(xtal, rate);
    var e: nat := Extended(RatioWord(q));
    AcceptedQuotients(xtal, rate);
    QuotientBounds(x, rate, q);
    ExtensionExact(q);
    if Survives(q) {
      SlackFits(x, rate, q, e);
      QuotientIs(x, e, rate);
    } else {
      LostQuotient(q);
      if e > q {
        AboveMisses(x, rate, q, e);
      } else if e > 0 {
        BelowMisses(x, rate, q, e);
      }
    }
  }

  /** A quotient that does not survive is off by the weight of bit 28 or more. */
  lemma {:induction false} LostQuotient(q: nat)
    requires 0x800_0000 <= q < 0x801_0000 || 0x17ff_0000 <= q < 0x1800_0000 || 0x2000_0000 <= q < 0x2001_0000
    ensures Extended(RatioWord(q)) > q || Extended(RatioWord(q)) + 0x1000_0000 <= q
  {
    var w := RatioWord(q);
    if q < 0x801_0000 {
      assert w == q - q % 4 && w / 0x800_0000 == 1;
    } else if q < 0x1800_0000 {
      assert w == q - 0x1000_0000 - q % 4 && w / 0x800_0000 == 0;
    } else {
      assert w == q - 0x2000_0000 - q % 4 && w / 0x800_0000 == 0;
    }
  }

  lemma {:induction false} AboveMisses(x: nat, rate: nat, q: nat, e: nat)
    requires rate > 0 && x < q * rate + rate && e > q
    ensures x / e < rate
  {
    QuotientAtMost(x, e, rate);
    MulMonotone(q + 1, e, rate);
    assert e * rate == rate * e && (q + 1) * rate == q * rate + rate;
  }

  lemma {:induction false} BelowMisses(x: nat, rate: nat, q: nat, e: nat)
    requires e > 0 && q * rate <= x && e + 0x1000_0000 <= q < 0x2001_0000 && rate >= 2
    ensures x / e > rate
  {
    QuotientAtMost(x, e, rate + 1);
    MulMonotone(e + 0x1000_0000, q, rate);
    assert (e + 0x1000_0000) * rate == e * rate + 0x1000_0000 * rate;
    assert (rate + 1) * e == e * rate + e;
  }

  lemma {:induction false} Shift(q: nat, e: nat, d: nat, rate: nat)
    requires q == e + d
    ensures q * rate == e * rate + d * rate
  {
  }

  lemma {:induction false} AtMostThree(d: nat, rate: nat)
    requires d <= 3
    ensures d * rate <= 3 * rate
  {
  }

  lemma {:induction false} SlackFits(x: nat, rate: nat, q: nat, e: nat)
    requires q * rate <= x < q * rate + rate && q - 3 <= e <= q && 4 * rate <= e
    ensures e * rate <= x < e * rate + e
  {
    Shift(q, e, q - e, rate);
    AtMostThree(q - e, rate);
  }

  lemma {:induction false} QuotientIs(x: nat, e: nat, rate: nat)
    requires e > 0 && e * rate <= x < e * rate + e
    ensures x / e == rate
  {
    QuotientAtMost(x, e, rate);
    QuotientAtMost(x, e, rate + 1);
    assert rate * e == e * rate && (rate + 1) * e == e * rate + e;
  }

  /** At the nominal crystal every accepted rate is stored back unchanged, so reapplying it changes nothing. */
  lemma {:induction false} NominalRateKept(rate: uint32)
    requires Accepted(rate)
    ensures Extended(RatioWord(Quotient(NOMINAL_XTAL, rate))) > 0 && StoredRate(NOMINAL_XTAL, rate) == rate
    ensures RatioWord(Quotient(NOMINAL_XTAL, rate)) < 0x1000_0000
  {
    LimitsAreTight(rate);
    ExtensionExact(Quotient(NOMINAL_XTAL, rate));
    RateIsExactIff(NOMINAL_XTAL, rate);
  }
}
