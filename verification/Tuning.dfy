/**
 The tuning state machine of librtlsdr on an R82xx dongle: tuning, bandwidth,
 sample rate, frequency correction, crystal and direct-sampling calls, with the
 automatic switch between tuner mode and direct sampling.

 Every hardware access may fail, as the list `script` says; the ghost counter `faults`
 says how often one did, and the ghost fields hold what was last programmed: lastIf and lastLo the
 frequencies of the demodulator's IF register and of the tuner's PLL, lastFilter the tuner's register 0x0b,
 lastRatio the resampler's ratio word and lastCorr the parts per million it corrects by.
 */
module Tuning {
  import opened CInts
  import opened Outcomes
  import Resampler

  datatype Chip = R820T | R828D

  const R82XX_IF_FREQ: uint32 := 3_570_000
  const UPCONVERTER_HZ: uint32 := 28_800_000
  const AUTO_LIMIT: uint32 := 24_000_000

  // ----- the bandwidth table of the tuner

  const LOW_PASS := [1_700_000, 1_600_000, 1_550_000, 1_450_000, 1_200_000, 900_000, 700_000, 550_000, 450_000, 350_000]
  const HIGH_PASS_1 := 350_000
  const HIGH_PASS_2 := 380_000

  /** The index found by the search: one before the first filter that bw exceeds. */
  function LowPassIndex(bw: int, i: nat): (r: nat)
    requires 1 <= i <= |LOW_PASS|
    ensures r < |LOW_PASS|
    decreases |LOW_PASS| - i
  {
    if i == |LOW_PASS| || bw > LOW_PASS[i] then i - 1 else LowPassIndex(bw, i + 1)
  }

  /** The intermediate frequency of a bandwidth setting, and the register that selects its filters. */
  datatype Passband = Passband(intFreq: uint32, reg0b: int)

  function PassbandFor(bw: int): Passband {
    if bw > 7_000_000 then Passband(4_570_000, 0x0b)
    else if bw > 6_000_000 then Passband(4_570_000, 0x2a)
    else if bw > LOW_PASS[0] + HIGH_PASS_1 + HIGH_PASS_2 then Passband(3_570_000, 0x6b)
    else
      var hp2 := if bw > LOW_PASS[0] + HIGH_PASS_1 then HIGH_PASS_2 else 0;
      var hp1 := if bw - hp2 > LOW_PASS[0] then HIGH_PASS_1 else 0;
      var i := LowPassIndex(bw - hp2 - hp1, 1);
      Passband(2_300_000 + hp2 + hp1 - (hp2 + hp1 + LOW_PASS[i]) / 2,
               0x80 + (if hp2 == 0 then 0x20 else 0) + (if hp1 == 0 then 0x40 else 0) + 15 - i)
  }

  /** The bandwidth register 0x0b selects: two high-pass steps, off when their bit is set, and a low-pass filter. */
  function WidthOf(reg: int): int
    requires 6 <= reg % 16
  {
    (if reg / 0x20 % 2 == 0 then 380_000 else 0) + (if reg / 0x40 % 2 == 0 then 350_000 else 0)
    + LOW_PASS[15 - reg % 16]
  }

  lemma {:induction false} LowPassCovers(bw: int, i: nat)
    requires 1 <= i <= |LOW_PASS| && bw <= LOW_PASS[i - 1]
    ensures bw <= LOW_PASS[LowPassIndex(bw, i)]
    ensures forall j | 0 <= j < |LOW_PASS| && bw <= LOW_PASS[j] :: LOW_PASS[LowPassIndex(bw, i)] <= LOW_PASS[j]
    decreases |LOW_PASS| - i
  {
    if i < |LOW_PASS| && bw <= LOW_PASS[i] {
      LowPassCovers(bw, i + 1);
    }
  }

  /**
   Below the 6 MHz setting the filters that the register selects are at least as wide as asked for,
   no other low-pass filter would do with less, and the signal's upper edge stays
   at 2.3 MHz plus the high-pass shift.
   */
  lemma {:induction false} PassbandCovers(bw: int)
    requires bw <= 2_430_000
    ensures var p := PassbandFor(bw);
            var wide := bw > 1_700_000 && (bw <= 2_050_000 || bw > 2_080_000);
            var shift := (if bw > 2_050_000 then 380_000 else 0) + (if wide then 350_000 else 0);
            0x86 <= p.reg0b <= 0xef && 6 <= p.reg0b % 16 &&
            bw <= WidthOf(p.reg0b) && p.intFreq + WidthOf(p.reg0b) / 2 == 2_300_000 + shift &&
            forall j | 0 <= j < |LOW_PASS| && bw <= shift + LOW_PASS[j] :: WidthOf(p.reg0b) <= shift + LOW_PASS[j]
  {
    hide WidthOf, LowPassIndex;
    var hp2 := if bw > LOW_PASS[0] + HIGH_PASS_1 then HIGH_PASS_2 else 0;
    var hp1 := if bw - hp2 > LOW_PASS[0] then HIGH_PASS_1 else 0;
    LowPassCovers(bw - hp2 - hp1, 1);
    WidthIs(hp2, hp1, LowPassIndex(bw - hp2 - hp1, 1));
  }

  lemma {:induction false} WidthIs(hp2: int, hp1: int, i: int)
    requires (hp2 == 0 || hp2 == 380_000) && (hp1 == 0 || hp1 == 350_000) && 0 <= i <= 9
    ensures var r := 0x80 + (if hp2 == 0 then 0x20 else 0) + (if hp1 == 0 then 0x40 else 0) + 15 - i;
            0x86 <= r <= 0xef && 6 <= r % 16 && WidthOf(r) == hp2 + hp1 + LOW_PASS[i]
  {
    FilterBits(if hp2 == 0 then 1 else 0, if hp1 == 0 then 1 else 0, i);
  }

  lemma {:induction false} FilterBits(b5: int, b6: int, i: int)
    requires 0 <= b5 <= 1 && 0 <= b6 <= 1 && 0 <= i <= 9
    ensures var r := 0x80 + 0x20 * b5 + 0x40 * b6 + 15 - i;
            r % 16 == 15 - i && r / 0x20 % 2 == b5 && r / 0x40 % 2 == b6
  {
  }

  /** Where the lower edge of the requested band would pass through zero: from 9.14 MHz on only. Above the filters that
      can be combined there are three fixed settings, for 6, 7 and 8 MHz. */
  lemma {:induction false} BandAboveZeroIff(bw: nat)
    ensures bw <= 2 * PassbandFor(bw).intFreq <==> bw <= 9_140_000
    ensures bw > 2_430_000 ==>
              PassbandFor(bw) == if bw <= 6_000_000 then Passband(3_570_000, 0x6b)
                                 else if bw <= 7_000_000 then Passband(4_570_000, 0x2a)
                                 else Passband(4_570_000, 0x0b)
  {
    if bw <= 2_430_000 {
      PassbandCovers(bw);
    }
  }

  /** A request goes through a C int: the narrowest filters serve small requests and those from 2^31 on. */
  lemma {:induction false} NarrowestIff(b: uint32)
    ensures PassbandFor(ToInt32(b)) == Passband(2_125_000, 0xe6) <==> b <= 350_000 || b >= 0x8000_0000
  {
    var bw := ToInt32(b);
    if bw <= 2_430_000 {
      PassbandCovers(bw);
      if bw <= 350_000 {
        NarrowestIndex(bw, 1);
      }
    }
  }

  lemma {:induction false} NarrowestIndex(bw: int, i: nat)
    requires 1 <= i <= |LOW_PASS| && bw <= 350_000
    ensures LowPassIndex(bw, i) == 9
    decreases |LOW_PASS| - i
  {
    if i < |LOW_PASS| {
      NarrowestIndex(bw, i + 1);
    }
  }

  // ----- the device

  function Upconverted(upconverts: bool, freq: uint32): uint32 {
    if upconverts && freq < UPCONVERTER_HZ then freq + UPCONVERTER_HZ else freq
  }

  /** The bandwidth argument passes through a C int. */
  function ToInt32(x: uint32): int {
    if x < 0x8000_0000 then x else x - 0x1_0000_0000
  }

  datatype Command =
    | Tune(freq: uint32)
    | Bandwidth(bw: uint32)
    | SampleRate(rate: uint32)
    | Correction(ppm: int)
    | Xtal(rtlFreq: uint32, tunerFreq: uint32)
    | DirectSampling(on: int)

  /** What the user has set: frequency, direct-sampling mode, correction, bandwidth, and the demodulator's crystal. */
  datatype User = User(freq: uint32, mode: int, corr: int, bw: uint32, xtal: uint32)

  function After(c: Command, u: User): User {
    match c
    case Tune(f) => u.(freq := f)
    case Bandwidth(b) => u.(bw := b)
    case SampleRate(_) => u
    case Correction(ppm) => u.(corr := ppm)
    case Xtal(r, _) => if 28_799_000 <= r <= 28_801_000 then u.(xtal := r) else u
    case DirectSampling(on) => u.(mode := on)
  }

  function AfterAll(cmds: seq<Command>, u: User): User {
    if cmds == [] then u else After(cmds[|cmds| - 1], AfterAll(cmds[..|cmds| - 1], u))
  }

  /** A negative mode is possible, and makes every later tune fail. */
  predicate SensibleModes(cmds: seq<Command>) {
    forall c | c in cmds && c.DirectSampling? :: c.on >= 0
  }

  /** The result of a call, the frequency and the input it leaves, and the outcomes it has not used. */
  datatype Reply = Reply(ok: bool, freq: uint32, ds: int, script: Script)

  class Dongle {
    const chip: Chip
    const isV4: bool
    const isV4L: bool

    var freq: uint32
    var rate: uint32
    var bw: uint32
    var corr: int
    var rtlXtal: uint32
    var tunXtal: uint32
    var directSampling: int
    var directSamplingMode: int
    var intFreq: uint32

    /** What becomes of the accesses still to come. */
    var script: Script

    ghost var lastIf: uint32
    ghost var lastLo: uint32
    ghost var lastFilter: int
    ghost var lastRatio: int
    ghost var lastCorr: int
    ghost var faults: nat
    ghost var tunes: nat

    /** The input that automatic mode selects for a frequency: 2 is direct sampling on the Q branch. */
    function AutoMode(f: uint32): int {
      if f < AUTO_LIMIT && chip == R820T && !isV4L then 2 else 0
    }

    function LoFor(f: uint32, ifreq: uint32): uint32 {
      WrapU32(Upconverted(isV4 || isV4L, f) + ifreq)
    }

    /** A user-selected mode is the mode in force, and automatic mode uses 0 or 2 only. */
    ghost predicate Valid()
      reads this
    {
      Resampler.MIN_XTAL <= rtlXtal <= Resampler.MAX_XTAL &&
      (directSamplingMode != 0 ==> directSampling == directSamplingMode) &&
      (directSamplingMode == 0 ==> directSampling == 0 || directSampling == 2)
    }

    ghost predicate IfSynced()
      reads this
    {
      directSampling == 0 ==> lastIf == intFreq
    }

    /**
     What the hardware was last told is what the fields say: in tuner mode the IF
     is the tuner's and its oscillator is at frequency plus IF; in direct sampling
     the IF is the frequency itself.
     */
    ghost predicate InSync()
      reads this
    {
      IfSynced() &&
      (directSampling == 0 && freq != 0 ==> lastLo == LoFor(freq, intFreq)) &&
      (directSampling > 0 ==> lastIf == freq)
    }

    /** Automatic mode has chosen the input that the current frequency calls for: an R820T takes HF directly. */
    ghost predicate AutoChosen()
      reads this
    {
      directSamplingMode == 0 && freq != 0 ==>
        directSampling == if freq < 24_000_000 && chip == R820T && !isV4L then 2 else 0
    }

    /** Two frequencies give one LO exactly when an upconverting dongle takes the lower one up to the higher one. */
    lemma {:induction false} SameLoIff(f: uint32, g: uint32, ifreq: uint32)
      requires f < g
      ensures LoFor(f, ifreq) == LoFor(g, ifreq) <==> (isV4 || isV4L) && f < 28_800_000 && g == f + 28_800_000
    {
      var u, v := Upconverted(isV4 || isV4L, f), Upconverted(isV4 || isV4L, g);
      SameWrapped(u + ifreq, v + ifreq);
    }

    /** How many more times a tune at f entered with input ds can switch inputs and tune again. */
    function RankFor(mode: int, f: uint32, ds: int): nat {
      if mode != 0 || AutoMode(f) == ds then 0 else if f == 0 then 1 else 2
    }

    function Rank(f: uint32, ds: int): nat
      reads this`directSamplingMode
    {
      RankFor(directSamplingMode, f, ds)
    }

    /** What a tune to f returns and leaves, as the outcomes of its accesses decide. */
    function TuneOutcome(mode: int, freq: uint32, ds: int, f: uint32, script: Script): Reply
      decreases RankFor(mode, f, ds), 0
    {
      if ds < 0 then Reply(false, freq, ds, script)
      else
        var d := if mode == 0 then AutoMode(f) else ds;
        var tuned := if Head(script) then f else 0;
        if d == ds then Reply(Head(script), tuned, d, Tail(script))
        else SwitchOutcome(mode, tuned, d, Tail(script))
    }

    /** A switch takes two accesses to direct sampling and three to the tuner, and tunes again. */
    function SwitchOutcome(mode: int, freq: uint32, on: int, script: Script): Reply
      decreases RankFor(mode, freq, on), 1
    {
      var ok := Head(script) && Head(Tail(script)) && (on == 0 ==> Head(Tail(Tail(script))));
      var r := TuneOutcome(mode, freq, on, freq, if on == 0 then Tail(Tail(Tail(script))) else Tail(Tail(script)));
      r.(ok := ok && r.ok)
    }

    /** A tune that fails can be reported as a success exactly when automatic mode also switches the input:
        the result is then that of the switch, made for the frequency 0 that the failure left. */
    lemma {:induction false} FalseSuccessIff(mode: int, freq: uint32, ds: int, f: uint32)
      requires mode != 0 ==> ds == mode
      ensures (exists rest: Script :: TuneOutcome(mode, freq, ds, f, [false] + rest).ok)
              <==> ds >= 0 && mode == 0 && AutoMode(f) != ds
      ensures ds >= 0 && mode == 0 && AutoMode(f) != ds ==>
                TuneOutcome(mode, freq, ds, f, [false]) == Reply(true, 0, AutoMode(0), [])
    {
      forall rest: Script
        ensures Head([false] + rest) == false && Tail([false] + rest) == rest
      {
      }
      if ds >= 0 && mode == 0 && AutoMode(f) != ds {
        assert [false] + [] == [false];
        assert TuneOutcome(mode, freq, ds, f, [false]) == SwitchOutcome(mode, 0, AutoMode(f), []);
        assert TuneOutcome(mode, 0, AutoMode(0), 0, []) == Reply(true, 0, AutoMode(0), []);
        assert SwitchOutcome(mode, 0, AutoMode(0), []) == Reply(true, 0, AutoMode(0), []);
        assert TuneOutcome(mode, 0, AutoMode(f), 0, []) == Reply(true, 0, AutoMode(0), []);
        assert TuneOutcome(mode, freq, ds, f, [false] + []).ok;
      }
    }

    constructor (chip: Chip, isV4: bool, isV4L: bool, script: Script)
      ensures this.script == script && this.chip == chip && this.isV4 == isV4 && this.isV4L == isV4L
      ensures Valid() && AutoChosen() && freq == 0 && directSampling == 0 && directSamplingMode == 0
      ensures faults == 0 && tunes == 0 && InSync() && lastCorr == corr
    {
      this.chip, this.isV4, this.isV4L, this.script := chip, isV4, isV4L, script;
      freq, rate, bw, corr := 0, 0, 0, 0;
      rtlXtal := Resampler.NOMINAL_XTAL;
      tunXtal := if chip == R828D && !isV4 then 16_000_000 else Resampler.NOMINAL_XTAL;
      directSampling, directSamplingMode := 0, 0;
      intFreq := R82XX_IF_FREQ;
      lastIf, lastLo := R82XX_IF_FREQ, 0;
      lastCorr := 0;
      faults, tunes := 0, 0;
    }

    /** A group of register accesses whose results are or-ed together: it fails if one of them does. */
    method Access() returns (ok: bool)
      modifies this`faults, this`script
      ensures ok == Head(old(script)) && script == Tail(old(script))
      ensures faults == old(faults) + if ok then 0 else 1
      ensures NoneFails(old(script)) ==> faults == old(faults) && NoneFails(script)
    {
      ok, script := Head(script), Tail(script);
      if !ok {
        faults := faults + 1;
      }
    }

    method SetIfFreq(f: uint32) returns (ok: bool)
      modifies this`faults, this`script, this`lastIf
      ensures faults == old(faults) + if ok then 0 else 1
      ensures ok == Head(old(script)) && script == Tail(old(script))
      ensures ok ==> lastIf == f
      ensures NoneFails(old(script)) ==> faults == old(faults) && NoneFails(script)
    {
      ok := Access();
      if ok {
        lastIf := f;
      } else {
        lastIf := *;
      }
    }

    /** r82xx_set_freq: the mixer is set up for the frequency, upconverted on HF, plus the IF. */
    method TunerSetFreq(f: uint32) returns (ok: bool)
      modifies this`faults, this`script, this`lastLo
      ensures faults == old(faults) + if ok then 0 else 1
      ensures ok == Head(old(script)) && script == Tail(old(script))
      ensures ok ==> lastLo == LoFor(f, intFreq)
      ensures NoneFails(old(script)) ==> faults == old(faults) && NoneFails(script)
    {
      var upconvert := if isV4 || isV4L then (if f < UPCONVERTER_HZ then f + UPCONVERTER_HZ else f) else f;
      var lo := WrapU32(upconvert + intFreq);
      ok := Access();
      if ok {
        lastLo := lo;
      } else {
        lastLo := *;
      }
    }

    /** r82xx_init resets the tuner's IF; a failure may come before or after that. */
    method TunerInit() returns (ok: bool)
      modifies this`faults, this`script, this`intFreq, this`lastFilter
      ensures faults == old(faults) + if ok then 0 else 1
      ensures ok == Head(old(script)) && script == Tail(old(script))
      ensures ok ==> intFreq == 3_570_000
      ensures intFreq == old(intFreq) || intFreq == R82XX_IF_FREQ
      ensures NoneFails(old(script)) ==> faults == old(faults) && NoneFails(script)
    {
      ok := Access();
      var reached: bool := *;
      if ok || reached {
        intFreq := R82XX_IF_FREQ;
      }
      lastFilter := *;
    }

    method SetCenterFreq(f: uint32) returns (ok: bool)
      modifies this`freq, this`directSampling, this`intFreq, this`lastIf, this`lastLo, this`faults, this`script,
               this`tunes, this`lastFilter
      requires directSamplingMode != 0 ==> directSampling == directSamplingMode
      ensures Reply(ok, freq, directSampling, script)
           == TuneOutcome(directSamplingMode, old(freq), old(directSampling), f, old(script))
      ensures old(directSampling) < 0 ==>
                !ok && freq == old(freq) && directSampling == old(directSampling) && intFreq == old(intFreq)
                && lastIf == old(lastIf) && lastLo == old(lastLo) && faults == old(faults)
      ensures old(directSampling) >= 0 ==>
                faults >= old(faults) && (faults == old(faults) ==> ok) && (freq == f || freq == 0)
      ensures old(directSampling >= 0 && Rank(f, directSampling) == 0) ==>
                (ok <==> faults == old(faults)) && (ok ==> freq == f)
      ensures old(directSampling) >= 0 && faults == old(faults) ==>
                freq == f
                && directSampling == (if directSamplingMode == 0 then AutoMode(f) else old(directSampling))
                && (if old(directSampling) != 0 && directSampling == 0 then intFreq == R82XX_IF_FREQ
                    else intFreq == old(intFreq) && lastFilter == old(lastFilter))
                && (old(IfSynced()) ==> InSync())
      ensures old(directSampling) >= 0 && directSamplingMode == 0 ==> directSampling == 0 || directSampling == 2
      ensures directSamplingMode != 0 ==> directSampling == old(directSampling)
      ensures old(directSampling) >= 0 ==> AutoChosen()
      ensures old(tunes) < tunes <= old(tunes) + 1 + old(Rank(f, directSampling))
      ensures NoneFails(old(script)) ==> faults == old(faults) && NoneFails(script)
      decreases Rank(f, directSampling), 0
    {
      hide NoneFails;
      tunes := tunes + 1;
      var lastDs := directSampling;
      if lastDs < 0 {
        return false;
      }
      if directSamplingMode == 0 {
        directSampling := AutoMode(f);
      }
      if directSampling != 0 {
        ok := SetIfFreq(f);
      } else {
        ok := TunerSetFreq(f);
      }
      freq := if ok then f else 0;
      if lastDs != directSampling {
        ok := SwitchDirectSampling(directSampling);
      }
    }

    /** _rtlsdr_set_direct_sampling: reprogram for the input, then tune again. */
    method SwitchDirectSampling(on: int) returns (ok: bool)
      modifies this`freq, this`directSampling, this`intFreq, this`lastIf, this`lastLo, this`faults, this`script,
               this`tunes, this`lastFilter
      requires directSamplingMode != 0 ==> on == directSamplingMode
      ensures Reply(ok, freq, directSampling, script) == SwitchOutcome(directSamplingMode, old(freq), on, old(script))
      ensures on < 0 ==>
                !ok && freq == old(freq) && directSampling == on && intFreq == old(intFreq)
                && lastIf == old(lastIf) && lastLo == old(lastLo)
      ensures faults >= old(faults)
      ensures on >= 0 ==> (faults == old(faults) ==> ok) && (freq == old(freq) || freq == 0)
      ensures on >= 0 && old(Rank(freq, on)) == 0 ==> (ok <==> faults == old(faults))
      ensures on >= 0 && faults == old(faults) ==>
                freq == old(freq)
                && directSampling == (if directSamplingMode == 0 then AutoMode(freq) else on)
                && (if on == 0 || directSampling == 0 then intFreq == R82XX_IF_FREQ
                    else intFreq == old(intFreq) && lastFilter == old(lastFilter))
                && InSync()
      ensures on >= 0 && directSamplingMode == 0 ==> directSampling == 0 || directSampling == 2
      ensures directSamplingMode != 0 ==> directSampling == on
      ensures on >= 0 ==> AutoChosen()
      ensures old(tunes) < tunes <= old(tunes) + 1 + old(Rank(freq, on))
      ensures NoneFails(old(script)) ==> faults == old(faults) && NoneFails(script)
      decreases Rank(freq, on), 1
    {
      hide LoFor, NoneFails;
      if on != 0 {
        var r0 := Access();  // tuner standby
        var r1 := Access();  // demodulator: IF mode, spectrum inversion, ADC inputs
        ok := r0 && r1;
        directSampling := on;
      } else {
        var r0 := TunerInit();
        var r1 := SetIfFreq(R82XX_IF_FREQ);
        var r2 := Access();  // demodulator: spectrum inversion, ADC datapath
        ok := r0 && r1 && r2;
        directSampling := 0;
      }
      var r := SetCenterFreq(freq);
      ok := ok && r;
    }

    /** r82xx_set_bandwidth: picks the filters and the IF; the IF field changes even if a write fails. */
    method SetBandwidth(b: int) returns (ok: bool)
      modifies this`intFreq, this`faults, this`script, this`lastFilter
      ensures faults == old(faults) + if ok then 0 else 1
      ensures intFreq == PassbandFor(b).intFreq
      ensures ok ==> lastFilter == PassbandFor(b).reg0b
      ensures NoneFails(old(script)) ==> faults == old(faults) && NoneFails(script)
    {
      hide LowPassIndex, NoneFails;
      var reg0b := 0x80;
      if b > 7_000_000 {
        intFreq, reg0b := 4_570_000, 0x0b;
      } else if b > 6_000_000 {
        intFreq, reg0b := 4_570_000, 0x2a;
      } else if b > LOW_PASS[0] + HIGH_PASS_1 + HIGH_PASS_2 {
        intFreq, reg0b := 3_570_000, 0x6b;
      } else {
        var w, realBw, ifreq := b, 0, 2_300_000;
        if w > LOW_PASS[0] + HIGH_PASS_1 {
          w, ifreq, realBw := w - HIGH_PASS_2, ifreq + HIGH_PASS_2, realBw + HIGH_PASS_2;
        } else {
          reg0b := reg0b + 0x20;
        }
        if w > LOW_PASS[0] {
          w, ifreq, realBw := w - HIGH_PASS_1, ifreq + HIGH_PASS_1, realBw + HIGH_PASS_1;
        } else {
          reg0b := reg0b + 0x40;
        }
        var i := SearchLowPass(w);
        reg0b := reg0b + 15 - i;
        realBw := realBw + LOW_PASS[i];
        intFreq := ifreq - realBw / 2;
      }
      ok := Access();
      if ok {
        lastFilter := reg0b;
      } else {
        lastFilter := *;
      }
    }

    /** r820t_set_bw: filters, IF register, then tune again. */
    method TunerSetBw(b: int) returns (ok: bool)
      requires Valid()
      modifies this`freq, this`directSampling, this`intFreq, this`lastIf, this`lastLo, this`faults, this`script,
               this`tunes, this`lastFilter
      ensures Valid() && (old(AutoChosen()) ==> AutoChosen())
      ensures faults >= old(faults)
      ensures old(directSampling) < 0 ==> !ok && directSampling == old(directSampling)
      ensures old(directSampling) >= 0 && faults == old(faults) ==>
                ok && freq == old(freq) && InSync()
                && directSampling == (if directSamplingMode == 0 then AutoMode(freq) else old(directSampling))
                && (if old(directSampling) != 0 && directSampling == 0 then intFreq == R82XX_IF_FREQ
                    else intFreq == PassbandFor(b).intFreq && lastFilter == PassbandFor(b).reg0b)
      ensures faults == old(faults) ==> tunes > old(tunes)
      ensures old(tunes) <= tunes <= old(tunes) + 3
      ensures NoneFails(old(script)) ==> faults == old(faults) && NoneFails(script)
    {
      ok := SetBandwidth(b);
      if !ok {
        return;
      }
      ok := SetIfFreq(intFreq);
      if !ok {
        return;
      }
      ok := SetCenterFreq(freq);
    }

    /** The bandwidth asked for reaches the tuner, or the sample rate for 0. */
    method SetTunerBandwidth(b: uint32) returns (ok: bool)
      requires Valid()
      modifies this`freq, this`directSampling, this`intFreq, this`lastIf, this`lastLo, this`faults, this`script,
               this`tunes, this`lastFilter, this`bw
      ensures Valid() && (old(AutoChosen()) ==> AutoChosen())
      ensures faults >= old(faults)
      ensures old(directSampling) < 0 ==> !ok
      ensures old(directSampling) >= 0 && faults == old(faults) ==>
                ok && InSync() && freq == old(freq)
                && directSampling == (if directSamplingMode == 0 then AutoMode(freq) else old(directSampling))
                && (if old(directSampling) != 0 && directSampling == 0 then intFreq == R82XX_IF_FREQ
                    else var p := PassbandFor(ToInt32(if b > 0 then b else rate));
                         intFreq == p.intFreq && lastFilter == p.reg0b)
      ensures bw == if ok then b else old(bw)
      ensures old(tunes) <= tunes <= old(tunes) + 3
      ensures NoneFails(old(script)) ==> faults == old(faults) && NoneFails(script)
    {
      ok := TunerSetBw(ToInt32(if b > 0 then b else rate));
      if ok {
        bw := b;
      }
    }

    /** The ratio word, the frequency correction and a reset of the demodulator. */
    method ProgramRatio(ratio: int) returns (ok: bool)
      modifies this`faults, this`script, this`lastRatio, this`lastCorr
      ensures faults == old(faults) + if ok then 0 else 1
      ensures ok ==> lastRatio == ratio && lastCorr == corr
      ensures NoneFails(old(script)) ==> faults == old(faults) && NoneFails(script)
    {
      ok := Access();
      if ok {
        lastRatio, lastCorr := ratio, corr;
      } else {
        lastRatio, lastCorr := *, *;
      }
    }

    /** The ratio word of a rate, and the rate that it really selects; arbitrary where the word is zero. */
    method StoreRate(r: uint32) returns (ratio: nat)
      requires Valid() && Resampler.Accepted(r)
      modifies this`rate
      ensures ratio == Resampler.RatioWord(Resampler.Quotient(rtlXtal, r))
      ensures Resampler.Extended(ratio) > 0 ==> rate == Resampler.StoredRate(rtlXtal, r)
      ensures Resampler.Survives(Resampler.Quotient(rtlXtal, r)) ==> rate == r
    {
      ratio := Resampler.RatioWord(Resampler.Quotient(rtlXtal, r));
      var realRatio := Resampler.Extended(ratio);
      Resampler.RateIsExactIff(rtlXtal, r);
      if realRatio > 0 {
        rate := WrapU32(Resampler.Scaled(rtlXtal) / realRatio);
      } else {
        rate := *;
      }
    }

    /** An unsupported rate is refused; the result of setting the bandwidth is ignored. */
    method SetSampleRate(r: uint32) returns (ok: bool)
      requires Valid()
      modifies this`freq, this`directSampling, this`intFreq, this`lastIf, this`lastLo, this`faults, this`script,
               this`tunes, this`lastFilter, this`rate, this`lastRatio, this`lastCorr
      ensures Valid() && (old(AutoChosen()) ==> AutoChosen())
      ensures faults >= old(faults)
      ensures !Resampler.Accepted(r) ==> !ok && unchanged(this)
      ensures Resampler.Accepted(r) && old(directSampling) >= 0 && faults == old(faults) ==>
                InSync() && freq == old(freq)
                && directSampling == (if directSamplingMode == 0 then AutoMode(freq) else old(directSampling))
                && (if old(directSampling) != 0 && directSampling == 0 then intFreq == R82XX_IF_FREQ
                    else var p := PassbandFor(ToInt32(if bw > 0 then bw else rate));
                         intFreq == p.intFreq && lastFilter == p.reg0b)
      ensures Resampler.Accepted(r) && faults == old(faults) ==>
                ok && lastRatio == Resampler.RatioWord(Resampler.Quotient(rtlXtal, r)) && lastCorr == corr
      ensures Resampler.Accepted(r) && Resampler.Survives(Resampler.Quotient(rtlXtal, r)) ==> rate == r
      ensures Resampler.Accepted(r) && Resampler.Extended(Resampler.RatioWord(Resampler.Quotient(rtlXtal, r))) > 0 ==>
                rate == Resampler.StoredRate(rtlXtal, r)
      ensures old(tunes) <= tunes <= old(tunes) + 3
      ensures NoneFails(old(script)) ==> faults == old(faults) && NoneFails(script)
    {
      hide NoneFails, TuneOutcome, AutoMode, LoFor, PassbandFor;
      hide Resampler.RatioWord, Resampler.Extended, Resampler.Survives, Resampler.Scaled;
      if r <= 225_000 || r > 3_200_000 || (r > 300_000 && r <= 900_000) {
        return false;
      }
      var ratio := StoreRate(r);
      var ignored := TunerSetBw(ToInt32(if bw > 0 then bw else rate));
      ok := ProgramRatio(ratio);
    }

    method SetFreqCorrection(ppm: int) returns (ok: bool)
      requires Valid()
      modifies this`freq, this`directSampling, this`intFreq, this`lastIf, this`lastLo, this`faults, this`script,
               this`tunes, this`lastFilter, this`corr, this`lastCorr
      ensures Valid() && (old(AutoChosen()) ==> AutoChosen())
      ensures faults >= old(faults) && corr == ppm
      ensures old(corr) == ppm ==> !ok && unchanged(this)
      ensures faults == old(faults) && old(InSync()) ==> InSync()
      ensures faults == old(faults) && old(directSampling) >= 0 ==> freq == old(freq) && (ok <==> old(corr) != ppm)
      ensures faults == old(faults) && old(corr) != ppm ==> lastCorr == ppm
      ensures old(corr) != ppm && old(freq) != 0 ==> tunes > old(tunes)
      ensures old(tunes) <= tunes <= old(tunes) + 3
      ensures NoneFails(old(script)) ==> faults == old(faults) && NoneFails(script)
    {
      hide NoneFails, TuneOutcome, AutoMode, LoFor;
      if corr == ppm {
        return false;
      }
      corr := ppm;
      ok := Access();
      if ok {
        lastCorr := ppm;
      } else {
        lastCorr := *;
      }
      if freq != 0 {
        var r := SetCenterFreq(freq);
        ok := ok && r;
      }
    }

    /** The first part of rtlsdr_set_xtal_freq: a new crystal of the demodulator makes the rate be set again. */
    method SetRtlXtal(rtlFreq: uint32) returns (ok: bool)
      requires Valid() && Resampler.MIN_XTAL <= rtlFreq <= Resampler.MAX_XTAL
      modifies this`freq, this`directSampling, this`intFreq, this`lastIf, this`lastLo, this`faults, this`script,
               this`tunes, this`lastFilter, this`rate, this`rtlXtal, this`lastRatio, this`lastCorr
      ensures Valid() && (old(AutoChosen()) ==> AutoChosen())
      ensures faults >= old(faults) && rtlXtal == rtlFreq
      ensures old(rate) == 0 ==> ok && rate == 0 && lastRatio == old(lastRatio) && lastCorr == old(lastCorr)
      ensures Resampler.Accepted(old(rate)) && faults == old(faults) ==>
                lastRatio == Resampler.RatioWord(Resampler.Quotient(rtlFreq, old(rate))) && lastCorr == corr
      ensures faults == old(faults) && old(lastCorr == corr) ==> lastCorr == corr
      ensures faults == old(faults) && old(InSync()) ==> InSync()
      ensures faults == old(faults) && old(directSampling) >= 0 ==> freq == old(freq)
      ensures directSamplingMode != 0 ==> directSampling == old(directSampling)
      ensures old(tunes) <= tunes <= old(tunes) + 3
      ensures NoneFails(old(script)) ==> faults == old(faults) && NoneFails(script)
    {
      hide NoneFails, TuneOutcome, AutoMode, LoFor, PassbandFor, ToInt32;
      hide Resampler.RatioWord, Resampler.Scaled;
      ok := true;
      rtlXtal := rtlFreq;
      if rate != 0 {
        ok := SetSampleRate(rate);
      }
    }

    /** The second part of rtlsdr_set_xtal_freq: a new tuner crystal makes the tuner retune. */
    method SetTunerXtal(tunerFreq: uint32, before: bool) returns (ok: bool)
      requires Valid()
      modifies this`freq, this`directSampling, this`intFreq, this`lastIf, this`lastLo, this`faults, this`script,
               this`tunes, this`lastFilter, this`tunXtal
      ensures Valid() && (old(AutoChosen()) ==> AutoChosen())
      ensures faults >= old(faults)
      ensures tunXtal == if tunerFreq == 0 then rtlXtal else tunerFreq
      ensures old(freq) == 0 ==> ok == before
      ensures old(freq) != 0 ==> tunes > old(tunes)
      ensures old(freq) != 0 && faults == old(faults) && old(directSampling) >= 0 ==> ok
      ensures faults == old(faults) && old(InSync()) ==> InSync()
      ensures faults == old(faults) && old(directSampling) >= 0 ==> freq == old(freq)
      ensures old(tunes) <= tunes <= old(tunes) + 3
      ensures NoneFails(old(script)) ==> faults == old(faults) && NoneFails(script)
    {
      hide NoneFails, TuneOutcome, AutoMode, LoFor;
      ok := before;
      tunXtal := if tunerFreq == 0 then rtlXtal else tunerFreq;
      if freq != 0 {
        ok := SetCenterFreq(freq);
      }
    }

    predicate XtalRefused(rtlFreq: uint32) {
      rtlFreq > 0 && (rtlFreq < 28_799_000 || rtlFreq > 28_801_000)
    }

    method SetXtalFreq(rtlFreq: uint32, tunerFreq: uint32) returns (ok: bool)
      requires Valid()
      modifies this`freq, this`directSampling, this`intFreq, this`lastIf, this`lastLo, this`faults, this`script,
               this`tunes, this`lastFilter, this`rate, this`rtlXtal, this`tunXtal, this`lastRatio, this`lastCorr
      ensures Valid() && (old(AutoChosen()) ==> AutoChosen())
      ensures faults >= old(faults)
      ensures XtalRefused(rtlFreq) ==> !ok && unchanged(this)
      ensures !XtalRefused(rtlFreq) ==>
                rtlXtal == (if rtlFreq > 0 then rtlFreq else old(rtlXtal))
                && tunXtal == (if tunerFreq == 0 && old(tunXtal) != 0 then rtlXtal else tunerFreq)
      ensures !XtalRefused(rtlFreq) && old(tunXtal) != tunerFreq && old(freq) != 0 && faults == old(faults) ==>
                old(directSampling) >= 0 ==> ok && tunes > old(tunes)
      ensures !XtalRefused(rtlFreq) && rtlFreq > 0 && old(rtlXtal) != rtlFreq && Resampler.Accepted(old(rate))
              && faults == old(faults) ==>
                lastRatio == Resampler.RatioWord(Resampler.Quotient(rtlFreq, old(rate))) && lastCorr == corr
      ensures rtlFreq == 0 || old(rtlXtal) == rtlFreq || old(rate) == 0 ==>
                rate == old(rate) && lastRatio == old(lastRatio) && lastCorr == old(lastCorr)
      ensures faults == old(faults) && old(lastCorr == corr) ==> lastCorr == corr
      ensures faults == old(faults) && old(InSync()) ==> InSync()
      ensures faults == old(faults) && old(directSampling) >= 0 ==> freq == old(freq)
      ensures tunes <= old(tunes) + 6
      ensures NoneFails(old(script)) ==> faults == old(faults) && NoneFails(script)
    {
      hide NoneFails, TuneOutcome, AutoMode, LoFor, InSync, AutoChosen, Resampler.RatioWord, Resampler.Scaled;
      ok := true;
      if rtlFreq > 0 && (rtlFreq < Resampler.MIN_XTAL || rtlFreq > Resampler.MAX_XTAL) {
        return false;
      }
      if rtlFreq > 0 && rtlXtal != rtlFreq {
        ok := SetRtlXtal(rtlFreq);
      }
      if tunXtal != tunerFreq {
        ok := SetTunerXtal(tunerFreq, ok);
      }
    }

    /** The user's choice is remembered before the switch is made. */
    method SetDirectSampling(on: int) returns (ok: bool)
      requires Valid()
      modifies this`freq, this`directSampling, this`intFreq, this`lastIf, this`lastLo, this`faults, this`script,
               this`tunes, this`lastFilter, this`directSamplingMode
      ensures Valid() && directSamplingMode == on
      ensures AutoChosen() && faults >= old(faults)
      ensures on >= 0 && faults == old(faults) ==> ok && InSync() && freq == old(freq)
      ensures on > 0 && ok ==> faults == old(faults)
      ensures on < 0 ==> !ok && directSampling == on && freq == old(freq)
      ensures tunes <= old(tunes) + 3
      ensures NoneFails(old(script)) ==> faults == old(faults) && NoneFails(script)
    {
      directSamplingMode := on;
      ok := SwitchDirectSampling(on);
    }

    function Settings(): User
      reads this
    {
      User(freq, directSamplingMode, corr, bw, rtlXtal)
    }

    /** One API call. */
    method Apply(c: Command)
      requires Valid()
      modifies this
      ensures Valid()
      ensures faults == old(faults) && old(directSampling) >= 0 ==> Settings() == After(c, old(Settings()))
      ensures faults >= old(faults)
      ensures old(AutoChosen()) ==> AutoChosen()
      ensures faults == old(faults) && old(InSync()) ==> InSync()
      ensures faults == old(faults) && old(lastCorr == corr) ==> lastCorr == corr
      ensures tunes <= old(tunes) + 6
      ensures NoneFails(old(script)) ==> faults == old(faults) && NoneFails(script)
    {
      hide AutoMode, LoFor, NoneFails, TuneOutcome;
      match c {
        case Tune(f) => var ok := SetCenterFreq(f);
        case Bandwidth(b) => var ok := SetTunerBandwidth(b);
        case SampleRate(r) => var ok := SetSampleRate(r);
        case Correction(p) => var ok := SetFreqCorrection(p);
        case Xtal(r, t) => var ok := SetXtalFreq(r, t);
        case DirectSampling(on) => var ok := SetDirectSampling(on);
      }
    }

    /**
     Every run of API calls: the automatic choice always fits the frequency, and as
     long as no access has failed the hardware agrees with the fields, which are the
     user's latest settings.
     */
    method Run(cmds: seq<Command>)
      requires Valid() && AutoChosen()
      modifies this
      ensures Valid()
      ensures faults == old(faults) && old(directSampling) >= 0 && SensibleModes(cmds) ==>
                Settings() == AfterAll(cmds, old(Settings()))
      ensures AutoChosen()
      ensures faults >= old(faults)
      ensures faults == old(faults) && old(InSync()) ==> InSync()
      ensures faults == old(faults) && old(lastCorr == corr) ==> lastCorr == corr
      ensures NoneFails(old(script)) ==> faults == old(faults) && NoneFails(script)
    {
      for i := 0 to |cmds|
        invariant Valid() && faults >= old(faults)
        invariant NoneFails(old(script)) ==> faults == old(faults) && NoneFails(script)
        invariant faults == old(faults) && old(directSampling) >= 0 && SensibleModes(cmds) ==>
                    directSampling >= 0 && Settings() == AfterAll(cmds[..i], old(Settings()))
        invariant AutoChosen()
        invariant faults == old(faults) && old(InSync()) ==> InSync()
        invariant faults == old(faults) && old(lastCorr == corr) ==> lastCorr == corr
      {
        assert cmds[..i + 1][..i] == cmds[..i] && cmds[i] in cmds;
        Apply(cmds[i]);
      }
      assert cmds[..|cmds|] == cmds;
    }
  }

  method SearchLowPass(bw: int) returns (i: nat)
    requires bw <= LOW_PASS[0]
    ensures i == LowPassIndex(bw, 1)
  {
    i := 0;
    while i < |LOW_PASS| && !(bw > LOW_PASS[i])
      invariant i <= |LOW_PASS|
      invariant i > 0 ==> LowPassIndex(bw, i) == LowPassIndex(bw, 1)
    {
      i := i + 1;
    }
    i := i - 1;
  }
}
