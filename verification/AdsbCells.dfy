/**
 What the tests of the demodulator say about the samples: which sixteen of them are a
 preamble, which cells are rejected, and where a run of cells breaks.
 */
module AdsbCells {
  import opened CInts
  import opened AdsbSpec

  // ----- what a preamble is

  /** Offset of the latest pulse, and of the latest gap, among the first k samples of a preamble. */
  function PulseBefore(k: nat): nat {
    if k < 3 then 0 else if k < 8 then 2 else if k < 10 then 7 else 9
  }

  function GapBefore(k: nat): nat
    requires k >= 2
  {
    if k == 3 then 1 else if k == 8 then 6 else if k == 10 then 8 else k - 1
  }

  lemma {:induction false} LatestValues(s: seq<uint16>, i: nat, k: nat)
    requires 0 < k <= PREAMBLE_LEN && i + PREAMBLE_LEN <= |s|
    ensures LatestPulse(s, i, k) == s[i + PulseBefore(k)]
    ensures LatestGap(s, i, k) == if k < 2 then 0 else s[i + GapBefore(k)]
  {
    if k > 1 {
      LatestValues(s, i, k - 1);
    }
  }

  /** The preamble test says exactly that the pulses at 0, 2, 7 and 9 stand above the gaps around them. */
  lemma {:induction false} PreambleMeaning(s: seq<uint16>, i: nat)
    requires i + PREAMBLE_LEN <= |s|
    ensures PreambleAt(s, i) <==>
              s[i] > 0 && s[i] > s[i + 1] && s[i + 2] > s[i + 1] &&
              s[i + 2] > s[i + 3] && s[i + 2] > s[i + 4] && s[i + 2] > s[i + 5] && s[i + 2] > s[i + 6] &&
              s[i + 7] > s[i + 6] && s[i + 7] > s[i + 8] && s[i + 9] > s[i + 8] &&
              s[i + 9] > s[i + 10] && s[i + 9] > s[i + 11] && s[i + 9] > s[i + 12] &&
              s[i + 9] > s[i + 13] && s[i + 9] > s[i + 14] && s[i + 9] > s[i + 15]
  {
    forall k: nat | 0 < k <= PREAMBLE_LEN
      ensures LatestPulse(s, i, k) == s[i + PulseBefore(k)]
      ensures LatestGap(s, i, k) == if k < 2 then 0 else s[i + GapBefore(k)]
    {
      LatestValues(s, i, k);
    }
    if PreambleAt(s, i) {
      var above := k requires 0 < k <= PREAMBLE_LEN => LatestPulse(s, i, k) > LatestGap(s, i, k);
      assert above(1) && above(2) && above(3) && above(4) && above(5) && above(6) && above(7) && above(8);
      assert above(9) && above(10) && above(11) && above(12) && above(13) && above(14) && above(15) && above(16);
    }
  }

  // ----- decoding cells

  function Max(a: uint16, b: uint16): uint16 {
    if a > b then a else b
  }

  function Min(a: uint16, b: uint16): uint16 {
    if a > b then b else a
  }

  /** Each cell's high sample stands above the other cell's low one. */
  predicate Separated(a: uint16, b: uint16, c: uint16, d: uint16) {
    Max(a, b) > Min(c, d) && Max(c, d) > Min(a, b)
  }

  /** After a separated cell, or after the neutral pair left by a tolerated error, a cell decodes under every
      quality. */
  lemma {:induction false} CellDecodes(quality: int, a: uint16, b: uint16, c: uint16, d: uint16)
    requires c != d && (Separated(a, b, c, d) || (a == 0 && b == 65535))
    ensures SingleManchester(quality, a, b, c, d) == Bit(c, d)
  {
  }

  /** The cells that are not taken for a bit after (a, b), by what the samples are to each other. */
  predicate Rejects(quality: int, a: uint16, b: uint16, c: uint16, d: uint16) {
    if quality == 0 then false
    else if quality == 5 then if a > b then d < c < b else b < c <= d
    else if quality == 10 then !(if a > b then Max(c, d) > b else Min(c, d) < b)
    else !Separated(a, b, c, d)
  }

  /** At quality 5 a repeated bit may not drift towards the other one; 10 compares with b alone; others separate. */
  lemma {:induction false} RejectedIff(quality: int, a: uint16, b: uint16, c: uint16, d: uint16)
    ensures SingleManchester(quality, a, b, c, d) == BADSAMPLE <==> Rejects(quality, a, b, c, d)
    ensures SingleManchester(quality, a, b, c, d) != BADSAMPLE ==>
              SingleManchester(quality, a, b, c, d) == if c > d then 1 else 0
  {
  }

  // ----- runs of cells

  /** The pair remembered before cell n: the cell before it, or (0, 65535) if that was rejected. */
  function Remembered(q: int, s: seq<uint16>, i: nat, a: uint16, b: uint16, n: nat): (uint16, uint16)
    requires i + 2 * n <= |s|
    decreases n, 0
  {
    if n == 0 then (a, b)
    else if RejectedAt(q, s, i, a, b, n - 1) then (0, 65535)
    else (s[i + 2 * n - 2], s[i + 2 * n - 1])
  }

  predicate RejectedAt(q: int, s: seq<uint16>, i: nat, a: uint16, b: uint16, n: nat)
    requires i + 2 * n + 2 <= |s|
    decreases n, 1
  {
    var m := Remembered(q, s, i, a, b, n);
    Rejects(q, m.0, m.1, s[i + 2 * n], s[i + 2 * n + 1])
  }

  /** How many of the first n cells from i on are rejected. */
  function Rejections(q: int, s: seq<uint16>, i: nat, a: uint16, b: uint16, n: nat): nat
    requires i + 2 * n <= |s|
  {
    if n == 0 then 0
    else Rejections(q, s, i, a, b, n - 1) + if RejectedAt(q, s, i, a, b, n - 1) then 1 else 0
  }

  /** Seen from the second cell on. */
  lemma {:induction false} RememberedShift(q: int, s: seq<uint16>, i: nat, a: uint16, b: uint16, n: nat)
    requires i + 2 * n + 2 <= |s|
    ensures var m := Remembered(q, s, i, a, b, 1);
            Remembered(q, s, i + 2, m.0, m.1, n) == Remembered(q, s, i, a, b, n + 1)
  {
    hide Rejects;
    if n > 0 {
      RememberedShift(q, s, i, a, b, n - 1);
    }
  }

  lemma {:induction false} RejectionsShift(q: int, s: seq<uint16>, i: nat, a: uint16, b: uint16, n: nat)
    requires i + 2 * n + 2 <= |s|
    ensures var m := Remembered(q, s, i, a, b, 1);
            Rejections(q, s, i, a, b, n + 1) == Rejections(q, s, i, a, b, 1) + Rejections(q, s, i + 2, m.0, m.1, n)
  {
    hide Rejects, Remembered;
    if n > 0 {
      RememberedShift(q, s, i, a, b, n - 1);
      RejectionsShift(q, s, i, a, b, n - 1);
    }
  }

  lemma {:induction false} RejectionsGrow(q: int, s: seq<uint16>, i: nat, a: uint16, b: uint16, m: nat, n: nat)
    requires m <= n && i + 2 * n <= |s|
    ensures Rejections(q, s, i, a, b, m) <= Rejections(q, s, i, a, b, n)
    decreases n
  {
    hide RejectedAt;
    if m < n {
      RejectionsGrow(q, s, i, a, b, m, n - 1);
    }
  }

  function Limit(cfg: Config, errors: nat): nat {
    if cfg.allowedErrors > errors then cfg.allowedErrors - errors else 0
  }

  /** Before the last cell that run r reads at most `limit` were rejected; it broke at the one more. */
  predicate BreaksPast(q: int, s: seq<uint16>, i: nat, a: uint16, b: uint16, limit: nat, r: Run)
    requires i <= |s| && i + 2 * |r.bits| <= |s|
  {
    var cells, n := (|s| - i) / 2, |r.bits|;
    Rejections(q, s, i, a, b, n) <= limit &&
    (r.broken <==> Rejections(q, s, i, a, b, cells) > limit) &&
    (r.broken ==> n < cells && Rejections(q, s, i, a, b, n + 1) == limit + 1) &&
    (!r.broken ==> n == cells)
  }

  lemma {:induction false} FirstCell(cfg: Config, s: seq<uint16>, i: nat, a: uint16, b: uint16)
    requires i + 1 < |s|
    ensures var m := Remembered(cfg.quality, s, i, a, b, 1);
            var bad := SingleManchester(cfg.quality, a, b, s[i], s[i + 1]) == BADSAMPLE;
            Rejections(cfg.quality, s, i, a, b, 1) == (if bad then 1 else 0) &&
            m == if bad then (0, 65535) else (s[i], s[i + 1])
  {
    hide SingleManchester, Rejects;
    RejectedIff(cfg.quality, a, b, s[i], s[i + 1]);
    assert Remembered(cfg.quality, s, i, a, b, 0) == (a, b);
    assert Rejections(cfg.quality, s, i, a, b, 0) == 0;
  }

  lemma {:induction false} LaterBreak(q: int, s: seq<uint16>, i: nat, a: uint16, b: uint16, limit: nat, r: Run, t: Run)
    requires i + 1 < |s| && i + 2 + 2 * |t.bits| <= |s| && |r.bits| == |t.bits| + 1 && r.broken == t.broken
    requires var m := Remembered(q, s, i, a, b, 1);
             Rejections(q, s, i, a, b, 1) <= limit &&
             BreaksPast(q, s, i + 2, m.0, m.1, limit - Rejections(q, s, i, a, b, 1), t)
    ensures BreaksPast(q, s, i, a, b, limit, r)
  {
    hide Rejections, Remembered;
    var n, cells := |t.bits|, (|s| - i) / 2;
    RejectionsShift(q, s, i, a, b, n);
    if n + 1 < cells {
      RejectionsShift(q, s, i, a, b, n + 1);
    }
    RejectionsShift(q, s, i, a, b, cells - 1);
  }

  lemma {:induction false} RunBreaksFrom(cfg: Config, s: seq<uint16>, i: nat, a: uint16, b: uint16, errors: nat)
    requires i <= |s|
    ensures BreaksPast(cfg.quality, s, i, a, b, Limit(cfg, errors), DecodeRun(cfg, s, i, a, b, errors))
    decreases |s| - i
  {
    hide SingleManchester, Remembered, RejectedAt, BreaksPast;
    var r := DecodeRun(cfg, s, i, a, b, errors);
    if i + 1 < |s| {
      FirstCell(cfg, s, i, a, b);
      if SingleManchester(cfg.quality, a, b, s[i], s[i + 1]) != BADSAMPLE {
        RunBreaksFrom(cfg, s, i + 2, s[i], s[i + 1], errors);
        LaterBreak(cfg.quality, s, i, a, b, Limit(cfg, errors), r,
                   DecodeRun(cfg, s, i + 2, s[i], s[i + 1], errors));
      } else if errors + 1 <= cfg.allowedErrors {
        RunBreaksFrom(cfg, s, i + 2, 0, 65535, errors + 1);
        LaterBreak(cfg.quality, s, i, a, b, Limit(cfg, errors), r, DecodeRun(cfg, s, i + 2, 0, 65535, errors + 1));
      } else {
        BreaksAtOnce(cfg.quality, s, i, a, b, r);
      }
    } else {
      NoCells(cfg.quality, s, i, a, b, Limit(cfg, errors), r);
    }
  }

  lemma {:induction false} BreaksAtOnce(q: int, s: seq<uint16>, i: nat, a: uint16, b: uint16, r: Run)
    requires i + 1 < |s| && r.bits == [] && r.broken && Rejections(q, s, i, a, b, 1) == 1
    ensures BreaksPast(q, s, i, a, b, 0, r)
  {
    RejectionsGrow(q, s, i, a, b, 1, (|s| - i) / 2);
  }

  lemma {:induction false} NoCells(q: int, s: seq<uint16>, i: nat, a: uint16, b: uint16, limit: nat, r: Run)
    requires i <= |s| <= i + 1 && r.bits == [] && !r.broken
    ensures BreaksPast(q, s, i, a, b, limit, r)
  {
  }

  /**
   A run breaks exactly if more cells up to the end of the buffer are rejected than errors are allowed (a negative
   number allows none), and then at the first cell too many; otherwise it reads every cell that is left.
   */
  lemma {:induction false} RunBreaksIff(cfg: Config, s: seq<uint16>, i: nat, a: uint16, b: uint16)
    requires i <= |s|
    ensures var q, r, cells := cfg.quality, DecodeRun(cfg, s, i, a, b, 0), (|s| - i) / 2;
            var n, allowed := |r.bits|, if cfg.allowedErrors > 0 then cfg.allowedErrors else 0;
            (r.broken <==> Rejections(q, s, i, a, b, cells) > allowed) &&
            Rejections(q, s, i, a, b, n) <= allowed &&
            (r.broken ==> n < cells && Rejections(q, s, i, a, b, n + 1) == allowed + 1) &&
            (!r.broken ==> n == cells)
  {
    hide DecodeRun, Rejections;
    RunBreaksFrom(cfg, s, i, a, b, 0);
  }

  /** Every cell read gives its own bit, whatever was tolerated. */
  lemma {:induction false} RunBits(cfg: Config, s: seq<uint16>, i: nat, a: uint16, b: uint16, errors: nat, k: nat)
    requires i <= |s| && k < |DecodeRun(cfg, s, i, a, b, errors).bits|
    ensures DecodeRun(cfg, s, i, a, b, errors).bits[k] == if s[i + 2 * k] > s[i + 2 * k + 1] then 1 else 0
    decreases |s| - i
  {
    hide SingleManchester;
    if k > 0 {
      if SingleManchester(cfg.quality, a, b, s[i], s[i + 1]) == BADSAMPLE {
        RunBits(cfg, s, i + 2, 0, 65535, errors + 1, k - 1);
      } else {
        RunBits(cfg, s, i + 2, s[i], s[i + 1], errors, k - 1);
      }
    }
  }
}
