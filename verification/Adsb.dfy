/**
 The ADS-B demodulator of rtl_adsb: what one Manchester cell decodes to, the
 preamble, and the meaning of the in-place demodulator and of the framer as
 functions of the samples they were given.
 */
module AdsbSpec {
  import opened CInts

  const MESSAGEGO: uint16 := 253
  const OVERWRITE: uint16 := 254
  const BADSAMPLE: uint16 := 255
  const PREAMBLE_LEN := 16
  const LONG_FRAME := 112
  const SHORT_FRAME := 56

  /** The settings. */
  datatype Config = Config(quality: int, allowedErrors: int)

  function Bit(c: uint16, d: uint16): uint16 {
    if c > d then 1 else 0
  }

  /** Two consecutive cells (a, b) and (c, d): the bit of the second, or BADSAMPLE. */
  function SingleManchester(quality: int, a: uint16, b: uint16, c: uint16, d: uint16): (r: uint16)
    ensures r == BADSAMPLE || r == Bit(c, d)
  {
    var bitP, bit := a > b, c > d;
    if quality == 0 then Bit(c, d)
    else if quality == 5 then
      if (bit && bitP && b > c) || (!bit && !bitP && b < c) then BADSAMPLE else Bit(c, d)
    else if quality == 10 then
      if bit && bitP && c > b then 1
      else if bit && !bitP && d < b then 1
      else if !bit && bitP && d > b then 0
      else if !bit && !bitP && c < b then 0
      else BADSAMPLE
    else
      if bit && bitP && c > b && d < a then 1
      else if bit && !bitP && c > a && d < b then 1
      else if !bit && bitP && c < a && d > b then 0
      else if !bit && !bitP && c < b && d > a then 0
      else BADSAMPLE
  }

  // ----- preamble

  predicate IsPulse(k: nat) {
    k == 0 || k == 2 || k == 7 || k == 9
  }

  /** The latest pulse and the latest gap among the first k samples from i. */
  function LatestPulse(s: seq<uint16>, i: nat, k: nat): uint16
    requires i + k <= |s|
  {
    if k == 0 then 65535 else if IsPulse(k - 1) then s[i + k - 1] else LatestPulse(s, i, k - 1)
  }

  function LatestGap(s: seq<uint16>, i: nat, k: nat): uint16
    requires i + k <= |s|
  {
    if k == 0 then 0 else if IsPulse(k - 1) then LatestGap(s, i, k - 1) else s[i + k - 1]
  }

  predicate PreambleAt(s: seq<uint16>, i: nat) {
    i + PREAMBLE_LEN <= |s| &&
    forall k | 0 < k <= PREAMBLE_LEN :: LatestPulse(s, i, k) > LatestGap(s, i, k)
  }

  // ----- demodulation

  /**
   Decoding cell after cell from one position: the bits, where reading stopped, the
   last cell remembered, and whether the encoding broke.
   */
  datatype Run = Run(bits: seq<uint16>, next: nat, a: uint16, b: uint16, broken: bool)

  function DecodeRun(cfg: Config, s: seq<uint16>, i: nat, a: uint16, b: uint16, errors: nat): (r: Run)
    requires i <= |s|
    ensures r.next == i + 2 * |r.bits| && r.next <= |s|
    ensures i + 1 < |s| && errors < cfg.allowedErrors ==> |r.bits| > 0
    decreases |s| - i
  {
    if i + 1 >= |s| then Run([], i, a, b, false)
    else
      var bit := SingleManchester(cfg.quality, a, b, s[i], s[i + 1]);
      if bit == BADSAMPLE then
        if errors + 1 > cfg.allowedErrors then Run([], i, s[i], s[i + 1], true)
        else
          var r := DecodeRun(cfg, s, i + 2, 0, 65535, errors + 1);
          r.(bits := [Bit(s[i], s[i + 1])] + r.bits)
      else
        var r := DecodeRun(cfg, s, i + 2, s[i], s[i + 1], errors);
        r.(bits := [bit] + r.bits)
  }

  function Fill(n: nat, v: uint16): (r: seq<uint16>)
    ensures |r| == n
  {
    seq(n, _ => v)
  }

  /** What a run leaves where it read: its bits, then markers. */
  function Compacted(r: Run): (c: seq<uint16>)
    ensures |c| == 2 * |r.bits|
  {
    var n := |r.bits|;
    var marks := Fill(n, OVERWRITE);
    r.bits + if r.broken && n > 0 then marks[0 := BADSAMPLE] else marks
  }

  /** The first preamble at or after i that the search examines, or where the search gives up. */
  function Search(s: seq<uint16>, i: nat): (j: nat)
    ensures i <= j && (j == i || j + PREAMBLE_LEN <= |s|)
    decreases |s| - i
  {
    if i + PREAMBLE_LEN < |s| && !PreambleAt(s, i) then Search(s, i + 1) else i
  }

  /** Where marking starts after a search from i: past a preamble, which becomes markers, or where it gave up. */
  datatype Found = Found(head: seq<uint16>, start: nat, a: uint16, b: uint16)

  function FindFrom(s: seq<uint16>, i: nat, a: uint16, b: uint16): (f: Found)
    requires i <= |s|
    ensures f.start == i + |f.head| && f.start <= |s|
    ensures f.start == i || i + PREAMBLE_LEN <= f.start < |s| || (f.start + PREAMBLE_LEN == |s|)
  {
    var j := Search(s, i);
    if j + PREAMBLE_LEN < |s| then Found(s[i..j] + Fill(PREAMBLE_LEN, MESSAGEGO), j + PREAMBLE_LEN, s[j], s[j + 1])
    else Found(s[i..j], j, a, b)
  }

  /** Everything the demodulator leaves from position i on, given the samples and the remembered cell. */
  function Demod(cfg: Config, s: seq<uint16>, i: nat, a: uint16, b: uint16): (r: seq<uint16>)
    requires cfg.allowedErrors >= 1 && i <= |s|
    ensures |r| == |s| - i
    decreases |s| - i
  {
    if i + 1 >= |s| then s[i..]
    else
      var f := FindFrom(s, i, a, b);
      var r := DecodeRun(cfg, s, f.start, f.a, f.b, 0);
      f.head + Compacted(r) + Demod(cfg, s, r.next, r.a, r.b)
  }

  // ----- framing

  /** x | (1 << shift) */
  function SetBit(x: nat, shift: nat): nat {
    if x / Pow2(shift) % 2 == 1 then x else x + Pow2(shift)
  }

  datatype Collected = Collected(frame: seq<nat>, dataI: nat, frameLen: nat, next: nat)

  /** The inner loop of messages: bits into bytes until a marker, the frame's end, or an empty first byte. */
  function Collect(s: seq<uint16>, i: nat, frame: seq<nat>, dataI: nat, frameLen: nat): (r: Collected)
    requires |frame| == 14 && frameLen <= LONG_FRAME && dataI <= frameLen
    ensures |r.frame| == 14 && r.next >= i
    decreases |s| - i
  {
    if i < |s| && s[i] <= 1 && dataI < frameLen then
      var f := if s[i] != 0 then frame[dataI / 8 := SetBit(frame[dataI / 8], 7 - dataI % 8)] else frame;
      if dataI == 7 then
        if f[0] == 0 then Collected(f, dataI, frameLen, i)
        else Collect(s, i + 1, f, dataI + 1, if f[0] / 128 % 2 == 1 then LONG_FRAME else SHORT_FRAME)
      else Collect(s, i + 1, f, dataI + 1, frameLen)
    else Collected(frame, dataI, frameLen, i)
  }

  function EmptyFrame(): (r: seq<nat>)
    ensures |r| == 14
  {
    seq(14, _ => 0)
  }

  datatype Shown = Shown(bytes: seq<nat>, len: nat)

  /** The frames handed to display, in order, from position i on. */
  function Frames(s: seq<uint16>, i: nat): seq<Shown>
    decreases |s| - i
  {
    if i >= |s| then []
    else if s[i] > 1 then Frames(s, i + 1)
    else
      var c := Collect(s, i, EmptyFrame(), 0, LONG_FRAME);
      if c.dataI + 1 < c.frameLen then Frames(s, c.next + 1)
      else [Shown(c.frame, c.frameLen)] + Frames(s, c.next + 1)
  }
}
