/** The half-band decimator of rtl_fm (fifth_order) on the samples of one channel. */
module HalfBandSpec {
  import opened CInts

  /** The most passes there are histories for. */
  const PASSES := 10

  /** The six samples a pass leaves behind for the next buffer. */
  type Hist = h: seq<int16> | |h| == 6 witness [0, 0, 0, 0, 0, 0]

  /** The six taps 1, 5, 10, 10, 5, 1. */
  function Taps(a: int, b: int, c: int, d: int, e: int, f: int): int {
    a + (b + e) * 5 + (c + d) * 10 + f
  }

  /** The samples a pass sees: the last five of its history, then its buffer. */
  function At(h: Hist, x: seq<int16>, j: nat): int16
    requires j < 5 + |x|
  {
    if j < 5 then h[j + 1] else x[j - 5]
  }

  /** The six samples from position 2k on. */
  function WindowAt(h: Hist, x: seq<int16>, k: nat): Hist
    requires 2 * k < |x|
  {
    [At(h, x, 2 * k), At(h, x, 2 * k + 1), At(h, x, 2 * k + 2),
     At(h, x, 2 * k + 3), At(h, x, 2 * k + 4), At(h, x, 2 * k + 5)]
  }

  function TapsOf(w: Hist): int {
    Taps(w[0], w[1], w[2], w[3], w[4], w[5])
  }

  /** Output k: the weighted window, shifted right by 4. */
  function Output(h: Hist, x: seq<int16>, k: nat): int16
    requires 2 * k < |x|
  {
    Wrap16(TapsOf(WindowAt(h, x, k)) / 16)
  }

  function HalfBand(h: Hist, x: seq<int16>): (y: seq<int16>)
    ensures |y| == (|x| + 1) / 2
  {
    seq((|x| + 1) / 2, k requires 0 <= k < (|x| + 1) / 2 => Output(h, x, k))
  }

  /** What is archived: the last window that was used. */
  function Archive(h: Hist, x: seq<int16>): Hist
    requires x != []
  {
    WindowAt(h, x, (|x| - 1) / 2)
  }

  /** What a sample of 16 * u gives t places before the end of the window: u times 1, 5, 10, 10, 5, 1. */
  function Response(t: int, u: nat): (r: nat)
    ensures r <= 10 * u
  {
    if t == 0 || t == 5 then u else if t == 1 || t == 4 then 5 * u else if t == 2 || t == 3 then 10 * u else 0
  }

  /** The response of a resting pass to a single sample, as the window slides over it. */
  lemma {:induction false} ImpulseResponse(x: seq<int16>, at: nat, u: nat, k: nat)
    requires Impulse(x, at, u) && 2 * k < |x|
    ensures HalfBand(REST, x)[k] as int == Response(at + 5 - 2 * k, u)
  {
    hide Taps, Response;
    var t := at + 5 - 2 * k;
    var w := WindowAt(REST, x, k);
    assert x[at] as int == 16 * u;
    ImpulseAt(x, at, u, 2 * k);
    ImpulseAt(x, at, u, 2 * k + 1);
    ImpulseAt(x, at, u, 2 * k + 2);
    ImpulseAt(x, at, u, 2 * k + 3);
    ImpulseAt(x, at, u, 2 * k + 4);
    ImpulseAt(x, at, u, 2 * k + 5);
    ImpulseTaps(w, t, u);
    ScaledStore(TapsOf(w), Response(t, u));
  }

  lemma {:induction false} ImpulseAt(x: seq<int16>, at: nat, u: nat, j: nat)
    requires Impulse(x, at, u) && j < 5 + |x|
    ensures At(REST, x, j) as int == if j == at + 5 then 16 * u else 0
  {
  }

  lemma {:induction false} ImpulseTaps(w: Hist, t: int, u: nat)
    requires w[0] as int == (if t == 0 then 16 * u else 0) && w[1] as int == (if t == 1 then 16 * u else 0)
    requires w[2] as int == (if t == 2 then 16 * u else 0) && w[3] as int == (if t == 3 then 16 * u else 0)
    requires w[4] as int == (if t == 4 then 16 * u else 0) && w[5] as int == (if t == 5 then 16 * u else 0)
    ensures TapsOf(w) == 16 * Response(t, u)
  {
  }

  /** The last sample of a buffer with an even number of them reaches neither an output nor the
      history, so a pass is not invariant under cutting its stream differently. */
  lemma {:induction false} LastSampleIgnored(h: Hist, x: seq<int16>, v: int16)
    requires x != [] && |x| % 2 == 0
    ensures HalfBand(h, x[|x| - 1 := v]) == HalfBand(h, x)
    ensures Archive(h, x[|x| - 1 := v]) == Archive(h, x)
  {
    var z := x[|x| - 1 := v];
    forall k | 0 <= k < (|x| + 1) / 2
      ensures HalfBand(h, z)[k] == HalfBand(h, x)[k]
    {
      assert HalfBand(h, z)[k] == Output(h, z, k);
      assert HalfBand(h, x)[k] == Output(h, x, k);
    }
  }

  /** ... and with an odd number of samples none is lost. */
  lemma {:induction false} LastSampleArchived(h: Hist, x: seq<int16>)
    requires |x| % 2 == 1
    ensures Archive(h, x)[5] == x[|x| - 1]
  {
  }

  /** The window that the next buffer starts with: the last five samples of the stream up to the last one that
      was not ignored, and the first new one. */
  lemma {:induction false} CarriesOver(h: Hist, x: seq<int16>, y: seq<int16>)
    requires x != [] && y != []
    ensures var stream, end := h[1..] + x, |x| - 1 + |x| % 2;
            end + 5 <= |stream| && WindowAt(Archive(h, x), y, 0) == stream[end..end + 5] + [y[0]]
  {
  }

  // ----- how a pass depends on the cutting of its stream

  function Silence(n: nat): (x: seq<int16>)
    ensures |x| == n
  {
    seq(n, _ => 0)
  }

  const REST: Hist := [0, 0, 0, 0, 0, 0]

  /** The stream x + y in one buffer, and cut in two. */
  function Whole(h: Hist, x: seq<int16>, y: seq<int16>): seq<int16> {
    HalfBand(h, x + y)
  }

  function Cut(h: Hist, x: seq<int16>, y: seq<int16>): seq<int16>
    requires x != []
  {
    HalfBand(h, x) + HalfBand(Archive(h, x), y)
  }

  predicate Silent(x: seq<int16>) {
    forall j :: 0 <= j < |x| ==> x[j] == 0
  }

  /** x is silent but for one sample of 16 * u. */
  predicate Impulse(x: seq<int16>, at: nat, u: nat) {
    at < |x| && x[at] == 16 * u && forall j :: 0 <= j < |x| && j != at ==> x[j] == 0
  }

  lemma {:induction false} SilentWindow(h: Hist, x: seq<int16>, k: nat)
    requires Silent(h) && Silent(x) && 2 * k < |x|
    ensures Silent(WindowAt(h, x, k))
  {
  }

  lemma {:induction false} ScaledStore(t: int, v: int)
    requires t == 16 * v && -0x8000 <= v < 0x8000
    ensures Wrap16(t / 16) == v
  {
  }

  /** As the fifth sample of a window the impulse weighs 5, as the sixth 1. */
  lemma {:induction false} ImpulseOutput(h: Hist, x: seq<int16>, at: nat, u: nat, k: nat)
    requires Silent(h) && Impulse(x, at, u) && 2 * k < |x| && 1 <= u <= 2
    ensures at == 2 * k - 1 ==> Output(h, x, k) == 5 * u
    ensures at == 2 * k ==> Output(h, x, k) == u
  {
    var w := WindowAt(h, x, k);
    if at == 2 * k - 1 {
      assert TapsOf(w) == 80 * u;
      ScaledStore(TapsOf(w), 5 * u);
    } else if at == 2 * k {
      assert TapsOf(w) == 16 * u;
      ScaledStore(TapsOf(w), u);
    }
  }

  predicate CutKeeps(h: Hist, x: seq<int16>, y: seq<int16>)
    requires x != []
  {
    Whole(h, x, y) == Cut(h, x, y)
  }

  lemma {:induction false} LastShows(x: seq<int16>, y: seq<int16>, u: nat, k: nat)
    requires |x| == 2 * k > 0 && y != [] && Silent(y) && Impulse(x, |x| - 1, u) && 1 <= u <= 2
    ensures k < |Whole(REST, x, y)| && Whole(REST, x, y)[k] == 5 * u
  {
    assert Impulse(x + y, |x| - 1, u);
    ImpulseOutput(REST, x + y, |x| - 1, u, k);
  }

  /** After an even number of samples, the last one shows in the whole stream but not in the cut one. */
  lemma {:induction false} EvenCutDiffers(n: nat, m: nat)
    requires n > 0 && n % 2 == 0 && m > 0
    ensures var x, y := Silence(n)[n - 1 := 16], Silence(m); !CutKeeps(REST, x, y) || !CutKeeps(REST, x[n - 1 := 32], y)
  {
    hide Archive, HalfBand;
    var x, y := Silence(n)[n - 1 := 16], Silence(m);
    LastSampleIgnored(REST, x, 32);
    LastShows(x, y, 1, n / 2);
    LastShows(x[n - 1 := 32], y, 2, n / 2);
  }

  /** After an odd number, the next sample weighs 1 in the cut stream and 5 in the whole one, if the numbers of
      outputs agree at all. */
  lemma {:induction false} OddCutDiffers(n: nat, m: nat)
    requires n % 2 == 1 && m > 0
    ensures !CutKeeps(REST, Silence(n), Silence(m)[0 := 16])
  {
    if m % 2 == 0 {
      OddCutOutputs(Silence(n), Silence(m)[0 := 16]);
    }
  }

  lemma {:induction false} OddCutOutputs(x: seq<int16>, y: seq<int16>)
    requires |x| % 2 == 1 && |y| % 2 == 0 && Silent(x) && Impulse(y, 0, 1)
    ensures var k := (|x| + 1) / 2; Whole(REST, x, y)[k] == 5 && Cut(REST, x, y)[k] == 1
  {
    var k := (|x| + 1) / 2;
    WholeAfter(x, y, k);
    CutAfter(x, y, k);
  }

  lemma {:induction false} WholeAfter(x: seq<int16>, y: seq<int16>, k: nat)
    requires 2 * k == |x| + 1 && |y| >= 2 && Silent(x) && Impulse(y, 0, 1)
    ensures k < |Whole(REST, x, y)| && Whole(REST, x, y)[k] == 5
  {
    assert Impulse(x + y, |x|, 1);
    ImpulseOutput(REST, x + y, |x|, 1, k);
  }

  lemma {:induction false} CutAfter(x: seq<int16>, y: seq<int16>, k: nat)
    requires 2 * k == |x| + 1 && x != [] && Silent(x) && Impulse(y, 0, 1)
    ensures k < |Cut(REST, x, y)| && Cut(REST, x, y)[k] == 1
  {
    SilentWindow(REST, x, (|x| - 1) / 2);
    ImpulseOutput(Archive(REST, x), y, 0, 1, 0);
    IndexSecond(HalfBand(REST, x), HalfBand(Archive(REST, x), y));
  }

  lemma {:induction false} IndexSecond(a: seq<int16>, b: seq<int16>)
    requires b != []
    ensures (a + b)[|a|] == b[0]
  {
  }

  /** Cutting a stream can change the outputs of a pass wherever the cut lies. */
  lemma {:induction false} CutInvariantIff(n: nat, m: nat)
    requires n > 0
    ensures (forall h: Hist, x: seq<int16>, y: seq<int16> :: |x| == n && |y| == m ==> CutKeeps(h, x, y)) <==> m == 0
  {
    if m == 0 {
      forall h: Hist, x: seq<int16>, y: seq<int16> | |x| == n && |y| == m
        ensures CutKeeps(h, x, y)
      {
        NothingCut(h, x, y);
      }
    } else if n % 2 == 0 {
      EvenCutDiffers(n, m);
    } else {
      OddCutDiffers(n, m);
    }
  }

  lemma {:induction false} NothingCut(h: Hist, x: seq<int16>, y: seq<int16>)
    requires x != [] && y == []
    ensures CutKeeps(h, x, y)
  {
    assert x + y == x;
  }

  // ----- the range of a pass

  predicate Within(x: seq<int16>, m: nat) {
    forall k :: 0 <= k < |x| ==> -(m as int) <= x[k] as int <= m as int
  }

  /** Six samples within m give an output within 2m, and the store does not wrap. */
  lemma {:induction false} TapsBounded(a: int, b: int, c: int, d: int, e: int, f: int, m: int)
    requires -m <= a <= m && -m <= b <= m && -m <= c <= m && -m <= d <= m && -m <= e <= m && -m <= f <= m
    requires 2 * m < 0x8000
    ensures -2 * m <= Taps(a, b, c, d, e, f) / 16 <= 2 * m
    ensures Wrap16(Taps(a, b, c, d, e, f) / 16) == Taps(a, b, c, d, e, f) / 16
  {
  }

  /** A pass at most doubles the range of its buffer and history, and nothing wraps on the way. */
  lemma {:induction false} HalfBandWithin(h: Hist, x: seq<int16>, m: nat)
    requires Within(h, m) && Within(x, m) && 2 * m < 0x8000
    ensures Within(HalfBand(h, x), 2 * m)
    ensures forall k :: 0 <= k < |HalfBand(h, x)| ==> HalfBand(h, x)[k] as int == TapsOf(WindowAt(h, x, k)) / 16
    ensures x != [] ==> Within(Archive(h, x), m)
  {
    forall k | 0 <= k < (|x| + 1) / 2
      ensures -2 * m <= HalfBand(h, x)[k] as int <= 2 * m
      ensures HalfBand(h, x)[k] as int == TapsOf(WindowAt(h, x, k)) / 16
    {
      WindowWithin(h, x, k, m);
      var w := WindowAt(h, x, k);
      TapsBounded(w[0], w[1], w[2], w[3], w[4], w[5], m);
    }
    if x != [] {
      WindowWithin(h, x, (|x| - 1) / 2, m);
    }
  }

  lemma {:induction false} WindowWithin(h: Hist, x: seq<int16>, k: nat, m: nat)
    requires Within(h, m) && Within(x, m) && 2 * k < |x|
    ensures Within(WindowAt(h, x, k), m)
  {
    forall j | 0 <= j < 6
      ensures -(m as int) <= WindowAt(h, x, k)[j] as int <= m as int
    {
      assert WindowAt(h, x, k)[j] == At(h, x, 2 * k + j);
    }
  }

  // ----- a cascade of passes on the interleaved buffer

  /** length >> i. */
  function Shifted(length: nat, i: nat): nat {
    if i == 0 then length else Shifted(length, i - 1) / 2
  }

  /** How many samples of channel `off` (0 for I, 1 for Q) lie in an interleaved buffer. */
  function Count(length: nat, off: nat): nat
    requires off <= 1
  {
    (length + 1 - off) / 2
  }

  function Channel(data: seq<int16>, off: nat, n: nat): (x: seq<int16>)
    requires n > 0 ==> off + 2 * (n - 1) < |data|
    ensures |x| == n
  {
    seq(n, k requires 0 <= k < n => data[off + 2 * k])
  }

  /** data with y laid out over channel `off` from its first slot on. */
  function Store(data: seq<int16>, off: nat, y: seq<int16>): (after: seq<int16>)
    ensures |after| == |data|
  {
    seq(|data|, j requires 0 <= j < |data| =>
      if off <= j && (j - off) % 2 == 0 && (j - off) / 2 < |y| then y[(j - off) / 2] else data[j])
  }

  /** The channel after i passes, each with its own history, each on half the length of the one before. */
  ghost function Level(rows: seq<Hist>, x: seq<int16>, length: nat, off: nat, i: nat): (y: seq<int16>)
    requires off <= 1 && |x| == Count(length, off) && i <= |rows|
    ensures |y| == Count(Shifted(length, i), off)
  {
    if i == 0 then x
    else
      var y := HalfBand(rows[i - 1], Level(rows, x, length, off, i - 1));
      y[..Count(Shifted(length, i), off)]
  }

  lemma {:induction false} StoreStep(data: seq<int16>, off: nat, y: seq<int16>, k: nat)
    requires k < |y| && off + 2 * k < |data|
    ensures Store(data, off, y[..k])[off + 2 * k := y[k]] == Store(data, off, y[..k + 1])
  {
    var s, t := Store(data, off, y[..k])[off + 2 * k := y[k]], Store(data, off, y[..k + 1]);
    forall j | 0 <= j < |data|
      ensures s[j] == t[j]
    {
    }
  }

  /** Nothing is overwritten before it is read: after k stores, sample k and later ones are intact. */
  lemma {:induction false} StoreKeeps(data: seq<int16>, off: nat, y: seq<int16>, m: nat)
    requires |y| <= m && off + 2 * m < |data|
    ensures Store(data, off, y)[off + 2 * m] == data[off + 2 * m]
  {
  }

  /** The window slides by two fresh samples, whatever has been stored before them. */
  lemma {:induction false} Slide(h: Hist, data: seq<int16>, off: nat, n: nat, now: seq<int16>, y: seq<int16>, k: nat,
                                 i: nat, w: Hist)
    returns (v: Hist)
    requires 0 < k && 2 * k < n && off + 2 * (n - 1) < |data| && |y| == k && i == 4 * k
    requires now == Store(data, off, y) && w == WindowAt(h, Channel(data, off, n), k - 1)
    ensures v == WindowAt(h, Channel(data, off, n), k)
    ensures v == [w[2], w[3], w[4], w[5], now[off + i - 2], now[off + i]]
  {
    v := WindowAt(h, Channel(data, off, n), k);
    StoreKeeps(data, off, y, 2 * k - 1);
    StoreKeeps(data, off, y, 2 * k);
  }

  lemma {:induction false} ChannelOfStore(data: seq<int16>, off: nat, y: seq<int16>, n: nat)
    requires n <= |y| && (n > 0 ==> off + 2 * (n - 1) < |data|)
    ensures Channel(Store(data, off, y), off, n) == y[..n]
  {
  }

  /** The other channel is never touched. */
  lemma {:induction false} OtherChannel(data: seq<int16>, off: nat, other: nat, y: seq<int16>, n: nat)
    requires off + other == 1 && (n > 0 ==> other + 2 * (n - 1) < |data|)
    ensures Channel(Store(data, off, y), other, n) == Channel(data, other, n)
  {
  }

  /** Range of the samples and of the history at pass i: 128 * 2^i. */
  function Range(i: nat): (m: nat)
    ensures m > 0
  {
    if i == 0 then 128 else 2 * Range(i - 1)
  }

  ghost predicate RowsWithin(rows: seq<Hist>) {
    forall i :: 0 <= i < |rows| && i < 8 ==> Within(rows[i], Range(i))
  }

  /** Seven passes over samples in [-128, 128] never wrap: pass i sees values within 128 * 2^i. */
  lemma {:induction false} LevelWithin(rows: seq<Hist>, x: seq<int16>, length: nat, off: nat, i: nat)
    requires off <= 1 && |x| == Count(length, off) && i <= |rows| && i <= 7
    requires RowsWithin(rows) && Within(x, 128)
    ensures Within(Level(rows, x, length, off, i), Range(i))
  {
    if i > 0 {
      LevelWithin(rows, x, length, off, i - 1);
      RangeFits(i - 1);
      HalfBandWithin(rows[i - 1], Level(rows, x, length, off, i - 1), Range(i - 1));
    }
  }

  lemma {:induction false} RangeFits(i: nat)
    requires i <= 6
    ensures 2 * Range(i) == Range(i + 1) <= 0x4000
    decreases i
  {
    if i > 0 {
      RangeFits(i - 1);
    }
  }

  // ----- one step of the cascade, and what it leaves for the next buffer

  ghost function Archived(rows: seq<Hist>, x: seq<int16>, length: nat, off: nat, i: nat): (after: seq<Hist>)
    requires off <= 1 && |x| == Count(length, off) && i <= |rows|
    ensures |after| == |rows|
  {
    seq(|rows|, r requires 0 <= r < |rows| =>
      var y := Level(rows, x, length, off, r);
      if r < i && y != [] then Archive(rows[r], y) else rows[r])
  }

  /** Dividing on shortens: what is long enough after more passes is so after fewer. */
  lemma {:induction false} ShiftedFalls(length: nat, i: nat, j: nat)
    requires i <= j
    ensures Shifted(length, j) <= Shifted(length, i)
    ensures i < j && Shifted(length, j) > 0 ==> Shifted(length, i) >= 2
    decreases j - i
  {
    if i < j {
      ShiftedFalls(length, i, j - 1);
    }
  }

  /** Channel `off` of the buffer holds level i. */
  ghost predicate AtLevel(data: seq<int16>, rows: seq<Hist>, x: seq<int16>, length: nat, off: nat, i: nat)
    requires off <= 1 && |x| == Count(length, off) && i <= |rows|
  {
    Shifted(length, i) <= |data| && Channel(data, off, Count(Shifted(length, i), off)) == Level(rows, x, length, off, i)
  }

  /** What one pass over channel `off` does to the whole buffer. */
  function Passed(data: seq<int16>, off: nat, length: nat, h: Hist): (after: seq<int16>)
    requires off <= 1 && length <= |data|
    ensures |after| == |data|
  {
    Store(data, off, HalfBand(h, Channel(data, off, Count(length, off))))
  }

  lemma {:induction false} OtherChannelPassed(data: seq<int16>, off: nat, other: nat, length: nat, h: Hist)
    requires off + other == 1 && length <= |data|
    ensures Channel(Passed(data, off, length, h), other, Count(length, other)) ==
            Channel(data, other, Count(length, other))
  {
    OtherChannel(data, off, other, HalfBand(h, Channel(data, off, Count(length, off))), Count(length, other));
  }

  lemma {:induction false} CountHalves(length: nat, off: nat)
    requires off <= 1
    ensures Count(length / 2, off) <= (Count(length, off) + 1) / 2
  {
  }

  /** A pass takes its channel from level i to level i + 1. */
  lemma {:induction false} PassMakesLevel(rows: seq<Hist>, x: seq<int16>, length: nat, off: nat, i: nat,
                                          data: seq<int16>)
    requires off <= 1 && |x| == Count(length, off) && i < |rows|
    requires AtLevel(data, rows, x, length, off, i)
    ensures AtLevel(Passed(data, off, Shifted(length, i), rows[i]), rows, x, length, off, i + 1)
  {
    hide Channel, HalfBand, Store;
    var y := HalfBand(rows[i], Level(rows, x, length, off, i));
    CountHalves(Shifted(length, i), off);
    ChannelOfStore(data, off, y, Count(Shifted(length, i + 1), off));
  }

  /** A pass leaves the other channel at its level. */
  lemma {:induction false} PassKeepsLevel(rows: seq<Hist>, x: seq<int16>, length: nat, off: nat, other: nat, i: nat,
                                          data: seq<int16>, len: nat, h: Hist)
    requires off + other == 1 && |x| == Count(length, off) && i <= |rows| && len <= |data|
    requires AtLevel(data, rows, x, length, off, i)
    ensures AtLevel(Passed(data, other, len, h), rows, x, length, off, i)
  {
    var y := HalfBand(h, Channel(data, other, Count(len, other)));
    OtherChannel(data, other, off, y, Count(Shifted(length, i), off));
  }

  lemma {:induction false} ArchivedStep(rows: seq<Hist>, x: seq<int16>, length: nat, off: nat, i: nat)
    requires off <= 1 && |x| == Count(length, off) && i < |rows| && Level(rows, x, length, off, i) != []
    ensures Archived(rows, x, length, off, i)[i := Archive(rows[i], Level(rows, x, length, off, i))]
         == Archived(rows, x, length, off, i + 1)
  {
  }

  /** The histories stay within the range of their pass, so the next buffer is as safe as this one. */
  lemma {:induction false} ArchivedWithin(rows: seq<Hist>, x: seq<int16>, length: nat, off: nat, i: nat)
    requires off <= 1 && |x| == Count(length, off) && i <= |rows| && i <= 7
    requires RowsWithin(rows) && Within(x, 128)
    ensures RowsWithin(Archived(rows, x, length, off, i))
  {
    forall r | 0 <= r < |rows| && r < 8
      ensures Within(Archived(rows, x, length, off, i)[r], Range(r))
    {
      if r < i {
        LevelWithin(rows, x, length, off, r);
        RangeFits(r);
        HalfBandWithin(rows[r], Level(rows, x, length, off, r), Range(r));
      }
    }
  }

  /** The first entries of an interleaved buffer are in range when both their channels are. */
  lemma {:induction false} InterleavedWithin(data: seq<int16>, length: nat, m: nat)
    requires length <= |data|
    requires Within(Channel(data, 0, Count(length, 0)), m) && Within(Channel(data, 1, Count(length, 1)), m)
    ensures Within(data[..length], m)
  {
    forall j | 0 <= j < length
      ensures -(m as int) <= data[j] as int <= m as int
    {
      if j % 2 == 0 {
        assert data[j] == Channel(data, 0, Count(length, 0))[j / 2];
      } else {
        assert data[j] == Channel(data, 1, Count(length, 1))[j / 2];
      }
    }
  }
}
