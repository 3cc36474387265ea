/** The in-place decimators of rtl_fm and the state they carry from buffer to buffer. */
module RtlFm {
  import opened CInts
  import opened HalfBandSpec

  function Row(hist: array2<int16>, r: nat): (h: Hist)
    requires hist.Length1 == 6 && r < hist.Length0
    reads hist
  {
    [hist[r, 0], hist[r, 1], hist[r, 2], hist[r, 3], hist[r, 4], hist[r, 5]]
  }

  function Rows(hist: array2<int16>): (rows: seq<Hist>)
    requires hist.Length1 == 6
    reads hist
  {
    seq(hist.Length0, r requires 0 <= r < hist.Length0 reads hist => Row(hist, r))
  }

  /** One output sample: the sum fits an int, the store takes its low 16 bits. */
  method Filtered16(a: int16, b: int16, c: int16, d: int16, e: int16, f: int16) returns (r: int16)
    ensures r == Wrap16(Taps(a, b, c, d, e, f) / 16)
  {
    var sum: int := a as int + (b as int + e as int) * 5 + (c as int + d as int) * 10 + f as int;
    r := Wrap16(sum / 16);
  }

  /** The first output takes five samples of the history and one of the buffer. */
  method FirstOutput(data: array<int16>, off: nat, a: int16, b: int16, c: int16, d: int16, e: int16,
                     ghost h: Hist, ghost n: nat)
    returns (f: int16)
    requires 0 < n && off + 2 * (n - 1) < data.Length
    requires h[1] == a && h[2] == b && h[3] == c && h[4] == d && h[5] == e
    modifies data
    ensures WindowAt(h, Channel(old(data[..]), off, n), 0) == [a, b, c, d, e, f]
    ensures data[..] == Store(old(data[..]), off, HalfBand(h, Channel(old(data[..]), off, n))[..1])
  {
    ghost var before, y := data[..], HalfBand(h, Channel(data[..], off, n));
    f := data[off];
    var first := Filtered16(a, b, c, d, e, f);
    data[off] := first;
    assert before == Store(before, off, y[..0]);
    StoreStep(before, off, y, 0);
  }

  /** The window moves on by two samples and its output is stored; k counts the outputs so far. */
  method NextOutput(data: array<int16>, off: nat, i: nat, a: int16, b: int16, c: int16, d: int16,
                    ghost before: seq<int16>, ghost h: Hist, ghost n: nat, ghost k: nat, ghost w: Hist)
    returns (e: int16, f: int16, ghost v: Hist)
    requires 0 < k && 2 * k < n && i == 4 * k && off + 2 * (n - 1) < data.Length == |before|
    requires data[..] == Store(before, off, HalfBand(h, Channel(before, off, n))[..k])
    requires w == WindowAt(h, Channel(before, off, n), k - 1) && w[2] == a && w[3] == b && w[4] == c && w[5] == d
    modifies data
    ensures v == WindowAt(h, Channel(before, off, n), k) && v == [a, b, c, d, e, f]
    ensures data[..] == Store(before, off, HalfBand(h, Channel(before, off, n))[..k + 1])
  {
    ghost var now, y := data[..], HalfBand(h, Channel(before, off, n));
    v := Slide(h, before, off, n, now, y[..k], k, i, w);
    e, f := data[off + i - 2], data[off + i];
    assert e == now[off + i - 2] && f == now[off + i];
    var r := Filtered16(a, b, c, d, e, f);
    data[off + i / 2] := r;
    StoreStep(before, off, y, k);
  }

  /** fifth_order on the entries from `off` up to `end` (the caller passes the address of the first and
      their number): the channel becomes its half-band output, everything else in the buffer stays, and
      the last window is archived. */
  method FifthOrder(data: array<int16>, off: nat, end: nat, hist: array2<int16>, row: nat)
    requires off <= 1 && off < end <= data.Length
    requires hist.Length1 == 6 && row < hist.Length0
    modifies data, hist
    ensures data[..] == Passed(old(data[..]), off, end, old(Row(hist, row)))
    ensures var x := Channel(old(data[..]), off, Count(end, off));
            Rows(hist) == old(Rows(hist))[row := Archive(old(Row(hist, row)), x)]
  {
    hide Channel, HalfBand, Store, WindowAt;
    var length := end - off;
    ghost var before, h, n := data[..], Row(hist, row), Count(end, off);
    ghost var x := Channel(before, off, n);
    ghost var y := HalfBand(h, x);
    ghost var k := 1;
    var a, b, c, d, e := hist[row, 1], hist[row, 2], hist[row, 3], hist[row, 4], hist[row, 5];
    var f := FirstOutput(data, off, a, b, c, d, e, h, n);
    ghost var w := WindowAt(h, x, 0);
    var i := 4;
    while i < length
      modifies data
      invariant i == 4 * k && 1 <= k <= |y|
      invariant w == WindowAt(h, x, k - 1) && w == [a, b, c, d, e, f]
      invariant data[..] == Store(before, off, y[..k])
    {
      a, b, c, d := c, d, e, f;
      e, f, w := NextOutput(data, off, i, a, b, c, d, before, h, n, k, w);
      i, k := i + 4, k + 1;
    }
    assert y[..k] == y;
    SetRow(hist, row, a, b, c, d, e, f);
  }

  method SetRow(hist: array2<int16>, row: nat, a: int16, b: int16, c: int16, d: int16, e: int16, f: int16)
    requires hist.Length1 == 6 && row < hist.Length0
    modifies hist
    ensures Rows(hist) == old(Rows(hist))[row := [a, b, c, d, e, f]]
  {
    hist[row, 0], hist[row, 1], hist[row, 2], hist[row, 3], hist[row, 4], hist[row, 5] := a, b, c, d, e, f;
    assert Row(hist, row) == [a, b, c, d, e, f];
    forall r | 0 <= r < hist.Length0 && r != row
      ensures Row(hist, r) == old(Row(hist, r))
    {
    }
  }

  /** A round of both channels takes both of them to the next level. */
  lemma {:induction false} RoundMakesLevels(d: seq<int16>, ri: seq<Hist>, rq: seq<Hist>, xi: seq<int16>, xq: seq<int16>,
                                            length: nat, i: nat, len: nat)
    requires |xi| == Count(length, 0) && |xq| == Count(length, 1) && i < |ri| == |rq| && len == Shifted(length, i) >= 2
    requires AtLevel(d, ri, xi, length, 0, i) && AtLevel(d, rq, xq, length, 1, i)
    ensures len <= |d|
    ensures var after := Passed(Passed(d, 0, len, ri[i]), 1, len, rq[i]);
            AtLevel(after, ri, xi, length, 0, i + 1) && AtLevel(after, rq, xq, length, 1, i + 1)
    ensures Archived(ri, xi, length, 0, i)[i := Archive(ri[i], Channel(d, 0, Count(len, 0)))] ==
            Archived(ri, xi, length, 0, i + 1)
    ensures Archived(rq, xq, length, 1, i)[i := Archive(rq[i], Channel(d, 1, Count(len, 1)))] ==
            Archived(rq, xq, length, 1, i + 1)
    ensures Archived(ri, xi, length, 0, i)[i] == ri[i] && Archived(rq, xq, length, 1, i)[i] == rq[i]
  {
    var middle := Passed(d, 0, len, ri[i]);
    PassMakesLevel(ri, xi, length, 0, i, d);
    PassKeepsLevel(rq, xq, length, 1, 0, i, d, len, ri[i]);
    PassMakesLevel(rq, xq, length, 1, i, middle);
    PassKeepsLevel(ri, xi, length, 0, 1, i + 1, middle, len, rq[i]);
    ArchivedStep(ri, xi, length, 0, i);
    ArchivedStep(rq, xq, length, 1, i);
  }

  lemma {:induction false} CascadeStarts(data: seq<int16>, rows: seq<Hist>, x: seq<int16>, length: nat, off: nat)
    requires off <= 1 && length <= |data| && x == Channel(data, off, Count(length, off))
    ensures AtLevel(data, rows, x, length, off, 0) && Archived(rows, x, length, off, 0) == rows
    ensures Shifted(length, 0) == length
  {
    hide Channel;
  }

  lemma {:induction false} CascadeEnds(data: seq<int16>, rows: seq<Hist>, x: seq<int16>, length: nat, off: nat, i: nat,
                                       len: nat)
    requires off <= 1 && |x| == Count(length, off) && i <= |rows| && len == Shifted(length, i)
    requires AtLevel(data, rows, x, length, off, i)
    ensures len <= |data| && Channel(data, off, Count(len, off)) == Level(rows, x, length, off, i)
  {
    hide Channel, Level;
  }

  ghost predicate LongEnough(buf: seq<uint8>, capacity: nat, passes: nat) {
    |buf| <= capacity && Shifted(|buf|, passes) > 0
  }

  ghost predicate SafeOutput(out: seq<int16>, buf: seq<uint8>, passes: nat) {
    |out| == Shifted(|buf|, passes) && Within(out, Range(passes))
  }

  /** A buffer of bytes as samples. */
  function Loaded(buf: seq<uint8>): (x: seq<int16>)
    ensures |x| == |buf|
  {
    seq(|buf|, k requires 0 <= k < |buf| => buf[k] as int - 127)
  }

  /** One channel of it. */
  function LoadedChannel(buf: seq<uint8>, off: nat): (x: seq<int16>)
    requires off <= 1
    ensures |x| == Count(|buf|, off)
  {
    Channel(Loaded(buf), off, Count(|buf|, off))
  }

  /** A channel of the output is the iterated half-band of that channel of the buffer. */
  ghost predicate Decimates(out: seq<int16>, rows: seq<Hist>, buf: seq<uint8>, off: nat, passes: nat)
    requires off <= 1 && passes <= |rows|
  {
    |out| == Shifted(|buf|, passes) &&
    Channel(out, off, Count(|out|, off)) == Level(rows, LoadedChannel(buf, off), |buf|, off, passes)
  }

  /** The histories of a channel after some buffers. */
  ghost function HistoriesAfter(rows: seq<Hist>, bufs: seq<seq<uint8>>, off: nat, passes: nat): (after: seq<Hist>)
    requires off <= 1 && passes <= |rows|
    ensures |after| == |rows|
  {
    if bufs == [] then rows
    else
      var buf := bufs[|bufs| - 1];
      Archived(HistoriesAfter(rows, bufs[..|bufs| - 1], off, passes), LoadedChannel(buf, off), |buf|, off, passes)
  }

  lemma {:induction false} HistoriesNext(rows: seq<Hist>, bufs: seq<seq<uint8>>, buf: seq<uint8>, off: nat, passes: nat)
    requires off <= 1 && passes <= |rows|
    ensures HistoriesAfter(rows, bufs + [buf], off, passes)
         == Archived(HistoriesAfter(rows, bufs, off, passes), LoadedChannel(buf, off), |buf|, off, passes)
  {
    hide Archived;
    assert (bufs + [buf])[..|bufs|] == bufs;
  }

  lemma {:induction false} NoHistories(rows: seq<Hist>, off: nat, passes: nat)
    requires off <= 1 && passes <= |rows|
    ensures forall bufs: seq<seq<uint8>> | bufs == [] :: HistoriesAfter(rows, bufs, off, passes) == rows
  {
  }

  /** Output k of a run, for the histories that the buffers before it left. */
  ghost predicate RunOutput(out: seq<int16>, rows: seq<Hist>, bufs: seq<seq<uint8>>, k: nat, off: nat, passes: nat)
    requires off <= 1 && passes <= |rows| && k < |bufs|
  {
    Decimates(out, HistoriesAfter(rows, bufs[..k], off, passes), bufs[k], off, passes)
  }

  lemma {:induction false} SamePart(data: seq<int16>, part: seq<int16>, off: nat)
    requires off <= 1 && part <= data
    ensures Channel(data, off, Count(|part|, off)) == Channel(part, off, Count(|part|, off))
  {
  }

  lemma {:induction false} ZeroRows(hist: array2<int16>)
    requires hist.Length1 == 6 && forall r, j :: 0 <= r < hist.Length0 && 0 <= j < 6 ==> hist[r, j] == 0
    ensures RowsWithin(Rows(hist))
  {
    forall r | 0 <= r < hist.Length0 && r < 8
      ensures Within(Rows(hist)[r], Range(r))
    {
      assert Rows(hist)[r] == [0, 0, 0, 0, 0, 0];
    }
  }

  class Demod {
    const lowpassed: array<int16>
    var lpLen: nat
    const iHist: array2<int16>
    const qHist: array2<int16>
    var passes: nat

    ghost predicate Valid()
      reads this
    {
      iHist != qHist && iHist.Length0 == qHist.Length0 == PASSES && iHist.Length1 == qHist.Length1 == 6 &&
      lpLen <= lowpassed.Length && passes <= PASSES
    }

    ghost function Samples(off: nat): (x: seq<int16>)
      requires Valid() && off <= 1
      reads this, lowpassed
    {
      Channel(lowpassed[..], off, Count(lpLen, off))
    }

    ghost function Output(): seq<int16>
      requires Valid()
      reads this, lowpassed
    {
      lowpassed[..lpLen]
    }

    constructor (capacity: nat)
      ensures Valid() && lowpassed.Length == capacity && passes == 0
      ensures fresh(lowpassed) && fresh(iHist) && fresh(qHist)
      ensures RowsWithin(Rows(iHist)) && RowsWithin(Rows(qHist))
    {
      lowpassed := new int16[capacity];
      iHist := new int16[PASSES, 6]((i, j) => 0);
      qHist := new int16[PASSES, 6]((i, j) => 0);
      lpLen, passes := 0, 0;
      new;
      ZeroRows(iHist);
      ZeroRows(qHist);
    }

    /** The decimating part of full_demod: pass by pass, I then Q, each on half the length of the last.
        Both channels end as the iterated half-band of their own samples alone. */
    method Cascade()
      requires Valid() && Shifted(lpLen, passes) > 0
      modifies this`lpLen, lowpassed, iHist, qHist
      ensures Valid() && lpLen == Shifted(old(lpLen), passes)
      ensures Samples(0) == Level(old(Rows(iHist)), old(Samples(0)), old(lpLen), 0, passes)
      ensures Samples(1) == Level(old(Rows(qHist)), old(Samples(1)), old(lpLen), 1, passes)
      ensures Rows(iHist) == Archived(old(Rows(iHist)), old(Samples(0)), old(lpLen), 0, passes)
      ensures Rows(qHist) == Archived(old(Rows(qHist)), old(Samples(1)), old(lpLen), 1, passes)
    {
      hide Archived, AtLevel, Channel, Count, Level, Row, Shifted;
      ghost var ri, rq, xi, xq := Rows(iHist), Rows(qHist), Samples(0), Samples(1);
      CascadeStarts(lowpassed[..], ri, xi, lpLen, 0);
      CascadeStarts(lowpassed[..], rq, xq, lpLen, 1);
      var i, len := 0, lpLen;
      while i < passes
        modifies lowpassed, iHist, qHist
        invariant 0 <= i <= passes && len == Shifted(lpLen, i)
        invariant AtLevel(lowpassed[..], ri, xi, lpLen, 0, i) && AtLevel(lowpassed[..], rq, xq, lpLen, 1, i)
        invariant Rows(iHist) == Archived(ri, xi, lpLen, 0, i) && Rows(qHist) == Archived(rq, xq, lpLen, 1, i)
      {
        ShiftedFalls(lpLen, i, passes);
        Round(i, len, ri, rq, xi, xq);
        i, len := i + 1, len / 2;
      }
      CascadeEnds(lowpassed[..], ri, xi, lpLen, 0, passes, len);
      CascadeEnds(lowpassed[..], rq, xq, lpLen, 1, passes, len);
      lpLen := len;
    }

    /** One round of the cascade takes both channels to the next level. */
    method Round(i: nat, len: nat, ghost ri: seq<Hist>, ghost rq: seq<Hist>, ghost xi: seq<int16>, ghost xq: seq<int16>)
      requires Valid() && i < PASSES && len == Shifted(lpLen, i) >= 2
      requires |ri| == |rq| == PASSES && |xi| == Count(lpLen, 0) && |xq| == Count(lpLen, 1)
      requires AtLevel(lowpassed[..], ri, xi, lpLen, 0, i) && AtLevel(lowpassed[..], rq, xq, lpLen, 1, i)
      requires Rows(iHist) == Archived(ri, xi, lpLen, 0, i) && Rows(qHist) == Archived(rq, xq, lpLen, 1, i)
      modifies lowpassed, iHist, qHist
      ensures len / 2 == Shifted(lpLen, i + 1)
      ensures AtLevel(lowpassed[..], ri, xi, lpLen, 0, i + 1) && AtLevel(lowpassed[..], rq, xq, lpLen, 1, i + 1)
      ensures Rows(iHist) == Archived(ri, xi, lpLen, 0, i + 1) && Rows(qHist) == Archived(rq, xq, lpLen, 1, i + 1)
    {
      hide Archive, Archived, AtLevel, Channel, Level, Passed;
      RoundMakesLevels(lowpassed[..], ri, rq, xi, xq, lpLen, i, len);
      assert Row(iHist, i) == Rows(iHist)[i] && Row(qHist, i) == Rows(qHist)[i];
      Pass(i, len);
    }

    /** The two filters of a round, I then Q. */
    method Pass(i: nat, len: nat)
      requires Valid() && i < PASSES && 2 <= len <= lowpassed.Length
      modifies lowpassed, iHist, qHist
      ensures var before, hi, hq := old(lowpassed[..]), old(Row(iHist, i)), old(Row(qHist, i));
              lowpassed[..] == Passed(Passed(before, 0, len, hi), 1, len, hq) &&
              Rows(iHist) == old(Rows(iHist))[i := Archive(hi, Channel(before, 0, Count(len, 0)))] &&
              Rows(qHist) == old(Rows(qHist))[i := Archive(hq, Channel(before, 1, Count(len, 1)))]
    {
      ghost var before, hi, hq, rowsQ := lowpassed[..], Row(iHist, i), Row(qHist, i), Rows(qHist);
      FifthOrder(lowpassed, 0, len, iHist, i);
      ghost var rowsI := Rows(iHist);
      OtherChannelPassed(before, 0, 1, len, hi);
      assert Row(qHist, i) == hq && Rows(qHist) == rowsQ;
      FifthOrder(lowpassed, 1, len, qHist, i);
      assert Rows(iHist) == rowsI;
    }

    /** rtlsdr_callback: a buffer of bytes becomes samples from -127 to 128. */
    method Load(buf: seq<uint8>)
      requires Valid() && |buf| <= lowpassed.Length
      modifies this`lpLen, lowpassed
      ensures Valid() && lpLen == |buf| && lowpassed[..|buf|] == Loaded(buf)
      ensures forall k :: 0 <= k < |buf| ==> lowpassed[k] as int == buf[k] as int - 127
      ensures Within(Samples(0), 128) && Within(Samples(1), 128)
    {
      var i := 0;
      while i < |buf|
        modifies lowpassed
        invariant 0 <= i <= |buf|
        invariant forall k :: 0 <= k < i ==> lowpassed[k] as int == buf[k] as int - 127
      {
        lowpassed[i] := (buf[i] as int - 127) as int16;
        i := i + 1;
      }
      lpLen := |buf|;
    }

    /** Every history is in the range of its pass. */
    ghost predicate Safe()
      requires Valid()
      reads this, iHist, qHist
    {
      passes <= 7 && RowsWithin(Rows(iHist)) && RowsWithin(Rows(qHist))
    }

    method Demodulate(buf: seq<uint8>) returns (out: seq<int16>)
      requires Valid() && Safe() && LongEnough(buf, lowpassed.Length, passes)
      modifies this`lpLen, lowpassed, iHist, qHist
      ensures Valid() && Safe() && SafeOutput(out, buf, passes)
      ensures Decimates(out, old(Rows(iHist)), buf, 0, passes) && Decimates(out, old(Rows(qHist)), buf, 1, passes)
      ensures Rows(iHist) == Archived(old(Rows(iHist)), LoadedChannel(buf, 0), |buf|, 0, passes)
      ensures Rows(qHist) == Archived(old(Rows(qHist)), LoadedChannel(buf, 1), |buf|, 1, passes)
    {
      hide Archived, Channel, Level, Loaded, RowsWithin, Within;
      Load(buf);
      ghost var ri, rq, xi, xq := Rows(iHist), Rows(qHist), Samples(0), Samples(1);
      SamePart(lowpassed[..], Loaded(buf), 0);
      SamePart(lowpassed[..], Loaded(buf), 1);
      Cascade();
      SamePart(lowpassed[..], lowpassed[..lpLen], 0);
      SamePart(lowpassed[..], lowpassed[..lpLen], 1);
      LevelWithin(ri, xi, |buf|, 0, passes);
      LevelWithin(rq, xq, |buf|, 1, passes);
      ArchivedWithin(ri, xi, |buf|, 0, passes);
      ArchivedWithin(rq, xq, |buf|, 1, passes);
      InterleavedWithin(lowpassed[..], lpLen, Range(passes));
      out := lowpassed[..lpLen];
    }

    /** Any number of buffers, each long enough for the cascade: every output is the iterated half-band of its
        buffer with the histories that the buffers before it left, and nothing ever leaves 128 * 2^pass, neither
        an output nor a history. */
    method Run(bufs: seq<seq<uint8>>) returns (outs: seq<seq<int16>>)
      requires Valid() && Safe()
      requires forall k :: 0 <= k < |bufs| ==> LongEnough(bufs[k], lowpassed.Length, passes)
      modifies this`lpLen, lowpassed, iHist, qHist
      ensures Valid() && Safe() && |outs| == |bufs|
      ensures forall k :: 0 <= k < |outs| ==> SafeOutput(outs[k], bufs[k], passes)
      ensures forall k :: 0 <= k < |outs| ==> RunOutput(outs[k], old(Rows(iHist)), bufs, k, 0, passes)
      ensures forall k :: 0 <= k < |outs| ==> RunOutput(outs[k], old(Rows(qHist)), bufs, k, 1, passes)
      ensures Rows(iHist) == HistoriesAfter(old(Rows(iHist)), bufs, 0, passes)
      ensures Rows(qHist) == HistoriesAfter(old(Rows(qHist)), bufs, 1, passes)
    {
      hide Archived, Decimates, HistoriesAfter, LoadedChannel, LongEnough, Row, RowsWithin, SafeOutput;
      outs := [];
      var k := 0;
      ghost var ri, rq := Rows(iHist), Rows(qHist);
      NoHistories(ri, 0, passes);
      NoHistories(rq, 1, passes);
      while k < |bufs|
        modifies this`lpLen, lowpassed, iHist, qHist
        invariant k == |outs| <= |bufs| && Valid() && Safe()
        invariant forall j :: 0 <= j < k ==> SafeOutput(outs[j], bufs[j], passes)
        invariant Rows(iHist) == HistoriesAfter(ri, bufs[..k], 0, passes)
        invariant Rows(qHist) == HistoriesAfter(rq, bufs[..k], 1, passes)
        invariant forall j :: 0 <= j < k ==> RunOutput(outs[j], ri, bufs, j, 0, passes)
        invariant forall j :: 0 <= j < k ==> RunOutput(outs[j], rq, bufs, j, 1, passes)
      {
        assert bufs[..k + 1] == bufs[..k] + [bufs[k]];
        HistoriesNext(ri, bufs[..k], bufs[k], 0, passes);
        HistoriesNext(rq, bufs[..k], bufs[k], 1, passes);
        var out := Demodulate(bufs[k]);
        outs, k := outs + [out], k + 1;
      }
      assert bufs[..k] == bufs;
    }
  }
}
