/** The demodulator and the framer as they run, in place, proved to do what the specification says. */
module AdsbDemod {
  import opened CInts
  import opened AdsbSpec
  import opened AdsbFraming
  import opened AdsbOuter
  import opened AdsbSuffix

  method Preamble(buf: array<uint16>, i: nat) returns (found: bool)
    requires i + PREAMBLE_LEN <= buf.Length
    ensures found == PreambleAt(buf[..], i)
  {
    var low: uint16, high: uint16 := 0, 65535;
    for i2 := 0 to PREAMBLE_LEN
      invariant low == LatestGap(buf[..], i, i2) && high == LatestPulse(buf[..], i, i2)
      invariant forall k | 0 < k <= i2 :: LatestPulse(buf[..], i, k) > LatestGap(buf[..], i, k)
    {
      if i2 == 0 || i2 == 2 || i2 == 7 || i2 == 9 {
        high := buf[i + i2];
      } else {
        low := buf[i + i2];
      }
      if high <= low {
        assert LatestPulse(buf[..], i, i2 + 1) <= LatestGap(buf[..], i, i2 + 1);
        return false;
      }
    }
    return true;
  }

  /** What the buffer holds while a run from `start` has stored `bits` and read up to start + 2 * |bits|. */
  function Midway(s: seq<uint16>, start: nat, bits: seq<uint16>): (r: seq<uint16>)
    requires start + 2 * |bits| <= |s|
    ensures |r| == |s|
  {
    s[..start] + bits + Fill(|bits|, OVERWRITE) + s[start + 2 * |bits|..]
  }

  lemma {:induction false} MidwayStep(s: seq<uint16>, start: nat, bits: seq<uint16>, v: uint16)
    requires start + 2 * |bits| + 2 <= |s|
    ensures var i := start + 2 * |bits|;
            Midway(s, start, bits)[i := OVERWRITE][i + 1 := OVERWRITE][start + |bits| := v]
            == Midway(s, start, bits + [v])
  {
    var n := |bits|;
    var i := start + 2 * n;
    var c := Midway(s, start, bits)[i := OVERWRITE][i + 1 := OVERWRITE][start + n := v];
    var d := Midway(s, start, bits + [v]);
    assert |c| == |d|;
    forall p | 0 <= p < |s|
      ensures c[p] == d[p]
    {
    }
  }

  /** Decoding the rest from here completes the bits so far to the whole run. */
  ghost predicate Continues(cfg: Config, s: seq<uint16>, run: Run, bits: seq<uint16>, i: nat, a: uint16, b: uint16,
                            errors: nat)
  {
    i <= |s| && run == DecodeRun(cfg, s, i, a, b, errors).(bits := bits + DecodeRun(cfg, s, i, a, b, errors).bits)
  }

  lemma {:induction false} ContinuesStep(cfg: Config, s: seq<uint16>, run: Run, bits: seq<uint16>,
                                         i: nat, a: uint16, b: uint16, errors: nat)
    requires i + 1 < |s| && Continues(cfg, s, run, bits, i, a, b, errors)
    ensures var bit := SingleManchester(cfg.quality, a, b, s[i], s[i + 1]);
            if bit != BADSAMPLE then Continues(cfg, s, run, bits + [bit], i + 2, s[i], s[i + 1], errors)
            else if errors + 1 > cfg.allowedErrors then run == Run(bits, i, s[i], s[i + 1], true)
            else Continues(cfg, s, run, bits + [Bit(s[i], s[i + 1])], i + 2, 0, 65535, errors + 1)
  {
    var bit := SingleManchester(cfg.quality, a, b, s[i], s[i + 1]);
    if bit != BADSAMPLE {
      var r := DecodeRun(cfg, s, i + 2, s[i], s[i + 1], errors);
      assert bits + ([bit] + r.bits) == (bits + [bit]) + r.bits;
    } else if errors + 1 <= cfg.allowedErrors {
      var v := Bit(s[i], s[i + 1]);
      var r := DecodeRun(cfg, s, i + 2, 0, 65535, errors + 1);
      assert bits + ([v] + r.bits) == (bits + [v]) + r.bits;
    }
  }

  /** The state of the marking loop: `cur` is the buffer, `s` what it held when marking began. */
  ghost predicate Marking(cfg: Config, s: seq<uint16>, cur: seq<uint16>, run: Run, start: nat, bits: seq<uint16>,
                          i: nat, i2: nat, a: uint16, b: uint16, errors: nat)
  {
    i == start + 2 * |bits| && i2 == start + |bits| && i <= |s| &&
    cur == Midway(s, start, bits) && Continues(cfg, s, run, bits, i, a, b, errors)
  }

  lemma {:induction false} MarkStep(cfg: Config, s: seq<uint16>, cur: seq<uint16>, run: Run, start: nat,
                                    bits: seq<uint16>, i: nat, i2: nat, a: uint16, b: uint16, errors: nat)
    requires Marking(cfg, s, cur, run, start, bits, i, i2, a, b, errors) && i + 1 < |s|
    ensures |cur| == |s| && cur[i] == s[i] && cur[i + 1] == s[i + 1]
    ensures var bit := SingleManchester(cfg.quality, a, b, s[i], s[i + 1]);
            var v := Bit(s[i], s[i + 1]);
            var next := cur[i := OVERWRITE][i + 1 := OVERWRITE][i2 := v];
            if bit != BADSAMPLE then
              bit == v && Marking(cfg, s, next, run, start, bits + [v], i + 2, i2 + 1, s[i], s[i + 1], errors)
            else errors + 1 <= cfg.allowedErrors ==>
              Marking(cfg, s, next, run, start, bits + [v], i + 2, i2 + 1, 0, 65535, errors + 1)
    ensures SingleManchester(cfg.quality, a, b, s[i], s[i + 1]) == BADSAMPLE && errors + 1 > cfg.allowedErrors ==>
              run == Run(bits, i, s[i], s[i + 1], true) &&
              cur[i2 := BADSAMPLE] == AfterRun(s, start, run)
  {
    ContinuesStep(cfg, s, run, bits, i, a, b, errors);
    MidwayUnread(s, start, bits);
    MidwayStep(s, start, bits, Bit(s[i], s[i + 1]));
    if |bits| > 0 {
      MidwayBroken(s, start, bits);
    } else {
      assert cur == s;
    }
  }

  lemma {:induction false} MarkStart(cfg: Config, s: seq<uint16>, start: nat, a: uint16, b: uint16)
    requires start <= |s|
    ensures Marking(cfg, s, s, DecodeRun(cfg, s, start, a, b, 0), start, [], start, start, a, b, 0)
  {
    var r := DecodeRun(cfg, s, start, a, b, 0);
    assert [] + r.bits == r.bits;
    assert Midway(s, start, []) == s;
  }

  lemma {:induction false} MarkEnd(cfg: Config, s: seq<uint16>, cur: seq<uint16>, run: Run, start: nat,
                                   bits: seq<uint16>, i: nat, i2: nat, a: uint16, b: uint16, errors: nat)
    requires Marking(cfg, s, cur, run, start, bits, i, i2, a, b, errors) && i + 1 >= |s|
    ensures run == Run(bits, i, a, b, false) && cur == AfterRun(s, start, run)
  {
    assert bits + [] == bits;
  }

  /** One turn of the marking loop on the cell at i, storing at i2. */
  method MarkCell(cfg: Config, buf: array<uint16>, i: nat, i2: nat, a0: uint16, b0: uint16, errors0: nat)
    returns (a: uint16, b: uint16, errors: nat, broken: bool)
    requires i2 <= i && i + 1 < buf.Length
    modifies buf
    ensures var s := old(buf[..]);
            var bit := SingleManchester(cfg.quality, a0, b0, s[i], s[i + 1]);
            broken == (bit == BADSAMPLE && errors0 + 1 > cfg.allowedErrors) &&
            if broken then
              a == s[i] && b == s[i + 1] && buf[..] == s[i2 := BADSAMPLE]
            else
              buf[..] == s[i := OVERWRITE][i + 1 := OVERWRITE][i2 := Bit(s[i], s[i + 1])] &&
              if bit == BADSAMPLE then a == 0 && b == 65535 && errors == errors0 + 1
              else a == s[i] && b == s[i + 1] && errors == errors0
  {
    errors, broken := errors0, false;
    var bit := SingleManchester(cfg.quality, a0, b0, buf[i], buf[i + 1]);
    a := buf[i];
    b := buf[i + 1];
    if bit == BADSAMPLE {
      errors := errors + 1;
      if errors > cfg.allowedErrors {
        buf[i2] := BADSAMPLE;
        broken := true;
        return;
      } else {
        bit := Bit(a, b);
        a := 0;
        b := 65535;
      }
    }
    buf[i], buf[i + 1] := OVERWRITE, OVERWRITE;
    buf[i2] := bit;
  }

  /** The marking loop: bits are stored at half the pace they are read. */
  method MarkBits(cfg: Config, buf: array<uint16>, start: nat, a0: uint16, b0: uint16)
    returns (i: nat, a: uint16, b: uint16)
    requires start <= buf.Length
    modifies buf
    ensures var r := DecodeRun(cfg, old(buf[..]), start, a0, b0, 0);
            i == r.next && a == r.a && b == r.b &&
            buf[..] == AfterRun(old(buf[..]), start, r)
  {
    hide AfterRun, Continues, DecodeRun, Midway, SingleManchester;
    ghost var s := buf[..];
    ghost var run := DecodeRun(cfg, s, start, a0, b0, 0);
    ghost var bits: seq<uint16> := [];
    var errors: nat := 0;
    var i2: nat := start;
    i, a, b := start, a0, b0;
    MarkStart(cfg, s, start, a0, b0);
    while i < buf.Length - 1
      invariant Marking(cfg, s, buf[..], run, start, bits, i, i2, a, b, errors)
      decreases buf.Length - i
    {
      MarkStep(cfg, s, buf[..], run, start, bits, i, i2, a, b, errors);
      var broken;
      a, b, errors, broken := MarkCell(cfg, buf, i, i2, a, b, errors);
      if broken {
        return;
      }
      bits := bits + [Bit(s[i], s[i + 1])];
      i := i + 2;
      i2 := i2 + 1;
    }
    MarkEnd(cfg, s, buf[..], run, start, bits, i, i2, a, b, errors);
  }

  /** Nothing unread has been overwritten. */
  lemma {:induction false} MidwayUnread(s: seq<uint16>, start: nat, bits: seq<uint16>)
    requires start + 2 * |bits| <= |s|
    ensures forall p | start + 2 * |bits| <= p < |s| :: Midway(s, start, bits)[p] == s[p]
  {
  }

  lemma {:induction false} MidwayBroken(s: seq<uint16>, start: nat, bits: seq<uint16>)
    requires start + 2 * |bits| <= |s| && |bits| > 0
    ensures Midway(s, start, bits)[start + |bits| := BADSAMPLE]
         == s[..start] + (bits + Fill(|bits|, OVERWRITE)[0 := BADSAMPLE]) + s[start + 2 * |bits|..]
  {
  }

  method MarkPreamble(buf: array<uint16>, i: nat)
    requires i + PREAMBLE_LEN <= buf.Length
    modifies buf
    ensures buf[..] == old(buf[..])[..i] + Fill(PREAMBLE_LEN, MESSAGEGO) + old(buf[..])[i + PREAMBLE_LEN..]
  {
    ghost var s := buf[..];
    for i2 := 0 to PREAMBLE_LEN
      invariant buf[..] == s[..i] + Fill(i2, MESSAGEGO) + s[i + i2..]
    {
      buf[i + i2] := MESSAGEGO;
    }
  }

  /** The search loop, and the markers over a preamble that it finds. */
  method FindPreamble(buf: array<uint16>, i0: nat, a0: uint16, b0: uint16) returns (i: nat, a: uint16, b: uint16)
    requires i0 <= buf.Length
    modifies buf
    ensures var s := old(buf[..]);
            var f := FindFrom(s, i0, a0, b0);
            i == f.start && a == f.a && b == f.b && buf[..] == s[..i0] + f.head + s[f.start..]
  {
    hide Fill, PreambleAt;
    ghost var s := buf[..];
    i, a, b := i0, a0, b0;
    while i < buf.Length - PREAMBLE_LEN
      invariant i0 <= i <= buf.Length && Search(s, i) == Search(s, i0)
      invariant buf[..] == s
      decreases buf.Length - i
    {
      var found := Preamble(buf, i);
      if !found {
        i := i + 1;
        continue;
      }
      a := buf[i];
      b := buf[i + 1];
      MarkPreamble(buf, i);
      assert s[..i] == s[..i0] + s[i0..i];
      i := i + PREAMBLE_LEN;
      return;
    }
    assert s == s[..i0] + s[i0..i] + s[i..];
  }

  /** Two pieces replaced one after the other, and nothing touched behind them. */
  lemma {:induction false} Spliced<T>(s: seq<T>, was: seq<T>, mid: seq<T>, cur: seq<T>, i: nat, h: seq<T>, n: nat,
                                      c: seq<T>, m: nat)
    requires |was| == |s| && i <= n <= m <= |s| && |h| == n - i && |c| == m - n && was[i..] == s[i..]
    requires mid == was[..i] + h + was[n..] && cur == mid[..n] + c + mid[m..]
    ensures mid[n..] == s[n..] && cur[m..] == s[m..] && cur[..m] == was[..i] + (h + c)
  {
    assert was[n..] == was[i..][n - i..] == s[n..];
    assert mid[..n] == was[..i] + h;
    assert mid[m..] == mid[n..][m - n..] && s[m..] == s[n..][m - n..];
  }

  lemma {:induction false} PassEnd(cfg: Config, s: seq<uint16>, was: seq<uint16>, mid: seq<uint16>, cur: seq<uint16>,
                                   i: nat, a: uint16, b: uint16, f: Found, r: Run)
    requires cfg.allowedErrors >= 1 && i + 1 < |s| && |was| == |mid| == |s| && was[i..] == s[i..]
    requires f == FindFrom(was, i, a, b) && mid == was[..i] + f.head + was[f.start..]
    requires r == DecodeRun(cfg, mid, f.start, f.a, f.b, 0) && cur == AfterRun(mid, f.start, r)
    ensures i < r.next && cur[r.next..] == s[r.next..]
    ensures cur[..r.next] == was[..i] + (f.head + Compacted(r))
    ensures Demod(cfg, s, i, a, b) == f.head + Compacted(r) + Demod(cfg, s, r.next, r.a, r.b)
  {
    FindSuffix(was, s, i, a, b);
    Spliced(s, was, mid, cur, i, f.head, f.start, Compacted(r), r.next);
    DecodeSuffix(cfg, mid, s, f.start, f.start, f.a, f.b, 0);
  }

  lemma {:induction false} Regroup(x: seq<uint16>, y: seq<uint16>, z: seq<uint16>)
    ensures (x + y) + z == x + (y + z)
  {
  }

  /** With an error tolerated, the outer loop leaves the demodulation of the samples. */
  lemma {:induction false} FinalIsDemod(cfg: Config, s: seq<uint16>, o: Outer)
    requires cfg.allowedErrors >= 1 && |o.buf| == |s| && o.i <= |s| && o.buf[o.i..] == s[o.i..]
    ensures !Hangs(cfg, o) && Final(cfg, o).buf == o.buf[..o.i] + Demod(cfg, s, o.i, o.a, o.b)
    decreases |s| - o.i
  {
    if InLoop(o) {
      var f := FindFrom(o.buf, o.i, o.a, o.b);
      var mid := o.buf[..o.i] + f.head + o.buf[f.start..];
      var r := DecodeRun(cfg, mid, f.start, f.a, f.b, 0);
      var p := Pass(cfg, o);
      PassEnd(cfg, s, o.buf, mid, p.buf, o.i, o.a, o.b, f, r);
      FinalIsDemod(cfg, s, p);
      Regroup(o.buf[..o.i], f.head + Compacted(r), Demod(cfg, s, r.next, r.a, r.b));
    } else {
      assert o.buf == o.buf[..o.i] + s[o.i..];
    }
  }

  /** The whole demodulator, for every buffer that it ever finishes. */
  method Manchester(cfg: Config, buf: array<uint16>)
    requires !Hangs(cfg, Start(buf[..]))
    modifies buf
    ensures buf[..] == Final(cfg, Start(old(buf[..]))).buf
  {
    ghost var start := Start(buf[..]);
    var a: uint16, b: uint16 := 0, 0;
    var i := 0;
    while i < buf.Length - 1
      invariant i <= buf.Length
      invariant !Hangs(cfg, Outer(buf[..], i, a, b)) && Final(cfg, Outer(buf[..], i, a, b)) == Final(cfg, start)
      decreases buf.Length - i, Patience(cfg, Outer(buf[..], i, a, b))
    {
      ghost var o := Outer(buf[..], i, a, b);
      i, a, b := FindPreamble(buf, i, a, b);
      i, a, b := MarkBits(cfg, buf, i, a, b);
      assert Outer(buf[..], i, a, b) == Pass(cfg, o);
      PassKeepsFinal(cfg, o);
    }
  }

  /** The framer, with the frame buffer it fills; `shown` are the frames handed to display. */
  method Messages(buf: array<uint16>, adsbFrame: array<nat>) returns (shown: seq<Shown>)
    requires adsbFrame.Length == 14
    modifies adsbFrame
    ensures shown == Frames(buf[..], 0)
    ensures forall sent | LaidOut(buf[..], 0, sent) :: ShowsAll(shown, sent)
  {
    hide LaidOut, ShowsAll, Collect;
    ghost var s := buf[..];
    shown := [];
    var i := 0;
    while i < buf.Length
      invariant shown + Frames(s, i) == Frames(s, 0)
      decreases buf.Length - i
    {
      if buf[i] > 1 {
        i := i + 1;
        continue;
      }
      ghost var i0 := i;
      var dataI, frameLen;
      i, dataI, frameLen := CollectFrame(buf, adsbFrame, i);
      if dataI + 1 >= frameLen {
        shown := shown + [Shown(adsbFrame[..], frameLen)];
      }
      i := i + 1;
    }
    assert shown == shown + Frames(s, i);
    forall sent | LaidOut(s, 0, sent)
      ensures ShowsAll(shown, sent)
    {
      AllFrames(s, 0, sent);
    }
  }

  method CollectFrame(buf: array<uint16>, adsbFrame: array<nat>, i0: nat) returns (i: nat, dataI: nat, frameLen: nat)
    requires adsbFrame.Length == 14 && i0 < buf.Length
    modifies adsbFrame
    ensures Collect(buf[..], i0, EmptyFrame(), 0, LONG_FRAME) == Collected(adsbFrame[..], dataI, frameLen, i) && i >= i0
  {
    hide SetBit;
    ghost var s := buf[..];
    i, dataI, frameLen := i0, 0, LONG_FRAME;
    for index := 0 to 14
      invariant forall k | 0 <= k < index :: adsbFrame[k] == 0
    {
      adsbFrame[index] := 0;
    }
    assert adsbFrame[..] == EmptyFrame();
    while i < buf.Length && buf[i] <= 1 && dataI < frameLen
      invariant i0 <= i <= buf.Length && dataI <= frameLen <= LONG_FRAME
      invariant Collect(s, i, adsbFrame[..], dataI, frameLen) == Collect(s, i0, EmptyFrame(), 0, LONG_FRAME)
      decreases buf.Length - i
    {
      ghost var frame := adsbFrame[..];
      if buf[i] != 0 {
        var index := dataI / 8;
        var shift := 7 - dataI % 8;
        adsbFrame[index] := SetBit(adsbFrame[index], shift);
        assert adsbFrame[..] == frame[index := SetBit(frame[index], shift)];
      }
      if dataI == 7 {
        if adsbFrame[0] == 0 {
          break;
        }
        frameLen := if adsbFrame[0] / 128 % 2 == 1 then LONG_FRAME else SHORT_FRAME;
      }
      i := i + 1;
      dataI := dataI + 1;
    }
  }
}
