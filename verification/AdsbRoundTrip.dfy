/**
 Encoding and decoding again: a Mode S reply sent as Manchester cells behind a
 preamble comes out of the demodulator and the framer byte for byte.
 */
module AdsbRoundTrip {
  import opened CInts
  import opened AdsbSpec
  import opened AdsbCells
  import opened AdsbFraming
  import opened AdsbOuter
  import opened AdsbSuffix

  /** The cell at k from `start` carries bit k of msg, first half high for 1, apart from its predecessor. */
  predicate CellCarries(s: seq<uint16>, start: nat, msg: seq<uint16>, k: nat)
    requires start + 2 * |msg| <= |s| && k < |msg|
  {
    var i := start + 2 * k;
    s[i] != s[i + 1] && msg[k] == Bit(s[i], s[i + 1]) && (k > 0 ==> Separated(s[i - 2], s[i - 1], s[i], s[i + 1]))
  }

  ghost predicate Encoded(s: seq<uint16>, start: nat, msg: seq<uint16>) {
    start + 2 * |msg| <= |s| && forall k | 0 <= k < |msg| :: CellCarries(s, start, msg, k)
  }

  lemma {:induction false} PrefixGrows(msg: seq<uint16>, k: nat, bits: seq<uint16>)
    requires k < |msg| && msg[k + 1..] <= bits
    ensures msg[k..] <= [msg[k]] + bits
  {
    assert msg[k..] == [msg[k]] + msg[k + 1..];
  }

  /** Aligned with the message's cells at position i, the rest of the message is decoded. */
  lemma {:induction false} AlignedDecodes(cfg: Config, s: seq<uint16>, start: nat, msg: seq<uint16>, k: nat, i: nat,
                                          a: uint16, b: uint16, errors: nat)
    requires Encoded(s, start, msg) && k <= |msg| && i == start + 2 * k
    requires k < |msg| ==> (a == 0 && b == 65535) || Separated(a, b, s[i], s[i + 1])
    ensures msg[k..] <= DecodeRun(cfg, s, i, a, b, errors).bits
    decreases |msg| - k
  {
    if k < |msg| {
      assert CellCarries(s, start, msg, k);
      assert k + 1 < |msg| ==> CellCarries(s, start, msg, k + 1);
      CellDecodes(cfg.quality, a, b, s[i], s[i + 1]);
      AlignedDecodes(cfg, s, start, msg, k + 1, i + 2, s[i], s[i + 1], errors);
      PrefixGrows(msg, k, DecodeRun(cfg, s, i + 2, s[i], s[i + 1], errors).bits);
    }
  }

  /** The message's first cell is read after (a, b): with one error to spare, whatever that pair is. */
  predicate Entered(cfg: Config, s: seq<uint16>, start: nat, a: uint16, b: uint16) {
    cfg.allowedErrors >= 1 || (start + 1 < |s| && Separated(a, b, s[start], s[start + 1]))
  }

  lemma {:induction false} MessageDecodes(cfg: Config, s: seq<uint16>, start: nat, msg: seq<uint16>, a: uint16,
                                          b: uint16)
    requires Entered(cfg, s, start, a, b) && Encoded(s, start, msg)
    ensures msg <= DecodeRun(cfg, s, start, a, b, 0).bits
  {
    if msg != [] {
      assert CellCarries(s, start, msg, 0);
      assert 1 < |msg| ==> CellCarries(s, start, msg, 1);
      assert msg == [msg[0]] + msg[1..];
      if SingleManchester(cfg.quality, a, b, s[start], s[start + 1]) == BADSAMPLE {
        AlignedDecodes(cfg, s, start, msg, 1, start + 2, 0, 65535, 1);
      } else {
        AlignedDecodes(cfg, s, start, msg, 1, start + 2, s[start], s[start + 1], 0);
      }
    }
  }

  // ----- the demodulated buffer

  /** The first preamble that the search meets from sample i on. */
  ghost predicate NextPreamble(s: seq<uint16>, i: nat, p: nat) {
    i <= p && p + PREAMBLE_LEN < |s| && PreambleAt(s, p) && forall j | i <= j < p :: !PreambleAt(s, j)
  }

  lemma {:induction false} SearchFinds(s: seq<uint16>, p: nat, i: nat)
    requires NextPreamble(s, i, p)
    ensures Search(s, i) == p
    decreases p - i
  {
    if i < p {
      SearchFinds(s, p, i + 1);
    }
  }

  lemma {:induction false} ShorterPrefix(a: seq<uint16>, b: seq<uint16>, i: nat, j: nat)
    requires i <= j <= |a| == |b| && a[..j] == b[..j]
    ensures a[..i] == b[..i]
  {
    assert a[..i] == a[..j][..i] && b[..i] == b[..j][..i];
  }

  /** What a turn leaves behind its cursor is final. */
  lemma {:induction false} FinalKeeps(cfg: Config, o: Outer)
    requires o.i <= |o.buf| && !Hangs(cfg, o)
    ensures Final(cfg, o).buf[..o.i] == o.buf[..o.i]
    decreases |o.buf| - o.i, Patience(cfg, o)
  {
    hide Final, Hangs, Pass, Patience;
    if InLoop(o) {
      var p := Pass(cfg, o);
      PassKeepsFinal(cfg, o);
      PassFrames(cfg, o);
      FinalKeeps(cfg, p);
      ShorterPrefix(p.buf, Final(cfg, p).buf, o.i, p.i);
    } else {
      OutsideFinished(cfg, o);
    }
  }

  /** The run of cells behind the preamble at p. */
  function RunAt(cfg: Config, s: seq<uint16>, p: nat): (r: Run)
    requires p + PREAMBLE_LEN < |s|
    ensures r.next == p + PREAMBLE_LEN + 2 * |r.bits| && r.next <= |s|
  {
    DecodeRun(cfg, s, p + PREAMBLE_LEN, s[p], s[p + 1], 0)
  }

  /**
   The turn that meets a preamble with a message behind it: the samples before it stay, the preamble becomes
   markers, and the message's bits follow, ahead of whatever else the run decodes; the rest is untouched.
   */
  lemma {:induction false} MessagePass(cfg: Config, s: seq<uint16>, o: Outer, p: nat, msg: seq<uint16>)
    requires o.i <= |s| == |o.buf| && o.buf[o.i..] == s[o.i..] && NextPreamble(s, o.i, p)
    requires msg != [] && Encoded(s, p + PREAMBLE_LEN, msg) && Entered(cfg, s, p + PREAMBLE_LEN, s[p], s[p + 1])
    ensures var r := RunAt(cfg, s, p);
            var head := o.buf[..o.i] + s[o.i..p] + Fill(16, 253);
            msg <= r.bits && Pass(cfg, o) == Outer(head + Compacted(r) + s[r.next..], r.next, r.a, r.b)
  {
    hide Encoded, Entered, DecodeRun, Fill, Compacted;
    SearchFinds(s, p, o.i);
    FindSuffix(o.buf, s, o.i, o.a, o.b);
    var start, head := p + PREAMBLE_LEN, o.buf[..o.i] + s[o.i..p] + Fill(PREAMBLE_LEN, MESSAGEGO);
    var f := FindFrom(o.buf, o.i, o.a, o.b);
    assert f == Found(s[o.i..p] + Fill(PREAMBLE_LEN, MESSAGEGO), start, s[p], s[p + 1]);
    var mid := o.buf[..o.i] + f.head + o.buf[f.start..];
    TailOf(o.buf, s, o.i, start);
    assert mid == head + s[start..];
    assert mid[start..] == s[start..];
    DecodeSuffix(cfg, mid, s, start, start, s[p], s[p + 1], 0);
    MessageDecodes(cfg, s, start, msg, s[p], s[p + 1]);
    var r := RunAt(cfg, s, p);
    TailOf(mid, s, start, r.next);
    assert mid[..start] == head;
  }

  lemma {:induction false} TailOf(s: seq<uint16>, t: seq<uint16>, i: nat, j: nat)
    requires |s| == |t| && i <= j <= |s| && s[i..] == t[i..]
    ensures s[j..] == t[j..]
  {
    assert s[j..] == s[i..][j - i..] && t[j..] == t[i..][j - i..];
  }

  // ----- the round trip

  /** The run goes on for at most 55 cells behind the message: too few for a frame. */
  predicate EndsSoon(cfg: Config, s: seq<uint16>, m: Sent)
    requires m.at + PREAMBLE_LEN < |s|
  {
    |RunAt(cfg, s, m.at).bits| <= |m.msg| + SHORT_FRAME - 1
  }

  /** A preamble is next after i, behind samples above 1, and the message's cells follow it. */
  ghost predicate Transmitted(cfg: Config, s: seq<uint16>, i: nat, m: Sent) {
    NextPreamble(s, i, m.at) && (forall k | i <= k < m.at :: s[k] > 1) && ValidMessage(m.msg) &&
    Encoded(s, m.at + PREAMBLE_LEN, m.msg) && Entered(cfg, s, m.at + PREAMBLE_LEN, s[m.at], s[m.at + 1])
  }

  /** From sample i on these messages are transmitted, each after the run of the one before has broken. */
  ghost predicate Broadcast(cfg: Config, s: seq<uint16>, i: nat, sent: seq<Sent>)
    decreases |sent|
  {
    sent != [] ==>
      Transmitted(cfg, s, i, sent[0]) && (|sent| > 1 ==> EndsSoon(cfg, s, sent[0])) &&
      Broadcast(cfg, s, RunAt(cfg, s, sent[0].at).next, sent[1..])
  }

  /** And behind the last one there is neither a preamble nor, except in the last 16 samples, one below 2. */
  ghost predicate Silence(cfg: Config, s: seq<uint16>, i: nat, sent: seq<Sent>)
    requires Broadcast(cfg, s, i, sent)
    decreases |sent|
  {
    if sent == [] then forall k | i <= k && k + PREAMBLE_LEN < |s| :: s[k] > 1 && !PreambleAt(s, k)
    else EndsSoon(cfg, s, sent[0]) && Silence(cfg, s, RunAt(cfg, s, sent[0].at).next, sent[1..])
  }

  lemma {:induction false} BroadcastValid(cfg: Config, s: seq<uint16>, i: nat, sent: seq<Sent>)
    requires Broadcast(cfg, s, i, sent)
    ensures forall m | m in sent :: ValidMessage(m.msg)
    decreases |sent|
  {
    hide ValidMessage;
    if sent != [] {
      BroadcastValid(cfg, s, RunAt(cfg, s, sent[0].at).next, sent[1..]);
      assert sent == [sent[0]] + sent[1..];
    }
  }

  lemma {:induction false} SearchGivesUp(s: seq<uint16>, i: nat)
    requires i <= |s| && forall k | i <= k && k + PREAMBLE_LEN < |s| :: !PreambleAt(s, k)
    ensures Search(s, i) <= |s| <= Search(s, i) + PREAMBLE_LEN
    decreases |s| - i
  {
    if i + PREAMBLE_LEN < |s| {
      SearchGivesUp(s, i + 1);
    }
  }

  /** With no preamble left nothing more is shown, though the last samples are read as cells. */
  lemma {:induction false} NothingMore(cfg: Config, s: seq<uint16>, o: Outer)
    requires o.i <= |s| == |o.buf| && o.buf[o.i..] == s[o.i..] && !Hangs(cfg, o)
    requires forall k | o.i <= k && k + PREAMBLE_LEN < |s| :: s[k] > 1 && !PreambleAt(s, k)
    ensures Frames(Final(cfg, o).buf, o.i) == []
  {
    hide DecodeRun, Final, Frames, Hangs, PreambleAt, Pass;
    var out := Final(cfg, o).buf;
    SearchGivesUp(s, o.i);
    SearchSuffix(o.buf, s, o.i, o.i);
    var j := Search(s, o.i);
    if InLoop(o) {
      PassKeepsFinal(cfg, o);
      SearchedKept(cfg, o);
      var p := Pass(cfg, o);
      FinalKeeps(cfg, p);
      ShorterPrefix(out, p.buf, j, p.i);
    } else {
      OutsideFinished(cfg, o);
    }
    forall k | o.i <= k < j
      ensures out[k] > 1
    {
      assert out[k] == out[..j][k] == o.buf[..j][k];
      assert o.buf[k] == o.buf[o.i..][k - o.i] == s[k];
    }
    FramesSkip(out, o.i, j);
    StrayBits(out, j, |s|, |s|);
    NoFrames(out, |s|);
  }

  lemma {:induction false} SearchedKept(cfg: Config, o: Outer)
    requires o.i <= |o.buf| <= Search(o.buf, o.i) + PREAMBLE_LEN
    ensures var j := Search(o.buf, o.i); j <= Pass(cfg, o).i && Pass(cfg, o).buf[..j] == o.buf[..j]
  {
    hide DecodeRun, Search;
  }

  /** What the framer makes of one turn's output: the samples, the markers, the message, stray bits, markers. */
  lemma {:induction false} TurnFrames(out: seq<uint16>, pre: seq<uint16>, gap: seq<uint16>, r: Run, msg: seq<uint16>)
    requires ValidMessage(msg) && msg <= r.bits && (forall k | 0 <= k < |gap| :: gap[k] > 1)
    requires pre + gap + Fill(PREAMBLE_LEN, MESSAGEGO) + Compacted(r) <= out
    ensures var q := |pre| + |gap| + PREAMBLE_LEN;
            var f := Shown(MessageBytes(msg), |msg|);
            Frames(out, |pre|) == [f] + Frames(out, q + |msg| + 1) &&
            (|r.bits| < |msg| + SHORT_FRAME ==>
               Frames(out, |pre|) == [f] + Frames(out, q + 2 * |r.bits|))
  {
    hide Frames, MessageBytes;
    var q, n := |pre| + |gap| + PREAMBLE_LEN, |r.bits|;
    TurnValues(out, pre, gap, r);
    FramesSkip(out, |pre|, q);
    assert MessageAt(out, q, msg);
    FramesStep(out, q, msg);
    if n < |msg| + SHORT_FRAME {
      StrayBits(out, q + |msg| + 1, q + n, q + 2 * n);
    }
  }

  lemma {:induction false} TurnValues(out: seq<uint16>, pre: seq<uint16>, gap: seq<uint16>, r: Run)
    requires forall k | 0 <= k < |gap| :: gap[k] > 1
    requires pre + gap + Fill(PREAMBLE_LEN, MESSAGEGO) + Compacted(r) <= out
    ensures var q, n := |pre| + |gap| + PREAMBLE_LEN, |r.bits|;
            q + 2 * n <= |out| &&
            (forall k | |pre| <= k < q :: out[k] > 1) &&
            (forall k | 0 <= k < n :: out[q + k] == r.bits[k]) &&
            (forall k | q + n <= k < q + 2 * n :: out[k] > 1)
  {
    var h := pre + gap + Fill(PREAMBLE_LEN, MESSAGEGO);
    var all := h + Compacted(r);
    assert forall k | 0 <= k < |all| :: out[k] == all[k];
    forall k | 0 <= k < |r.bits|
      ensures out[|h| + k] == r.bits[k]
    {
      assert out[|h| + k] == all[|h| + k];
    }
  }

  /** The message is the next frame, and the only one up to `next` if the run ended soon. */
  ghost predicate NextShown(out: seq<uint16>, i: nat, msg: seq<uint16>, next: nat, soon: bool) {
    ValidMessage(msg) &&
    var f := Shown(MessageBytes(msg), |msg|);
    [f] <= Frames(out, i) && (soon ==> Frames(out, i) == [f] + Frames(out, next))
  }

  /** One transmission: its message is the next frame, and the only one up to where the run ended if that was soon. */
  lemma {:induction false} TransmissionShows(cfg: Config, s: seq<uint16>, o: Outer, m: Sent)
    requires o.i <= |s| == |o.buf| && o.buf[o.i..] == s[o.i..] && !Hangs(cfg, o) && Transmitted(cfg, s, o.i, m)
    ensures var p := Pass(cfg, o);
            p.i == RunAt(cfg, s, m.at).next && p.buf[p.i..] == s[p.i..] && |p.buf| == |s| &&
            !Hangs(cfg, p) && Final(cfg, p) == Final(cfg, o)
    ensures NextShown(Final(cfg, o).buf, o.i, m.msg, RunAt(cfg, s, m.at).next, EndsSoon(cfg, s, m))
  {
    hide Final, Frames, Hangs, PreambleAt, Pass, Encoded, Entered, MessageBytes, RunAt, Fill, Compacted;
    var r := RunAt(cfg, s, m.at);
    var pre, gap := o.buf[..o.i], s[o.i..m.at];
    var turn := pre + gap + Fill(PREAMBLE_LEN, MESSAGEGO) + Compacted(r);
    MessagePass(cfg, s, o, m.at, m.msg);
    PassKeepsFinal(cfg, o);
    var p := Pass(cfg, o);
    JoinedParts(turn, s, p.buf, p.i);
    FinalKeeps(cfg, p);
    TurnFrames(Final(cfg, p).buf, pre, gap, r, m.msg);
  }

  lemma {:induction false} JoinedParts(turn: seq<uint16>, s: seq<uint16>, buf: seq<uint16>, i: nat)
    requires i == |turn| <= |s| && buf == turn + s[i..]
    ensures buf[..i] == turn && buf[i..] == s[i..]
  {
  }

  lemma {:induction false} BroadcastShows(cfg: Config, s: seq<uint16>, o: Outer, sent: seq<Sent>)
    requires o.i <= |s| == |o.buf| && o.buf[o.i..] == s[o.i..] && !Hangs(cfg, o) && Broadcast(cfg, s, o.i, sent)
    ensures ShowsFirst(Frames(Final(cfg, o).buf, o.i), sent)
    ensures Silence(cfg, s, o.i, sent) ==> ShowsAll(Frames(Final(cfg, o).buf, o.i), sent)
    decreases |sent|
  {
    hide Final, Frames, Hangs, PreambleAt, Pass, Transmitted, EndsSoon, ValidMessage, MessageBytes, RunAt;
    BroadcastValid(cfg, s, o.i, sent);
    if sent == [] {
      if Silence(cfg, s, o.i, sent) {
        NothingMore(cfg, s, o);
      }
    } else {
      TransmissionShows(cfg, s, o, sent[0]);
      BroadcastShows(cfg, s, Pass(cfg, o), sent[1..]);
    }
  }

  /**
   The round trip, for every quality setting: valid messages, each sent as cells behind a preamble with no sample
   below 2 before it, are the first frames shown, byte for byte and in order, whatever follows the last one; if
   nothing does, they are all the frames. Without a tolerated error the messages must also be entered cleanly and
   the demodulator must finish.
   */
  lemma {:induction false} RoundTrip(cfg: Config, s: seq<uint16>, sent: seq<Sent>)
    requires Broadcast(cfg, s, 0, sent) && (cfg.allowedErrors >= 1 || !Hangs(cfg, Start(s)))
    ensures !Hangs(cfg, Start(s)) && ShowsFirst(Frames(Final(cfg, Start(s)).buf, 0), sent)
    ensures Silence(cfg, s, 0, sent) ==> ShowsAll(Frames(Final(cfg, Start(s)).buf, 0), sent)
  {
    hide Broadcast, Final, Frames, Hangs, Silence, ShowsAll, ShowsFirst;
    if cfg.allowedErrors >= 1 {
      SafeSettings(cfg, Start(s));
    }
    BroadcastShows(cfg, s, Start(s), sent);
  }
}
