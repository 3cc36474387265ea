/** What the framer shows: bits to bytes, whole messages and cut ones, and lists of messages. */
module AdsbFraming {
  import opened CInts
  import opened DivMod
  import opened AdsbSpec

  /** The number made by the first k bits of byte j, most significant first. */
  function LeadingBits(msg: seq<uint16>, j: nat, k: nat): nat
    requires 8 * j + k <= |msg|
  {
    if k == 0 then 0 else 2 * LeadingBits(msg, j, k - 1) + if msg[8 * j + k - 1] != 0 then 1 else 0
  }

  /** The bytes of a message of whole bytes, padded with zero bytes to the frame buffer's length. */
  function MessageBytes(msg: seq<uint16>): (r: seq<nat>)
    requires |msg| % 8 == 0 && |msg| <= LONG_FRAME
  {
    seq(14, j requires 0 <= j < 14 => if 8 * j < |msg| then LeadingBits(msg, j, 8) else 0)
  }

  /** The frame buffer after d bits of the message. */
  function FrameAfter(msg: seq<uint16>, d: nat): (r: seq<nat>)
    requires d <= |msg|
    ensures |r| == 14
  {
    seq(14, j requires 0 <= j < 14 =>
      if d <= 8 * j then 0 else if d < 8 * j + 8 then LeadingBits(msg, j, d - 8 * j) * Pow2(8 - (d - 8 * j))
      else LeadingBits(msg, j, 8))
  }

  lemma {:induction false} SetClearBit(h: nat, m: nat)
    ensures SetBit(h * Pow2(m + 1), m) == (2 * h + 1) * Pow2(m)
  {
    var p := Pow2(m);
    DivExact(2 * h, p);
    assert h * Pow2(m + 1) == (2 * h) * p;
    assert (2 * h + 1) * p == (2 * h) * p + p;
  }

  /** One bit more in the byte that is being filled. */
  lemma {:induction false} ByteStep(msg: seq<uint16>, d: nat, j: nat, e: nat)
    requires d < |msg| <= LONG_FRAME && d == 8 * j + e && e < 8
    ensures var f, g := FrameAfter(msg, d)[j], FrameAfter(msg, d + 1)[j];
            g == if msg[d] != 0 then SetBit(f, 7 - e) else f
  {
    hide SetBit;
    var h := LeadingBits(msg, j, e);
    SetClearBit(h, 7 - e);
    assert Pow2(8 - e) == 2 * Pow2(7 - e);
    assert Pow2(0) == 1;
    assert FrameAfter(msg, d)[j] == h * Pow2(8 - e);
    assert LeadingBits(msg, j, e + 1) == 2 * h + if msg[d] != 0 then 1 else 0;
    assert FrameAfter(msg, d + 1)[j] == LeadingBits(msg, j, e + 1) * Pow2(7 - e);
    DoubleTimes(h, Pow2(7 - e));
  }

  lemma {:induction false} OtherByte(msg: seq<uint16>, d: nat, j: nat, i: nat)
    requires d < |msg| <= LONG_FRAME && 8 * j <= d < 8 * j + 8 && i < 14 && i != j
    ensures FrameAfter(msg, d + 1)[i] == FrameAfter(msg, d)[i]
  {
    hide LeadingBits;
  }

  lemma {:induction false} FrameStep(msg: seq<uint16>, d: nat)
    requires d < |msg| <= LONG_FRAME
    ensures var f := FrameAfter(msg, d);
            FrameAfter(msg, d + 1) == if msg[d] != 0 then f[d / 8 := SetBit(f[d / 8], 7 - d % 8)] else f
  {
    hide FrameAfter, SetBit;
    var j, e := d / 8, d % 8;
    ByteStep(msg, d, j, e);
    forall i | 0 <= i < 14 && i != j
      ensures FrameAfter(msg, d + 1)[i] == FrameAfter(msg, d)[i]
    {
      OtherByte(msg, d, j, i);
    }
  }

  lemma {:induction false} DoubleTimes(h: nat, p: nat)
    ensures (2 * h) * p == h * (2 * p)
  {
  }

  /** A long message has its top bit set; a short one has it clear and a first byte that is not zero. */
  predicate ValidMessage(msg: seq<uint16>) {
    (forall k | 0 <= k < |msg| :: msg[k] <= 1) &&
    ((|msg| == LONG_FRAME && msg[0] == 1) || (|msg| == SHORT_FRAME && msg[0] == 0 && LeadingBits(msg, 0, 8) != 0))
  }

  lemma {:induction false} FirstByte(msg: seq<uint16>)
    requires ValidMessage(msg)
    ensures LeadingBits(msg, 0, 8) < 256
    ensures LeadingBits(msg, 0, 8) != 0 && (LeadingBits(msg, 0, 8) / 128 % 2 == 1 <==> |msg| == LONG_FRAME)
  {
    LeadingOne(msg, 7);
    LeadingOne(msg, 8);
  }

  lemma {:induction false} LeadingOne(msg: seq<uint16>, k: nat)
    requires 1 <= k <= 8 <= |msg| && msg[0] <= 1
    ensures LeadingBits(msg, 0, k) < Pow2(k)
    ensures msg[0] == 1 <==> LeadingBits(msg, 0, k) >= Pow2(k - 1)
  {
    if k > 1 {
      LeadingOne(msg, k - 1);
    } else {
      assert LeadingBits(msg, 0, 0) == 0 && Pow2(1) == 2 * Pow2(0);
    }
  }

  /** The length assumed after d bits: a long frame until the first byte tells. */
  function LengthAfter(msg: seq<uint16>, d: nat): nat {
    if d < 8 then LONG_FRAME else |msg|
  }

  lemma {:induction false} CollectStep(s: seq<uint16>, i: nat, msg: seq<uint16>, d: nat)
    requires ValidMessage(msg) && d < |msg| && i < |s| && s[i] == msg[d]
    ensures Collect(s, i, FrameAfter(msg, d), d, LengthAfter(msg, d))
         == Collect(s, i + 1, FrameAfter(msg, d + 1), d + 1, LengthAfter(msg, d + 1))
  {
    FrameStep(msg, d);
    if d == 7 {
      FirstByte(msg);
      assert FrameAfter(msg, 8)[0] == LeadingBits(msg, 0, 8);
    }
  }

  /** Collecting from bit d on goes through bit e, as long as the message's bits are there. */
  lemma {:induction false} CollectUpTo(s: seq<uint16>, start: nat, msg: seq<uint16>, d: nat, e: nat)
    requires ValidMessage(msg) && d <= e <= |msg| && start + e <= |s|
    requires forall k | 0 <= k < e :: s[start + k] == msg[k]
    ensures Collect(s, start + d, FrameAfter(msg, d), d, LengthAfter(msg, d))
         == Collect(s, start + e, FrameAfter(msg, e), e, LengthAfter(msg, e))
    decreases e - d
  {
    hide Collect, FrameAfter, LeadingBits;
    if d < e {
      CollectStep(s, start + d, msg, d);
      CollectUpTo(s, start, msg, d + 1, e);
    }
  }

  /** Nothing is collected from a marker, from the end or into a full frame. */
  lemma {:induction false} CollectDone(s: seq<uint16>, i: nat, frame: seq<nat>, d: nat, len: nat)
    requires |frame| == 14 && d <= len <= LONG_FRAME && (i >= |s| || s[i] > 1 || d == len)
    ensures Collect(s, i, frame, d, len) == Collected(frame, d, len, i)
  {
  }

  lemma {:induction false} FramesSkip(s: seq<uint16>, i: nat, j: nat)
    requires i <= j <= |s| && forall k | i <= k < j :: s[k] > 1
    ensures Frames(s, i) == Frames(s, j)
    decreases j - i
  {
    if i < j {
      FramesSkip(s, i + 1, j);
    }
  }

  lemma {:induction false} FrameWhole(msg: seq<uint16>)
    requires |msg| == LONG_FRAME || |msg| == SHORT_FRAME
    ensures FrameAfter(msg, |msg|) == MessageBytes(msg)
  {
    hide LeadingBits;
  }

  lemma {:induction false} FrameComplete(msg: seq<uint16>)
    requires ValidMessage(msg)
    ensures FrameAfter(msg, 0) == EmptyFrame() && FrameAfter(msg, |msg|) == MessageBytes(msg)
  {
    hide LeadingBits;
    FrameWhole(msg);
  }

  /** The message is there from sample i on. */
  ghost predicate MessageAt(s: seq<uint16>, i: nat, msg: seq<uint16>) {
    ValidMessage(msg) && i + |msg| <= |s| && forall k | 0 <= k < |msg| :: s[i + k] == msg[k]
  }

  /** A message is shown byte for byte; the sample behind it is skipped. */
  lemma {:induction false} FramesStep(s: seq<uint16>, i: nat, msg: seq<uint16>)
    requires MessageAt(s, i, msg)
    ensures Frames(s, i) == [Shown(MessageBytes(msg), |msg|)] + Frames(s, i + |msg| + 1)
  {
    hide Collect, FrameAfter, LeadingBits;
    FrameComplete(msg);
    CollectUpTo(s, i, msg, 0, |msg|);
    CollectDone(s, i + |msg|, FrameAfter(msg, |msg|), |msg|, |msg|);
    assert s[i + 0] == msg[0];
  }

  /** A message cut short is shown exactly if only its last bit is missing, as if that were 0. */
  lemma {:induction false} CutMessage(s: seq<uint16>, i: nat, msg: seq<uint16>, d: nat)
    requires ValidMessage(msg) && 0 < d < |msg| && i + d <= |s| && (i + d < |s| ==> s[i + d] > 1)
    requires forall k | 0 <= k < d :: s[i + k] == msg[k]
    ensures Frames(s, i) ==
              (if d == |msg| - 1 then [Shown(MessageBytes(msg[|msg| - 1 := 0]), |msg|)] else [])
              + Frames(s, i + d + 1)
  {
    hide Collect, FrameAfter, LeadingBits, MessageBytes;
    FrameComplete(msg);
    CollectUpTo(s, i, msg, 0, d);
    CollectDone(s, i + d, FrameAfter(msg, d), d, LengthAfter(msg, d));
    assert s[i + 0] == msg[0];
    if d == |msg| - 1 {
      LastBitClear(msg);
    }
  }

  lemma {:induction false} LastBitClear(msg: seq<uint16>)
    requires ValidMessage(msg)
    ensures FrameAfter(msg, |msg| - 1) == MessageBytes(msg[|msg| - 1 := 0])
  {
    hide FrameAfter, MessageBytes, LeadingBits;
    var n := |msg| - 1;
    var cut := msg[n := 0];
    FrameStep(cut, n);
    FrameWhole(cut);
    forall j | 0 <= j < 14
      ensures FrameAfter(cut, n)[j] == FrameAfter(msg, n)[j]
    {
      SameFrame(cut, msg, n, j);
    }
  }

  lemma {:induction false} SameFrame(x: seq<uint16>, y: seq<uint16>, d: nat, j: nat)
    requires |x| == |y| && d <= |x| && j < 14 && forall k | 0 <= k < d :: x[k] == y[k]
    ensures FrameAfter(x, d)[j] == FrameAfter(y, d)[j]
  {
    if 8 * j < d {
      SameBits(x, y, j, if d < 8 * j + 8 then d - 8 * j else 8);
    }
  }

  lemma {:induction false} SameBits(x: seq<uint16>, y: seq<uint16>, j: nat, n: nat)
    requires 8 * j + n <= |x| && |x| == |y| && forall k | 0 <= k < 8 * j + n :: x[k] == y[k]
    ensures LeadingBits(x, j, n) == LeadingBits(y, j, n)
  {
    if n > 0 {
      SameBits(x, y, j, n - 1);
    }
  }

  /** Eight zero bits are dropped, and the framer starts again behind them. */
  lemma {:induction false} EmptyByte(s: seq<uint16>, i: nat)
    requires i + 8 <= |s| && s[i..i + 8] == Fill(8, 0)
    ensures Frames(s, i) == Frames(s, i + 8)
  {
    hide Collect;
    ZeroBits(s, i, 0);
    assert s[i] == s[i..i + 8][0];
  }

  lemma {:induction false} ZeroBits(s: seq<uint16>, i: nat, d: nat)
    requires d < 8 && i + 8 <= |s| && s[i..i + 8] == Fill(8, 0)
    ensures Collect(s, i + d, EmptyFrame(), d, LONG_FRAME) == Collected(EmptyFrame(), 7, LONG_FRAME, i + 7)
    decreases 8 - d
  {
    assert s[i + d] == s[i..i + 8][d] == 0;
    if d < 7 {
      ZeroBits(s, i, d + 1);
    }
  }

  // ----- lists of messages

  /** A message and the sample it starts at. */
  datatype Sent = Sent(at: nat, msg: seq<uint16>)

  /** The messages as frames. */
  function ShownOf(sent: seq<Sent>): seq<Shown>
    requires forall m | m in sent :: ValidMessage(m.msg)
  {
    if sent == [] then []
    else
      var msg := sent[0].msg;
      assert ValidMessage(msg);
      [Shown(MessageBytes(msg), |msg|)] + ShownOf(sent[1..])
  }

  /** The frames shown are, or start with, these messages. */
  ghost predicate ShowsAll(shown: seq<Shown>, sent: seq<Sent>) {
    (forall m | m in sent :: ValidMessage(m.msg)) && shown == ShownOf(sent)
  }

  ghost predicate ShowsFirst(shown: seq<Shown>, sent: seq<Sent>) {
    (forall m | m in sent :: ValidMessage(m.msg)) && ShownOf(sent) <= shown
  }

  /** From sample i on there are these messages, in order, each followed by a marker or the end, and nothing else. */
  ghost predicate LaidOut(s: seq<uint16>, i: nat, sent: seq<Sent>)
    decreases |sent|
  {
    if sent == [] then forall k | i <= k < |s| :: s[k] > 1
    else
      var m := sent[0];
      i <= m.at && MessageAt(s, m.at, m.msg) && (forall k | i <= k < m.at :: s[k] > 1) &&
      (m.at + |m.msg| < |s| ==> s[m.at + |m.msg|] > 1) && LaidOut(s, m.at + |m.msg|, sent[1..])
  }

  lemma {:induction false} LaidOutValid(s: seq<uint16>, i: nat, sent: seq<Sent>)
    requires LaidOut(s, i, sent)
    ensures forall m | m in sent :: ValidMessage(m.msg)
    decreases |sent|
  {
    hide ValidMessage;
    if sent != [] {
      LaidOutValid(s, sent[0].at + |sent[0].msg|, sent[1..]);
      assert sent == [sent[0]] + sent[1..];
    }
  }

  /** The framer shows exactly the messages that are there, byte for byte and in order. */
  lemma {:induction false} AllFrames(s: seq<uint16>, i: nat, sent: seq<Sent>)
    requires LaidOut(s, i, sent)
    ensures ShowsAll(Frames(s, i), sent)
    decreases |sent|
  {
    hide ValidMessage, MessageBytes;
    LaidOutValid(s, i, sent);
    if sent == [] {
      NoFrames(s, i);
    } else {
      var at, msg := sent[0].at, sent[0].msg;
      var next := at + |msg|;
      FramesSkip(s, i, at);
      FramesStep(s, at, msg);
      if next < |s| {
        FramesSkip(s, next, next + 1);
      }
      AllFrames(s, next, sent[1..]);
    }
  }

  lemma {:induction false} NoFrames(s: seq<uint16>, i: nat)
    requires forall k | i <= k < |s| :: s[k] > 1
    ensures Frames(s, i) == []
  {
    if i < |s| {
      FramesSkip(s, i, |s|);
    }
  }

  // ----- stray bits

  lemma {:induction false} CollectStops(s: seq<uint16>, i: nat, frame: seq<nat>, d: nat, len: nat, j: nat)
    requires |frame| == 14 && d <= len <= LONG_FRAME && len >= SHORT_FRAME && i <= j && (j < |s| ==> s[j] > 1)
    requires d + (j - i) < SHORT_FRAME && (i < |s| || i == j)
    requires j <= |s|
    ensures var c := Collect(s, i, frame, d, len);
            i <= c.next <= j && c.dataI == d + (c.next - i) && c.frameLen >= SHORT_FRAME
    decreases j - i
  {
    hide SetBit;
    if i < j && s[i] <= 1 {
      var f := if s[i] != 0 then frame[d / 8 := SetBit(frame[d / 8], 7 - d % 8)] else frame;
      if d == 7 {
        if f[0] != 0 {
          CollectStops(s, i + 1, f, d + 1, if f[0] / 128 % 2 == 1 then LONG_FRAME else SHORT_FRAME, j);
        }
      } else {
        CollectStops(s, i + 1, f, d + 1, len, j);
      }
    }
  }

  /** Fewer than 55 samples in a row that could be bits are never shown. */
  lemma {:induction false} StrayBits(s: seq<uint16>, i: nat, j: nat, k: nat)
    requires i <= k && j <= k <= |s| && j < i + SHORT_FRAME - 1 && (j < k || k == |s|)
    requires forall m | j <= m < k :: s[m] > 1
    ensures Frames(s, i) == Frames(s, k)
    decreases k - i
  {
    hide Collect;
    if i < j {
      if s[i] > 1 {
        StrayBits(s, i + 1, j, k);
      } else {
        CollectStops(s, i, EmptyFrame(), 0, LONG_FRAME, j);
        var next := Collect(s, i, EmptyFrame(), 0, LONG_FRAME).next;
        if next + 1 <= k {
          StrayBits(s, next + 1, j, k);
        }
      }
    } else {
      FramesSkip(s, i, k);
    }
  }
}
