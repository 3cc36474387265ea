/**
 The outer loop of the demodulator as a transition system: what one turn does, and
 which buffers it never finishes.
 */
module AdsbOuter {
  import opened CInts
  import opened AdsbSpec

  /** The buffer after a whole run from `start`; a run that breaks at once leaves its mark on the first sample. */
  function AfterRun(s: seq<uint16>, start: nat, r: Run): seq<uint16>
    requires start <= r.next <= |s|
  {
    if r.broken && r.bits == [] && start < |s| then s[start := BADSAMPLE]
    else s[..start] + Compacted(r) + s[r.next..]
  }

  /** The state of the outer loop of manchester. */
  datatype Outer = Outer(buf: seq<uint16>, i: nat, a: uint16, b: uint16)

  function Start(s: seq<uint16>): Outer {
    Outer(s, 0, 0, 0)
  }

  predicate InLoop(o: Outer) {
    o.i + 1 < |o.buf|
  }

  /** One turn, whatever the error limit. */
  function Pass(cfg: Config, o: Outer): (p: Outer)
    requires o.i <= |o.buf|
    ensures |p.buf| == |o.buf| && o.i <= p.i <= |o.buf|
  {
    var f := FindFrom(o.buf, o.i, o.a, o.b);
    var mid := o.buf[..o.i] + f.head + o.buf[f.start..];
    var r := DecodeRun(cfg, mid, f.start, f.a, f.b, 0);
    Outer(AfterRun(mid, f.start, r), r.next, r.a, r.b)
  }

  /** With an error to spare every turn moves on. */
  lemma {:induction false} PassAdvances(cfg: Config, o: Outer)
    requires cfg.allowedErrors >= 1 && InLoop(o)
    ensures Pass(cfg, o).i > o.i
  {
  }

  /** Without one, a turn stands still exactly when the search is over and the first cell is bad. */
  lemma {:induction false} StandsStillIff(cfg: Config, o: Outer)
    requires InLoop(o)
    ensures Pass(cfg, o).i == o.i <==>
              cfg.allowedErrors <= 0 && |o.buf| <= o.i + PREAMBLE_LEN &&
              SingleManchester(cfg.quality, o.a, o.b, o.buf[o.i], o.buf[o.i + 1]) == BADSAMPLE
    ensures Pass(cfg, o).i == o.i ==>
              Pass(cfg, o) == Outer(o.buf[o.i := BADSAMPLE], o.i, o.buf[o.i], o.buf[o.i + 1])
  {
    var f := FindFrom(o.buf, o.i, o.a, o.b);
    if f.start == o.i {
      assert o.buf[..o.i] + f.head + o.buf[f.start..] == o.buf;
      assert f.a == o.a && f.b == o.b;
    }
  }

  /** A turn leaves everything behind its cursor as it was, and everything in front of it but the sample there. */
  lemma {:induction false} PassFrames(cfg: Config, o: Outer)
    requires o.i <= |o.buf|
    ensures Pass(cfg, o).buf[..o.i] == o.buf[..o.i]
    ensures forall k :: Pass(cfg, o).i < k < |o.buf| ==> Pass(cfg, o).buf[k] == o.buf[k]
  {
    hide DecodeRun, FindFrom;
  }

  /** It stands still on a second sample of 255, which the mark on the first will always match. */
  predicate Stalls(cfg: Config, o: Outer)
    requires InLoop(o)
  {
    Pass(cfg, o).i == o.i && cfg.quality != 5 && o.buf[o.i + 1] == BADSAMPLE
  }

  /** From a stall every further turn is another. */
  lemma {:induction false} StallsForever(cfg: Config, o: Outer)
    requires InLoop(o) && Stalls(cfg, o)
    ensures InLoop(Pass(cfg, o)) && Stalls(cfg, Pass(cfg, o))
  {
    StandsStillIff(cfg, o);
    StandsStillIff(cfg, Pass(cfg, o));
  }

  /** A marked cell after itself is bad only if both of its samples are marks. */
  lemma {:induction false} MarkedCell(quality: int, x: uint16)
    ensures SingleManchester(quality, BADSAMPLE, x, BADSAMPLE, x) == BADSAMPLE <==>
              quality != 0 && quality != 5 && x == BADSAMPLE
  {
  }

  /** Otherwise the third turn has moved on at the latest. */
  lemma {:induction false} MovesWithinThree(cfg: Config, o: Outer)
    requires InLoop(o) && !Stalls(cfg, o)
    ensures var p := Pass(cfg, o); p.i > o.i || var q := Pass(cfg, p); q.i > o.i || Pass(cfg, q).i > o.i
    ensures Pass(cfg, o).i == o.i ==> !Stalls(cfg, Pass(cfg, o))
  {
    hide Pass, SingleManchester;
    var p := Pass(cfg, o);
    StandsStillIff(cfg, o);
    if p.i == o.i {
      StandsStillIff(cfg, p);
      if Pass(cfg, p).i == o.i {
        StandsStillIff(cfg, Pass(cfg, p));
        MarkedCell(cfg.quality, o.buf[o.i + 1]);
      }
    }
  }

  /** Turns until the cursor moves. */
  function Patience(cfg: Config, o: Outer): nat
    requires o.i <= |o.buf|
  {
    if !InLoop(o) || Pass(cfg, o).i > o.i then 0
    else if Pass(cfg, Pass(cfg, o)).i > o.i then 1
    else 2
  }

  /** The first state with a moved cursor. */
  function Onward(cfg: Config, o: Outer): (n: Outer)
    requires InLoop(o) && !Stalls(cfg, o)
    ensures |n.buf| == |o.buf| && o.i < n.i <= |n.buf|
  {
    MovesWithinThree(cfg, o);
    var p := Pass(cfg, o);
    if p.i > o.i then p
    else if Pass(cfg, p).i > o.i then Pass(cfg, p)
    else Pass(cfg, Pass(cfg, p))
  }

  /** The loop comes to a stall. */
  predicate Hangs(cfg: Config, o: Outer)
    requires o.i <= |o.buf|
    decreases |o.buf| - o.i
  {
    InLoop(o) && (Stalls(cfg, o) || Hangs(cfg, Onward(cfg, o)))
  }

  /** The state the loop ends in. */
  function Final(cfg: Config, o: Outer): (e: Outer)
    requires o.i <= |o.buf| && !Hangs(cfg, o)
    ensures |e.buf| == |o.buf| && o.i <= e.i <= |e.buf| && !InLoop(e)
    decreases |o.buf| - o.i
  {
    if InLoop(o) then Final(cfg, Onward(cfg, o)) else o
  }

  /** One turn changes neither the outcome nor, standing still, more than the patience left. */
  lemma {:induction false} PassKeepsFinal(cfg: Config, o: Outer)
    requires InLoop(o)
    ensures Hangs(cfg, o) == Hangs(cfg, Pass(cfg, o))
    ensures !Hangs(cfg, o) ==> Final(cfg, o) == Final(cfg, Pass(cfg, o))
    ensures !Hangs(cfg, o) && Pass(cfg, o).i == o.i ==> Patience(cfg, Pass(cfg, o)) < Patience(cfg, o)
  {
    if Stalls(cfg, o) {
      StallsForever(cfg, o);
    } else {
      MovesWithinThree(cfg, o);
      var p := Pass(cfg, o);
      if p.i == o.i {
        MovesWithinThree(cfg, p);
      }
    }
  }

  /** The state after n turns, or where the loop has ended before. */
  function Turns(cfg: Config, o: Outer, n: nat): (e: Outer)
    requires o.i <= |o.buf|
    ensures |e.buf| == |o.buf| && e.i <= |e.buf|
    decreases n
  {
    if n == 0 || !InLoop(o) then o else Turns(cfg, Pass(cfg, o), n - 1)
  }

  lemma {:induction false} HangingStaysIn(cfg: Config, o: Outer, n: nat)
    requires o.i <= |o.buf| && Hangs(cfg, o)
    ensures InLoop(Turns(cfg, o, n))
    decreases n
  {
    if n > 0 {
      PassKeepsFinal(cfg, o);
      HangingStaysIn(cfg, Pass(cfg, o), n - 1);
    }
  }

  lemma {:induction false} FinishesIn(cfg: Config, o: Outer) returns (n: nat)
    requires o.i <= |o.buf| && !Hangs(cfg, o)
    ensures Turns(cfg, o, n) == Final(cfg, o)
    decreases |o.buf| - o.i, Patience(cfg, o)
  {
    if InLoop(o) {
      PassKeepsFinal(cfg, o);
      n := FinishesIn(cfg, Pass(cfg, o));
      n := n + 1;
    } else {
      n := 0;
    }
  }

  /** The loop of manchester runs forever on a buffer exactly when that buffer takes it to a stall. */
  lemma {:induction false} RunsForeverIff(cfg: Config, s: seq<uint16>)
    ensures (forall n: nat :: InLoop(Turns(cfg, Start(s), n))) <==> Hangs(cfg, Start(s))
  {
    if Hangs(cfg, Start(s)) {
      forall n: nat
        ensures InLoop(Turns(cfg, Start(s), n))
      {
        HangingStaysIn(cfg, Start(s), n);
      }
    } else {
      var n := FinishesIn(cfg, Start(s));
      assert !InLoop(Turns(cfg, Start(s), n));
    }
  }

  // ----- which settings and which buffers are safe

  /** None of the last fifteen samples in front of the cursor is 255. */
  predicate Clean(o: Outer) {
    forall k :: o.i < k < |o.buf| && |o.buf| < k + PREAMBLE_LEN ==> o.buf[k] != BADSAMPLE
  }

  lemma {:induction false} OutsideFinished(cfg: Config, o: Outer)
    requires o.i <= |o.buf| && !InLoop(o)
    ensures !Hangs(cfg, o) && Final(cfg, o) == o
  {
  }

  lemma {:induction false} CleanFinishes(cfg: Config, o: Outer)
    requires o.i <= |o.buf| && Clean(o)
    ensures !Hangs(cfg, o)
    decreases |o.buf| - o.i, Patience(cfg, o)
  {
    hide Final, Hangs, Pass, SingleManchester;
    if InLoop(o) {
      StandsStillIff(cfg, o);
      PassFrames(cfg, o);
      MovesWithinThree(cfg, o);
      if Pass(cfg, o).i == o.i {
        MovesWithinThree(cfg, Pass(cfg, o));
      }
      CleanFinishes(cfg, Pass(cfg, o));
      PassKeepsFinal(cfg, o);
    } else {
      OutsideFinished(cfg, o);
    }
  }

  function Full(n: nat): (s: seq<uint16>)
    ensures |s| == n
  {
    seq(n, _ => BADSAMPLE)
  }

  /** No preamble is seen in a constant buffer, so the search goes to its end. */
  lemma {:induction false} SearchFull(n: nat, i: nat)
    requires i + PREAMBLE_LEN <= n || i == 0
    ensures Search(Full(n), i) + PREAMBLE_LEN == n || (n < PREAMBLE_LEN && Search(Full(n), i) == i)
    decreases n - i
  {
    if i + PREAMBLE_LEN < n {
      FullHasNone(n, i);
      SearchFull(n, i + 1);
    }
  }

  lemma {:induction false} FullHasNone(n: nat, i: nat)
    requires i + PREAMBLE_LEN <= n
    ensures !PreambleAt(Full(n), i)
  {
    assert LatestPulse(Full(n), i, 2) == LatestGap(Full(n), i, 2) == BADSAMPLE;
  }

  /** Two equal cells of equal samples are bad at every quality that looks at them. */
  lemma {:induction false} SameCell(quality: int)
    requires quality != 0 && quality != 5
    ensures SingleManchester(quality, BADSAMPLE, BADSAMPLE, BADSAMPLE, BADSAMPLE) == BADSAMPLE
    ensures SingleManchester(quality, 0, 0, BADSAMPLE, BADSAMPLE) == BADSAMPLE
  {
  }

  /** The first turn marks what is marked already, and stops in front of the last samples. */
  lemma {:induction false} FullPass(cfg: Config, n: nat)
    requires cfg.allowedErrors <= 0 && cfg.quality != 0 && cfg.quality != 5 && n >= 2
    ensures var p := Pass(cfg, Start(Full(n)));
            p.buf == Full(n) && p.i + 1 < n <= p.i + PREAMBLE_LEN && p.a == p.b == BADSAMPLE
  {
    hide Search, SingleManchester;
    var s := Full(n);
    SearchFull(n, 0);
    SameCell(cfg.quality);
    var f := FindFrom(s, 0, 0, 0);
    assert s[..0] + f.head + s[f.start..] == s;
  }

  lemma {:induction false} FullHangs(cfg: Config, n: nat)
    requires cfg.allowedErrors <= 0 && cfg.quality != 0 && cfg.quality != 5 && n >= 2
    ensures Hangs(cfg, Start(Full(n)))
  {
    hide Pass, Search, SingleManchester;
    var o := Start(Full(n));
    var p := Pass(cfg, o);
    FullPass(cfg, n);
    StandsStillIff(cfg, p);
    SameCell(cfg.quality);
    PassKeepsFinal(cfg, o);
  }

  /** Settings and lengths for which every buffer is finished. */
  lemma {:induction false} EveryBufferFinishesIff(cfg: Config, n: nat)
    ensures (forall s: seq<uint16> :: |s| == n ==> !Hangs(cfg, Start(s)))
            <==> cfg.allowedErrors >= 1 || cfg.quality == 0 || cfg.quality == 5 || n < 2
  {
    if cfg.allowedErrors >= 1 || cfg.quality == 0 || cfg.quality == 5 || n < 2 {
      forall s: seq<uint16> | |s| == n
        ensures !Hangs(cfg, Start(s))
      {
        SafeSettings(cfg, Start(s));
      }
    } else {
      FullHangs(cfg, n);
    }
  }

  lemma {:induction false} SafeSettings(cfg: Config, o: Outer)
    requires o.i <= |o.buf| && (cfg.allowedErrors >= 1 || cfg.quality == 0 || cfg.quality == 5 || !InLoop(o))
    ensures !Hangs(cfg, o)
    decreases |o.buf| - o.i
  {
    if InLoop(o) {
      StandsStillIff(cfg, o);
      SafeSettings(cfg, Onward(cfg, o));
    }
  }
}

/** A search and a run depend only on the samples from their own position on. */
module AdsbSuffix {
  import opened CInts
  import opened AdsbSpec

  lemma {:induction false} LatestSuffix(s: seq<uint16>, t: seq<uint16>, i: nat, j: nat, k: nat)
    requires |s| == |t| && i <= j && j + k <= |s| && s[i..] == t[i..]
    ensures LatestPulse(s, j, k) == LatestPulse(t, j, k) && LatestGap(s, j, k) == LatestGap(t, j, k)
  {
    if k > 0 {
      assert s[j + k - 1] == s[i..][j + k - 1 - i] == t[i..][j + k - 1 - i] == t[j + k - 1];
      LatestSuffix(s, t, i, j, k - 1);
    }
  }

  lemma {:induction false} PreambleSuffix(s: seq<uint16>, t: seq<uint16>, i: nat, j: nat)
    requires |s| == |t| && i <= j && i <= |s| && s[i..] == t[i..]
    ensures PreambleAt(s, j) == PreambleAt(t, j)
  {
    if j + PREAMBLE_LEN <= |s| {
      forall k: nat | k <= PREAMBLE_LEN
        ensures LatestPulse(s, j, k) == LatestPulse(t, j, k) && LatestGap(s, j, k) == LatestGap(t, j, k)
      {
        LatestSuffix(s, t, i, j, k);
      }
    }
  }

  lemma {:induction false} SearchSuffix(s: seq<uint16>, t: seq<uint16>, i: nat, j: nat)
    requires |s| == |t| && i <= j && i <= |s| && s[i..] == t[i..]
    ensures Search(s, j) == Search(t, j)
    decreases |s| - j
  {
    PreambleSuffix(s, t, i, j);
    if j + PREAMBLE_LEN < |s| && !PreambleAt(s, j) {
      SearchSuffix(s, t, i, j + 1);
    }
  }

  lemma {:induction false} FindSuffix(s: seq<uint16>, t: seq<uint16>, i: nat, a: uint16, b: uint16)
    requires |s| == |t| && i <= |s| && s[i..] == t[i..]
    ensures FindFrom(s, i, a, b) == FindFrom(t, i, a, b)
  {
    SearchSuffix(s, t, i, i);
    var j := Search(s, i);
    assert s[i..j] == s[i..][..j - i] == t[i..][..j - i] == t[i..j];
    if j + PREAMBLE_LEN < |s| {
      assert s[j] == s[i..][j - i] == t[i..][j - i] == t[j];
      assert s[j + 1] == s[i..][j + 1 - i] == t[i..][j + 1 - i] == t[j + 1];
    }
  }

  lemma {:induction false} DecodeSuffix(cfg: Config, s: seq<uint16>, t: seq<uint16>, i: nat, j: nat, a: uint16,
                                        b: uint16, errors: nat)
    requires |s| == |t| && i <= j <= |s| && s[i..] == t[i..]
    ensures DecodeRun(cfg, s, j, a, b, errors) == DecodeRun(cfg, t, j, a, b, errors)
    decreases |s| - j
  {
    if j + 1 < |s| {
      assert s[j] == s[i..][j - i] == t[i..][j - i] == t[j];
      assert s[j + 1] == s[i..][j + 1 - i] == t[i..][j + 1 - i] == t[j + 1];
      var bit := SingleManchester(cfg.quality, a, b, s[j], s[j + 1]);
      if bit != BADSAMPLE {
        DecodeSuffix(cfg, s, t, i, j + 2, s[j], s[j + 1], errors);
      } else if errors + 1 <= cfg.allowedErrors {
        DecodeSuffix(cfg, s, t, i, j + 2, 0, 65535, errors + 1);
      }
    }
  }
}
