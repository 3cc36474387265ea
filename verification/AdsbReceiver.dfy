/** The demodulator thread of rtl_adsb: magnitudes, demodulation and framing of one received buffer. */
module AdsbReceiver {
  import opened CInts
  import opened DivMod
  import opened AdsbSpec
  import opened AdsbOuter
  import opened AdsbDemod
  import opened AdsbFraming
  import opened AdsbRoundTrip

  function Abs8(x: uint8): nat {
    if x >= 127 then x - 127 else 127 - x
  }

  function Square(x: uint8): (r: nat)
    ensures r <= 0x4000
  {
    Product(Abs8(x));
    Abs8(x) * Abs8(x)
  }

  lemma {:induction false} Product(j: nat)
    requires j <= 128
    ensures j * j <= 0x4000
  {
    if j < 128 {
      assert j * j <= 128 * j;
    }
  }

  /** One 16-bit entry of the buffer as received holds an I and a Q byte. */
  function Magnitude(pair: uint16): uint16 {
    Square(pair % 256) + Square(pair / 256)
  }

  function Magnitudes(s: seq<uint16>): (m: seq<uint16>)
    ensures |m| == |s|
  {
    seq(|s|, k requires 0 <= k < |s| => Magnitude(s[k]))
  }

  lemma {:induction false} SquareModFour(j: nat)
    ensures (j * j) % 4 == 0 || (j * j) % 4 == 1
  {
    var q := j / 2;
    if j % 2 == 0 {
      assert j * j == 4 * (q * q) by {
        assert j == 2 * q;
      }
    } else {
      assert j * j == 4 * (q * q + q) + 1 by {
        assert j == 2 * q + 1;
      }
    }
  }

  lemma {:induction false} SumModFour(x: nat, y: nat)
    requires x % 4 <= 1 && y % 4 <= 1
    ensures (x + y) % 4 <= 2
  {
    var q := Decompose(x, 4);
    var e := Decompose(y, 4);
    ModUnique(q + e, 4, x % 4 + y % 4);
  }

  /** A sum of two squares is never 3 modulo 4, so no magnitude is 255. */
  lemma {:induction false} NeverBadSample(pair: uint16)
    ensures Magnitude(pair) % 4 != 3 && Magnitude(pair) != BADSAMPLE
  {
    var i, q := Abs8(pair % 256), Abs8(pair / 256);
    SquareModFour(i);
    SquareModFour(q);
    SumModFour(i * i, q * q);
  }

  /** The magnitude of a sample is the square of its distance from 127, 127. */
  lemma {:induction false} MagnitudeIs(i: uint8, q: uint8)
    ensures Magnitude(i + 256 * q) == (i - 127) * (i - 127) + (q - 127) * (q - 127)
  {
    hide Square;
    SquareIs(i);
    SquareIs(q);
    assert (i + 256 * q) % 256 == i && (i + 256 * q) / 256 == q;
  }

  lemma {:induction false} SquareIs(x: uint8)
    ensures Square(x) == (x - 127) * (x - 127)
  {
  }

  /** Whatever was received and whatever the settings, the demodulator finishes. */
  lemma {:induction false} ReceivedFinishes(cfg: Config, s: seq<uint16>)
    ensures !Hangs(cfg, Start(Magnitudes(s)))
  {
    forall k | 0 <= k < |s|
      ensures Magnitudes(s)[k] != BADSAMPLE
    {
      NeverBadSample(s[k]);
    }
    CleanFinishes(cfg, Start(Magnitudes(s)));
  }

  /** squares_precompute. */
  method SquaresPrecompute() returns (squares: array<uint16>)
    ensures fresh(squares) && squares.Length == 256
    ensures forall k: uint8 :: squares[k] == Square(k)
  {
    squares := new uint16[256];
    var i: nat := 0;
    while i < 256
      invariant i <= 256
      invariant forall k: uint8 :: k < i ==> squares[k] == Square(k)
    {
      var byte: uint8 := i;
      var j := Abs8(byte);
      Product(j);
      squares[i] := j * j;
      i := i + 1;
    }
  }

  /** magnitute: each pair of bytes becomes the magnitude of its sample, in the same place. */
  method MagnitudeInPlace(buf: array<uint16>, squares: array<uint16>)
    requires squares.Length == 256 && buf != squares
    requires forall k: uint8 :: squares[k] == Square(k)
    modifies buf
    ensures buf[..] == Magnitudes(old(buf[..]))
  {
    hide Abs8, Square;
    ghost var s := buf[..];
    var i := 0;
    while i < buf.Length
      invariant 0 <= i <= buf.Length
      invariant forall k :: 0 <= k < i ==> buf[k] == Magnitude(s[k])
      invariant forall k :: i <= k < buf.Length ==> buf[k] == s[k]
    {
      var lo: uint8, hi: uint8 := buf[i] % 256, buf[i] / 256;
      buf[i] := squares[lo] + squares[hi];
      i := i + 1;
    }
  }

  /**
   demod_thread_fn on one buffer: it finishes for all settings and shows the frames of what it demodulated, first
   the messages transmitted in it.
   */
  method Receive(cfg: Config, squares: array<uint16>, buf: array<uint16>, adsbFrame: array<nat>)
    returns (shown: seq<Shown>)
    requires squares.Length == 256 && buf != squares && adsbFrame.Length == 14
    requires forall k: uint8 :: squares[k] == Square(k)
    modifies buf, adsbFrame
    ensures !Hangs(cfg, Start(Magnitudes(old(buf[..]))))
    ensures shown == Frames(Final(cfg, Start(Magnitudes(old(buf[..])))).buf, 0)
    ensures forall sent | Broadcast(cfg, Magnitudes(old(buf[..])), 0, sent) ::
              ShowsFirst(shown, sent) && (Silence(cfg, Magnitudes(old(buf[..])), 0, sent) ==> ShowsAll(shown, sent))
  {
    hide Broadcast, Final, Frames, Hangs, Magnitudes, Silence, ShowsAll, ShowsFirst;
    ghost var s := Magnitudes(buf[..]);
    ReceivedFinishes(cfg, buf[..]);
    MagnitudeInPlace(buf, squares);
    Manchester(cfg, buf);
    shown := Messages(buf, adsbFrame);
    forall sent | Broadcast(cfg, s, 0, sent)
      ensures ShowsFirst(shown, sent) && (Silence(cfg, s, 0, sent) ==> ShowsAll(shown, sent))
    {
      RoundTrip(cfg, s, sent);
    }
  }
}
