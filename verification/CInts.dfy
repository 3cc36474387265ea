/** C integer widths and shifts, written out over unbounded integers. */
module CInts {
  type int16 = x: int | -0x8000 <= x < 0x8000
  type uint8 = x: int | 0 <= x < 0x100
  type uint16 = x: int | 0 <= x < 0x1_0000
  type uint32 = x: int | 0 <= x < 0x1_0000_0000

  /** Conversion to a signed 16-bit integer (two's complement). */
  function Wrap16(x: int): (r: int16)
    ensures -0x8000 <= x < 0x8000 ==> r == x
  {
    (x + 0x8000) % 0x1_0000 - 0x8000
  }

  /** Conversion to an unsigned integer of 8, 16 or 32 bits. */
  function WrapU8(x: int): (r: uint8)
    ensures 0 <= x < 0x100 ==> r == x
  {
    x % 0x100
  }

  function WrapU16(x: int): (r: uint16)
    ensures 0 <= x < 0x1_0000 ==> r == x
  {
    x % 0x1_0000
  }

  function WrapU32(x: int): (r: uint32)
    ensures 0 <= x < 0x1_0000_0000 ==> r == x
  {
    x % 0x1_0000_0000
  }

  lemma {:induction false} SameWrapped(a: int, b: int)
    requires -0x1_0000_0000 < a - b < 0x1_0000_0000
    ensures WrapU32(a) == WrapU32(b) <==> a == b
  {
    assert a == a / 0x1_0000_0000 * 0x1_0000_0000 + WrapU32(a);
    assert b == b / 0x1_0000_0000 * 0x1_0000_0000 + WrapU32(b);
  }

  /** C division of signed integers truncates toward zero. */
  function TruncDiv(a: int, b: int): int
    requires b > 0
  {
    if a >= 0 then a / b else -((-a) / b)
  }

  function Pow2(k: nat): (p: nat)
    ensures p >= 1
  {
    if k == 0 then 1 else 2 * Pow2(k - 1)
  }

  lemma {:induction false} Pow2Add(a: nat, b: nat)
    ensures Pow2(a + b) == Pow2(a) * Pow2(b)
  {
    if a == 0 {
    } else {
      Pow2Add(a - 1, b);
      calc {
        Pow2(a + b);
        2 * Pow2(a - 1 + b);
        2 * (Pow2(a - 1) * Pow2(b));
        (2 * Pow2(a - 1)) * Pow2(b);
        Pow2(a) * Pow2(b);
      }
    }
  }

  lemma {:induction false} Pow2Monotone(a: nat, b: nat)
    requires a <= b
    ensures Pow2(a) <= Pow2(b)
    decreases b
  {
    if a < b {
      Pow2Monotone(a, b - 1);
    }
  }
}

/** Division and remainder by a variable. */
module DivMod {
  lemma {:induction false} Decompose(p: nat, d: nat) returns (q: nat)
    requires 0 < d
    ensures q == p / d && p == q * d + p % d && p % d < d
  {
    q := p / d;
  }

  lemma {:induction false} MulMonotone(a: int, b: int, d: nat)
    ensures a <= b ==> a * d <= b * d
  {
  }

  lemma {:induction false} QuotientUnique(q: nat, c: nat, d: nat, r: nat, t: nat)
    requires q * d + r == c * d + t && r < d && t < d
    ensures q == c
  {
    if q < c {
      MulMonotone(q + 1, c, d);
      NextMultiple(q, d);
    } else if c < q {
      MulMonotone(c + 1, q, d);
      NextMultiple(c, d);
    }
  }

  lemma {:induction false} NextMultiple(q: nat, d: nat)
    ensures 0 <= q * d && (q + 1) * d == q * d + d
  {
  }

  lemma {:induction false} ModUnique(q: nat, d: nat, r: nat)
    requires r < d
    ensures (q * d + r) % d == r
  {
    var p := q * d + r;
    var c := Decompose(p, d);
    QuotientUnique(q, c, d, r, p % d);
  }

  lemma {:induction false} ModShift(p: nat, d: nat, c: nat)
    requires 0 < d && c % d == 0
    ensures (p + c) % d == p % d
  {
    var q := Decompose(p, d);
    var e := Decompose(c, d);
    assert p + c == (q + e) * d + p % d;
    ModUnique(q + e, d, p % d);
  }

  /** Two numbers less than d apart with the same remainder are equal. */
  lemma {:induction false} SameRemainder(a: nat, b: nat, d: nat)
    requires 0 < d && a <= b < a + d && a % d == b % d
    ensures a == b
  {
    var q := Decompose(a, d);
    var e := Decompose(b, d);
    MulMonotone(q + 1, e, d);
    MulMonotone(e, q, d);
  }

  lemma {:induction false} ModAtMost(p: nat, d: nat)
    requires 0 < d
    ensures p % d <= p
  {
    if p < d {
      assert p % d == p;
    }
  }

  /** The block of p lies wholly below any multiple of d above p. */
  lemma {:induction false} BlockFits(n: nat, d: nat, p: nat)
    requires 0 < d && n % d == 0 && p < n
    ensures p - p % d + d <= n
  {
    var c := Decompose(n, d);
    var q := Decompose(p, d);
    MulMonotone(q + 1, c, d);
    MulMonotone(c, q, d);
  }

  lemma {:induction false} ModHalf(n: nat, d: nat)
    requires 0 < d && n % (2 * d) == 0
    ensures n % d == 0
  {
    var q := Decompose(n, 2 * d);
    assert n == (2 * q) * d + 0;
    ModUnique(2 * q, d, 0);
  }

  lemma {:induction false} ModSelf(d: nat)
    requires 0 < d
    ensures d % d == 0
  {
  }

  lemma {:induction false} DivExact(a: nat, b: nat)
    requires 0 < b
    ensures (a * b) / b == a
  {
    var q := Decompose(a * b, b);
    MulMonotone(q + 1, a, b);
    MulMonotone(a + 1, q, b);
  }
}

module Sequences {
  /** s with val laid over it from position off. */
  function Overlay<T>(s: seq<T>, off: nat, val: seq<T>): (r: seq<T>)
    ensures |r| == |s|
  {
    seq(|s|, k requires 0 <= k < |s| => if off <= k < off + |val| then val[k - off] else s[k])
  }
}

/** The outcomes of hardware accesses still to come, oldest first; once used up, every access succeeds. */
module Outcomes {
  type Script = seq<bool>

  function Head(s: Script): bool {
    s == [] || s[0]
  }

  function Tail(s: Script): Script {
    if s == [] then [] else s[1..]
  }

  predicate NoneFails(s: Script) {
    forall k | 0 <= k < |s| :: s[k]
  }

  predicate AllSucceed(script: Script, n: nat) {
    n == 0 || (Head(script) && AllSucceed(Tail(script), n - 1))
  }
}

module Options {
  datatype Option<+T> = None | Some(value: T)
}
