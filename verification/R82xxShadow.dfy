/**
 The register cache of the R82xx driver: what it stores, how writes reach the chip
 in messages of limited length, and when the two agree.
 */
module R82xxShadow {
  import opened DivMod
  import opened Outcomes
  import opened Sequences

  const REG_SHADOW_START := 5
  const NUM_REGS := 30
  const CHIP_REGS := 256

  /**
   shadow_store. A write that begins below the first shadowed register is shortened,
   but its values are still taken from the front.
   */
  function ShadowStore(regs: seq<bv8>, reg: nat, val: seq<bv8>): (r: seq<bv8>)
    ensures |r| == |regs|
  {
    if reg >= REG_SHADOW_START then Overlay(regs, reg - REG_SHADOW_START, val)
    else if reg + |val| <= REG_SHADOW_START then regs
    else Overlay(regs, 0, val[..reg + |val| - REG_SHADOW_START])
  }

  /** Every shadowed register is what the chip holds. */
  ghost predicate Agree(regs: seq<bv8>, chip: seq<bv8>) {
    |regs| == NUM_REGS && |chip| == CHIP_REGS &&
    forall k | 0 <= k < NUM_REGS :: regs[k] == chip[REG_SHADOW_START + k]
  }

  /** Writing the same values in two messages, one behind the other, is writing them in one. */
  lemma {:induction false} OverlaySplits(s: seq<bv8>, off: nat, a: seq<bv8>, b: seq<bv8>)
    ensures Overlay(Overlay(s, off, a), off + |a|, b) == Overlay(s, off, a + b)
  {
  }

  /** A write from the first shadowed register on keeps cache and chip in agreement. */
  lemma {:induction false} WriteKeepsAgreement(regs: seq<bv8>, chip: seq<bv8>, reg: nat, val: seq<bv8>)
    requires Agree(regs, chip) && reg >= REG_SHADOW_START
    ensures Agree(ShadowStore(regs, reg, val), Overlay(chip, reg, val))
  {
  }

  /**
   A write that begins below it and reaches into the shadowed registers keeps them in
   agreement only if its values repeat at that distance.
   */
  lemma {:induction false} LowWriteAgreesIff(regs: seq<bv8>, chip: seq<bv8>, reg: nat, val: seq<bv8>)
    requires Agree(regs, chip) && reg < REG_SHADOW_START && reg + |val| <= REG_SHADOW_START + NUM_REGS
    ensures Agree(ShadowStore(regs, reg, val), Overlay(chip, reg, val)) <==>
              forall k | 0 <= k < |val| - (REG_SHADOW_START - reg) :: val[k] == val[k + (REG_SHADOW_START - reg)]
  {
    var d := REG_SHADOW_START - reg;
    var r, c := ShadowStore(regs, reg, val), Overlay(chip, reg, val);
    assert forall k | 0 <= k < |val| - d :: r[k] == val[k];
    if Agree(r, c) {
      forall k | 0 <= k < |val| - d
        ensures val[k] == val[k + d]
      {
        assert r[k] == c[REG_SHADOW_START + k];
      }
    }
  }

  /** Two values from register 4 on: the cache takes the first for register 5, the chip the second. */
  lemma {:induction false} LowWriteDisagrees(regs: seq<bv8>, chip: seq<bv8>)
    requires Agree(regs, chip)
    ensures ShadowStore(regs, 4, [1, 2])[0] == 1 && Overlay(chip, 4, [1, 2])[5] == 2
  {
  }

  function Masked(old_: bv8, val: bv8, mask: bv8): bv8 {
    (old_ & !mask) | (val & mask)
  }

  /** A masked write takes exactly the masked bits from the value. */
  lemma {:induction false} MaskedBits(old_: bv8, val: bv8, mask: bv8)
    ensures Masked(old_, val, mask) & mask == val & mask
    ensures Masked(old_, val, mask) & !mask == old_ & !mask
  {
  }

  // ----- a write in messages, any of which may fail

  /** How many values have reached the chip, whether all messages came through, and the outcomes left. */
  datatype Delivery = Delivery(count: nat, ok: bool, script: Script)

  /** The do-while loop of r82xx_write over len values, `size` to a message at the most. */
  function Deliver(len: nat, size: nat, script: Script): (d: Delivery)
    requires size > 0
    ensures d.count <= len && (d.ok ==> d.count == len)
    decreases len
  {
    if !Head(script) then Delivery(0, false, Tail(script))
    else if len <= size then Delivery(len, true, Tail(script))
    else
      var d := Deliver(len - size, size, Tail(script));
      d.(count := size + d.count)
  }

  /** How many messages a write of len values takes: one even for none. */
  function Messages(len: nat, size: nat): (n: nat)
    requires size > 0
    ensures n >= 1
    decreases len
  {
    if len <= size then 1 else 1 + Messages(len - size, size)
  }

  lemma {:induction false} MessagesCover(len: nat, size: nat)
    requires size > 0
    ensures var n := Messages(len, size); (n - 1) * size <= len <= n * size && (len > 0 ==> (n - 1) * size < len)
    decreases len
  {
    if len > size {
      MessagesCover(len - size, size);
      NextMultiple(Messages(len - size, size) - 1, size);
      NextMultiple(Messages(len - size, size), size);
    }
  }

  /** A write succeeds exactly if each of its messages does; else the values in front of the first failing one are
      sent. */
  lemma {:induction false} DeliverIff(len: nat, size: nat, script: Script) returns (k: nat)
    requires size > 0
    ensures var d, n := Deliver(len, size, script), Messages(len, size);
            k <= n && AllSucceed(script, k) && (d.ok <==> k == n) &&
            (k < n ==> d.count == k * size && !AllSucceed(script, k + 1))
    decreases len
  {
    if !Head(script) {
      k := 0;
    } else if len <= size {
      k := 1;
    } else {
      k := DeliverIff(len - size, size, Tail(script));
      NextMultiple(k, size);
      k := k + 1;
    }
  }

  lemma {:induction false} NoneFailsDeliver(len: nat, size: nat, script: Script)
    requires size > 0 && NoneFails(script)
    ensures Deliver(len, size, script).ok && NoneFails(Deliver(len, size, script).script)
    decreases len
  {
    assert NoneFails(Tail(script));
    if len > size {
      NoneFailsDeliver(len - size, size, Tail(script));
    }
  }

  lemma {:induction false} NoneFailsNext(script: Script)
    ensures NoneFails(script) ==> Head(script) && NoneFails(Tail(script))
  {
  }

  /** What a delivery is that begins with `pos` values sent. */
  function Further(pos: nat, d: Delivery): Delivery {
    d.(count := pos + d.count)
  }

  lemma {:induction false} NothingLaid(s: seq<bv8>, reg: nat, val: seq<bv8>)
    ensures Overlay(s, reg, val[..0]) == s
  {
  }

  /** The first message of a delivery, and the rest of it. */
  lemma {:induction false} DeliverOne(len: nat, size: nat, script: Script)
    requires size > 0
    ensures Deliver(len, size, script) ==
              if !Head(script) then Delivery(0, false, Tail(script))
              else if len <= size then Delivery(len, true, Tail(script))
              else Further(size, Deliver(len - size, size, Tail(script)))
  {
  }

  lemma {:induction false} MessageFits(s: seq<bv8>, reg: nat, val: seq<bv8>, pos: nat, size: nat)
    requires pos + size <= |val|
    ensures Overlay(Overlay(s, reg, val[..pos]), reg + pos, val[pos..pos + size]) == Overlay(s, reg, val[..pos + size])
  {
    OverlaySplits(s, reg, val[..pos], val[pos..pos + size]);
    assert val[..pos] + val[pos..pos + size] == val[..pos + size];
  }

  /** The initial write leaves cache and chip in agreement exactly when each register it did not reach already
      held its value. */
  lemma {:induction false} StartAgreesIff(initial: seq<bv8>, powerUp: seq<bv8>, sent: nat)
    requires |initial| == NUM_REGS && |powerUp| == CHIP_REGS && sent <= NUM_REGS
    ensures Agree(initial, Overlay(powerUp, REG_SHADOW_START, initial[..sent]))
       <==> forall k | sent <= k < NUM_REGS :: powerUp[REG_SHADOW_START + k] == initial[k]
  {
    var chip := Overlay(powerUp, REG_SHADOW_START, initial[..sent]);
    forall k | 0 <= k < NUM_REGS
      ensures chip[REG_SHADOW_START + k] == if k < sent then initial[k] else powerUp[REG_SHADOW_START + k]
    {
    }
  }

  lemma {:induction false} DeliverNext(len: nat, size: nat, rest: Script)
    requires 0 < size < len
    ensures Deliver(len, size, [true] + rest)
         == Deliver(len - size, size, rest).(count := size + Deliver(len - size, size, rest).count)
  {
    assert Tail([true] + rest) == rest;
  }

  lemma {:induction false} LastFails()
    ensures Deliver(NUM_REGS, 7, [true, true, true, true, false]) == Delivery(28, false, [])
  {
    hide Deliver;
    NothingSent(2, 7, []);
    assert [false] + [] == [false];
    DeliverNext(9, 7, [false]);
    DeliverNext(16, 7, [true, false]);
    DeliverNext(23, 7, [true, true, false]);
    DeliverNext(30, 7, [true, true, true, false]);
    assert [true] + [false] == [true, false] && [true] + [true, false] == [true, true, false];
    assert [true] + [true, true, false] == [true, true, true, false];
    assert [true] + [true, true, true, false] == [true, true, true, true, false];
  }

  lemma {:induction false} NothingSent(len: nat, size: nat, rest: Script)
    requires size > 0
    ensures Deliver(len, size, [false] + rest) == Delivery(0, false, rest)
  {
    assert Tail([false] + rest) == rest;
  }

  /** With messages of seven values, the last of five fails: the registers 33 and 34 keep what they held, and no
      result tells. */
  lemma {:induction false} StartFails(initial: seq<bv8>, powerUp: seq<bv8>)
    requires |initial| == NUM_REGS && |powerUp| == CHIP_REGS && powerUp[34] != initial[29]
    ensures var d := Deliver(NUM_REGS, 7, [true, true, true, true, false]);
            d == Delivery(28, false, []) && !Agree(initial, Overlay(powerUp, REG_SHADOW_START, initial[..d.count]))
  {
    LastFails();
    StartAgreesIff(initial, powerUp, 28);
  }

  datatype Op = Plain(reg: nat, val: seq<bv8>) | Mask(reg: nat, value: bv8, mask: bv8)

  predicate Shadowed(op: Op) {
    REG_SHADOW_START <= op.reg < REG_SHADOW_START + NUM_REGS && (op.Plain? ==> op.reg + |op.val| <= CHIP_REGS)
  }

  /** The operation writes the register that cache entry k stands for. */
  predicate Touches(op: Op, k: nat) {
    op.reg <= REG_SHADOW_START + k < op.reg + if op.Plain? then |op.val| else 1
  }

  predicate Touched(ops: seq<Op>, k: nat) {
    exists i :: 0 <= i < |ops| && Touches(ops[i], k)
  }

  /** The cache after one operation, and after a start and operations. */
  function Performed(regs: seq<bv8>, op: Op): (r: seq<bv8>)
    requires |regs| == NUM_REGS && Shadowed(op)
    ensures |r| == NUM_REGS
  {
    match op
    case Plain(reg, val) => ShadowStore(regs, reg, val)
    case Mask(reg, value, mask) =>
      regs[reg - REG_SHADOW_START := Masked(regs[reg - REG_SHADOW_START], value, mask)]
  }

  function Cached(initial: seq<bv8>, ops: seq<Op>): (r: seq<bv8>)
    requires |initial| == NUM_REGS && forall op | op in ops :: Shadowed(op)
    ensures |r| == NUM_REGS
  {
    if ops == [] then initial else Performed(Cached(initial, ops[..|ops| - 1]), ops[|ops| - 1])
  }

  lemma {:induction false} CachedStart(initial: seq<bv8>)
    requires |initial| == NUM_REGS
    ensures Cached(initial, []) == initial
  {
  }

  lemma {:induction false} CachedNext(initial: seq<bv8>, ops: seq<Op>, op: Op)
    requires |initial| == NUM_REGS && Shadowed(op) && forall o | o in ops :: Shadowed(o)
    ensures forall o | o in ops + [op] :: Shadowed(o)
    ensures Cached(initial, ops + [op]) == Performed(Cached(initial, ops), op)
  {
    assert (ops + [op])[..|ops|] == ops;
  }

  lemma {:induction false} NoneFailsInit(script: Script, size: nat)
    requires size > 0
    ensures NoneFails(script) ==> NoneFails(Deliver(NUM_REGS, size, script).script)
  {
    if NoneFails(script) {
      NoneFailsDeliver(NUM_REGS, size, script);
    }
  }

  /** After successful operations: what they touched agrees, and all else is as it was. */
  ghost predicate Followed(cache: seq<bv8>, start: seq<bv8>, ops: seq<Op>, regs: seq<bv8>, chip: seq<bv8>) {
    |regs| == |cache| == NUM_REGS && |chip| == |start| == CHIP_REGS &&
    forall k | 0 <= k < NUM_REGS ::
      if Touched(ops, k) then regs[k] == chip[REG_SHADOW_START + k]
      else regs[k] == cache[k] && chip[REG_SHADOW_START + k] == start[REG_SHADOW_START + k]
  }

  lemma {:induction false} TouchedMore(ops: seq<Op>, op: Op, k: nat)
    ensures Touched(ops + [op], k) <==> Touched(ops, k) || Touches(op, k)
  {
    var more := ops + [op];
    if Touched(ops, k) {
      var i :| 0 <= i < |ops| && Touches(ops[i], k);
      assert more[i] == ops[i];
    } else if Touches(op, k) {
      assert more[|ops|] == op;
    }
  }

  /** Values that go to both, at the registers the operation touches. */
  lemma {:induction false} FollowedStep(cache: seq<bv8>, start: seq<bv8>, ops: seq<Op>, regs: seq<bv8>, chip: seq<bv8>,
                                        op: Op, val: seq<bv8>)
    requires Followed(cache, start, ops, regs, chip) && Shadowed(op) && |val| == if op.Plain? then |op.val| else 1
    ensures Followed(cache, start, ops + [op], ShadowStore(regs, op.reg, val), Overlay(chip, op.reg, val))
  {
    forall k: nat | k < NUM_REGS
      ensures Touched(ops + [op], k) <==> Touched(ops, k) || Touches(op, k)
    {
      TouchedMore(ops, op, k);
    }
  }

  lemma {:induction false} FollowedAgreesIff(cache: seq<bv8>, start: seq<bv8>, ops: seq<Op>, regs: seq<bv8>,
                                             chip: seq<bv8>)
    requires Followed(cache, start, ops, regs, chip)
    ensures Agree(regs, chip) <==>
              forall k | 0 <= k < NUM_REGS && !Touched(ops, k) :: cache[k] == start[REG_SHADOW_START + k]
  {
    if Agree(regs, chip) {
      forall k | 0 <= k < NUM_REGS && !Touched(ops, k)
        ensures cache[k] == start[REG_SHADOW_START + k]
      {
        assert regs[k] == chip[REG_SHADOW_START + k];
      }
    }
  }

  class Tuner {
    const maxMsgLen: nat
    const initArray: seq<bv8>
    const regs: array<bv8>
    var script: Script // what becomes of the messages still to come
    ghost var chip: seq<bv8>

    ghost predicate Valid()
      reads this
    {
      2 <= maxMsgLen <= NUM_REGS + 1 && |initArray| == NUM_REGS && regs.Length == NUM_REGS && |chip| == CHIP_REGS
    }

    ghost predicate InAgreement()
      reads this, regs
    {
      Agree(regs[..], chip)
    }

    constructor (maxMsgLen: nat, initArray: seq<bv8>, script: Script, ghost powerUp: seq<bv8>)
      requires 2 <= maxMsgLen <= NUM_REGS + 1 && |initArray| == NUM_REGS && |powerUp| == CHIP_REGS
      ensures Valid() && fresh(regs) && this.maxMsgLen == maxMsgLen && this.initArray == initArray
      ensures chip == powerUp && this.script == script
    {
      this.maxMsgLen, this.initArray, this.script := maxMsgLen, initArray, script;
      regs := new bv8[NUM_REGS](_ => 0);
      chip := powerUp;
    }

    /** Copies values to the cache from position r on, as far as it goes. */
    method StoreFrom(r: nat, val: seq<bv8>, len: nat)
      requires Valid() && r <= NUM_REGS && len <= |val|
      modifies regs
      ensures regs[..] == Overlay(old(regs[..]), r, val[..len])
    {
      var n := if len > NUM_REGS - r then NUM_REGS - r else len;
      for k := 0 to n
        invariant forall j | 0 <= j < NUM_REGS :: regs[j] == if r <= j < r + k then val[j - r] else old(regs[j])
      {
        regs[r + k] := val[k];
      }
    }

    method StoreShadow(reg: nat, val: seq<bv8>)
      requires Valid() && reg <= REG_SHADOW_START + NUM_REGS
      modifies regs
      ensures regs[..] == ShadowStore(old(regs[..]), reg, val)
    {
      var r: int, len: int := reg - REG_SHADOW_START, |val|;
      if r < 0 {
        len := len + r;
        r := 0;
      }
      if len <= 0 {
        assert regs[..] == Overlay(regs[..], r, []);
        return;
      }
      StoreFrom(r, val, len);
      assert reg >= REG_SHADOW_START ==> val[..len] == val;
    }

    /** One I2C message: a register address and values, all written or none. */
    method I2cWrite(reg: nat, val: seq<bv8>) returns (ok: bool)
      requires Valid() && reg + |val| <= CHIP_REGS
      modifies this`chip, this`script
      ensures Valid() && ok == Head(old(script)) && script == Tail(old(script))
      ensures chip == if ok then Overlay(old(chip), reg, val) else old(chip)
    {
      ok, script := Head(script), Tail(script);
      if ok {
        chip := Overlay(chip, reg, val);
      }
    }

    /** r82xx_write: the cache at once, then the chip message by message. */
    method Write(reg: nat, val: seq<bv8>) returns (ok: bool)
      requires Valid() && reg <= REG_SHADOW_START + NUM_REGS && reg + |val| <= CHIP_REGS
      modifies this`chip, this`script, regs
      ensures Valid() && regs[..] == ShadowStore(old(regs[..]), reg, val)
      ensures var d := Deliver(|val|, maxMsgLen - 1, old(script));
              ok == d.ok && script == d.script && chip == Overlay(old(chip), reg, val[..d.count])
      ensures ok ==> chip == Overlay(old(chip), reg, val)
      ensures ok && old(InAgreement()) && reg >= REG_SHADOW_START ==> InAgreement()
    {
      StoreShadow(reg, val);
      ok := SendFrom(reg, val);
      if ok {
        assert val[..|val|] == val;
        if old(InAgreement()) && reg >= REG_SHADOW_START {
          WriteKeepsAgreement(old(regs[..]), old(chip), reg, val);
        }
      }
    }

    method SendFrom(reg: nat, val: seq<bv8>) returns (ok: bool)
      requires Valid() && reg + |val| <= CHIP_REGS
      modifies this`chip, this`script
      ensures Valid()
      ensures var d := Deliver(|val|, maxMsgLen - 1, old(script));
              ok == d.ok && script == d.script && chip == Overlay(old(chip), reg, val[..d.count])
    {
      hide Deliver, Overlay;
      ghost var d := Deliver(|val|, maxMsgLen - 1, script);
      var pos := 0;
      NothingLaid(chip, reg, val);
      while true
        invariant Valid() && 0 <= pos <= |val| && (pos == |val| ==> pos == 0)
        invariant d == Further(pos, Deliver(|val| - pos, maxMsgLen - 1, script))
        invariant chip == Overlay(old(chip), reg, val[..pos])
        decreases |val| - pos
      {
        var size := if |val| - pos > maxMsgLen - 1 then maxMsgLen - 1 else |val| - pos;
        DeliverOne(|val| - pos, maxMsgLen - 1, script);
        MessageFits(old(chip), reg, val, pos, size);
        ok := I2cWrite(reg + pos, val[pos..pos + size]);
        if !ok {
          return;
        }
        pos := pos + size;
        if pos >= |val| {
          return;
        }
      }
    }

    /** r82xx_write_reg_mask: the other bits come from the cache; a register without one is refused. */
    method WriteMask(reg: nat, val: bv8, mask: bv8) returns (ok: bool)
      requires Valid() && reg < CHIP_REGS
      modifies this`chip, this`script, regs
      ensures Valid()
      ensures !(REG_SHADOW_START <= reg < REG_SHADOW_START + NUM_REGS) ==> !ok && unchanged(this) && unchanged(regs)
      ensures REG_SHADOW_START <= reg < REG_SHADOW_START + NUM_REGS ==>
                ok == Head(old(script)) && script == Tail(old(script)) &&
                var v := Masked(old(regs[..])[reg - REG_SHADOW_START], val, mask);
                regs[..] == old(regs[..])[reg - REG_SHADOW_START := v] &&
                chip == if ok then old(chip)[reg := v] else old(chip)
      ensures ok && old(InAgreement()) ==>
                InAgreement() && chip == old(chip)[reg := Masked(old(chip)[reg], val, mask)]
    {
      hide Masked, Agree;
      if !(reg >= REG_SHADOW_START && reg - REG_SHADOW_START < NUM_REGS) {
        return false;
      }
      var rc := regs[reg - REG_SHADOW_START];
      var v := Blend(rc, val, mask);
      ok := WriteOne(reg, v);
      if old(InAgreement()) {
        OneAgrees(old(regs[..]), old(chip), reg, val, mask);
      }
    }

    method Blend(old_: bv8, val: bv8, mask: bv8) returns (v: bv8)
      ensures v == Masked(old_, val, mask)
    {
      v := (old_ & !mask) | (val & mask);
    }

    /** A write of a single shadowed register. */
    method WriteOne(reg: nat, v: bv8) returns (ok: bool)
      requires Valid() && REG_SHADOW_START <= reg < REG_SHADOW_START + NUM_REGS
      modifies this`chip, this`script, regs
      ensures Valid() && ok == Head(old(script)) && script == Tail(old(script))
      ensures regs[..] == old(regs[..])[reg - REG_SHADOW_START := v]
      ensures chip == if ok then old(chip)[reg := v] else old(chip)
    {
      hide Overlay, ShadowStore, Deliver, Agree;
      ok := Write(reg, [v]);
      OneStored(old(regs[..]), reg, v);
      OneSent(old(chip), reg, v, maxMsgLen - 1, old(script));
    }

    lemma {:induction false} OneStored(s: seq<bv8>, reg: nat, v: bv8)
      requires |s| == NUM_REGS && REG_SHADOW_START <= reg < REG_SHADOW_START + NUM_REGS
      ensures ShadowStore(s, reg, [v]) == s[reg - REG_SHADOW_START := v]
    {
    }

    lemma {:induction false} OneSent(s: seq<bv8>, reg: nat, v: bv8, size: nat, script: Script)
      requires reg < |s| && size > 0
      ensures var d := Deliver(1, size, script);
              d.ok == Head(script) && d.script == Tail(script) &&
              Overlay(s, reg, [v][..d.count]) == if d.ok then s[reg := v] else s
    {
      DeliverOne(1, size, script);
    }

    lemma {:induction false} OneLaid(s: seq<bv8>, reg: nat, v: bv8)
      requires reg < |s|
      ensures Overlay(s, reg, [v]) == s[reg := v]
    {
    }

    lemma {:induction false} OneAgrees(regs: seq<bv8>, chip: seq<bv8>, reg: nat, val: bv8, mask: bv8)
      requires Agree(regs, chip) && REG_SHADOW_START <= reg < REG_SHADOW_START + NUM_REGS
      ensures regs[reg - REG_SHADOW_START] == chip[reg]
      ensures var v := Masked(regs[reg - REG_SHADOW_START], val, mask);
              Agree(regs[reg - REG_SHADOW_START := v], chip[reg := v])
    {
      hide Masked;
      var k := reg - REG_SHADOW_START;
      assert chip[REG_SHADOW_START + k] == chip[reg];
    }

    /** r82xx_init's register part: all registers written, and the cache set from the same array. The result of
        the write is not looked at. */
    method Init() returns (ghost sent: nat)
      requires Valid()
      modifies this`chip, this`script, regs
      ensures Valid() && sent == Deliver(NUM_REGS, maxMsgLen - 1, old(script)).count
      ensures script == Deliver(NUM_REGS, maxMsgLen - 1, old(script)).script
      ensures regs[..] == initArray && chip == Overlay(old(chip), REG_SHADOW_START, initArray[..sent])
      ensures InAgreement() <==>
                forall k | sent <= k < NUM_REGS :: old(chip)[REG_SHADOW_START + k] == initArray[k]
    {
      sent := Deliver(NUM_REGS, maxMsgLen - 1, script).count;
      var _ := Write(REG_SHADOW_START, initArray);
      StoreFrom(0, initArray, NUM_REGS);
      assert initArray[..NUM_REGS] == initArray;
      assert regs[..] == initArray;
      StartAgreesIff(initArray, old(chip), sent);
    }

    /** A start and any plain and masked writes after it. When those succeed, cache and chip agree exactly if each
        register that neither the start nor they have written already held its initial value. */
    method Run(ops: seq<Op>) returns (ok: bool, ghost sent: nat)
      requires Valid() && forall op | op in ops :: Shadowed(op)
      modifies this`chip, this`script, regs
      ensures Valid() && sent == Deliver(NUM_REGS, maxMsgLen - 1, old(script)).count
      ensures NoneFails(old(script)) ==> ok && regs[..] == Cached(initArray, ops)
      ensures ok ==>
                (InAgreement() <==>
                 forall k | sent <= k < NUM_REGS && !Touched(ops, k) ::
                   old(chip)[REG_SHADOW_START + k] == initArray[k])
    {
      hide Cached, NoneFails;
      ghost var script0 := script;
      NoneFailsInit(script0, maxMsgLen - 1);
      sent := Init();
      ghost var start := chip;
      ok := true;
      CachedStart(initArray);
      for i := 0 to |ops|
        invariant Valid() && (ok ==> Followed(initArray, start, ops[..i], regs[..], chip))
        invariant NoneFails(script0) ==> ok && NoneFails(script)
        invariant ok ==> regs[..] == Cached(initArray, ops[..i])
      {
        CachedNext(initArray, ops[..i], ops[i]);
        assert ops[..i + 1] == ops[..i] + [ops[i]] && ops[i] in ops;
        var r := Perform(ops[i], initArray, start, ops[..i]);
        ok := ok && r;
      }
      assert ops[..|ops|] == ops;
      if ok {
        FollowedAgreesIff(initArray, start, ops, regs[..], chip);
        StartSplits(initArray, old(chip), sent, ops);
      }
    }

    /** One operation. */
    method Perform(op: Op, ghost cache: seq<bv8>, ghost start: seq<bv8>, ghost ops: seq<Op>) returns (ok: bool)
      requires Valid() && Shadowed(op)
      modifies this`chip, this`script, regs
      ensures Valid()
      ensures NoneFails(old(script)) ==> ok && NoneFails(script)
      ensures ok ==> regs[..] == Performed(old(regs[..]), op)
      ensures ok && old(Followed(cache, start, ops, regs[..], chip)) ==>
                Followed(cache, start, ops + [op], regs[..], chip)
    {
      hide Followed, Overlay, ShadowStore, Masked, Deliver, NoneFails;
      ghost var before, was, val := regs[..], chip, [];
      match op {
        case Plain(reg, v) =>
          if NoneFails(script) {
            NoneFailsDeliver(|v|, maxMsgLen - 1, script);
          }
          ok := Write(reg, v);
          val := v;
        case Mask(reg, value, mask) =>
          NoneFailsNext(script);
          ok := WriteMask(reg, value, mask);
          val := [Masked(before[reg - REG_SHADOW_START], value, mask)];
          OneStored(before, reg, val[0]);
          OneLaid(was, reg, val[0]);
      }
      if ok && Followed(cache, start, ops, before, was) {
        FollowedStep(cache, start, ops, before, was, op, val);
      }
    }
  }

  lemma {:induction false} StartSplits(initial: seq<bv8>, powerUp: seq<bv8>, sent: nat, ops: seq<Op>)
    requires |initial| == NUM_REGS && |powerUp| == CHIP_REGS && sent <= NUM_REGS
    ensures var start := Overlay(powerUp, REG_SHADOW_START, initial[..sent]);
            (forall k | 0 <= k < NUM_REGS && !Touched(ops, k) :: initial[k] == start[REG_SHADOW_START + k]) <==>
            (forall k | sent <= k < NUM_REGS && !Touched(ops, k) :: powerUp[REG_SHADOW_START + k] == initial[k])
  {
    var start := Overlay(powerUp, REG_SHADOW_START, initial[..sent]);
    forall k | 0 <= k < NUM_REGS
      ensures start[REG_SHADOW_START + k] == if k < sent then initial[k] else powerUp[REG_SHADOW_START + k]
    {
    }
  }
}
