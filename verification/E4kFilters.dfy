/** The IF filters of the E4000: three fields in two registers, set to the nearest entry of a table. */
module E4kFilters {
  import opened CInts
  import opened Outcomes

  const EINVAL := 22
  const REG_FILT2 := 0x11
  const REG_FILT3 := 0x12
  const REGS := 256

  const MIX_BW: seq<uint32> := [
    27_000_000, 27_000_000, 27_000_000, 27_000_000, 27_000_000, 27_000_000, 27_000_000, 27_000_000,
    4_600_000, 4_200_000, 3_800_000, 3_400_000, 3_300_000, 2_700_000, 2_300_000, 1_900_000]

  const CHAN_BW: seq<uint32> := [
    5_500_000, 5_300_000, 5_000_000, 4_800_000, 4_600_000, 4_400_000, 4_300_000, 4_100_000,
    3_900_000, 3_800_000, 3_700_000, 3_600_000, 3_400_000, 3_300_000, 3_200_000, 3_100_000,
    3_000_000, 2_950_000, 2_900_000, 2_800_000, 2_750_000, 2_700_000, 2_600_000, 2_550_000,
    2_500_000, 2_450_000, 2_400_000, 2_300_000, 2_280_000, 2_240_000, 2_200_000, 2_150_000]

  const RC_BW: seq<uint32> := [
    21_400_000, 21_000_000, 17_600_000, 14_700_000, 12_400_000, 10_600_000, 9_000_000, 7_700_000,
    6_400_000, 5_300_000, 4_400_000, 3_400_000, 2_600_000, 1_800_000, 1_200_000, 1_000_000]

  datatype Filter = Mix | Chan | Rc

  function Table(f: Filter): (t: seq<uint32>)
    ensures |t| == if f.Chan? then 32 else 16
  {
    match f case Mix => MIX_BW case Chan => CHAN_BW case Rc => RC_BW
  }

  /** A field of a register: width one-bits from bit shift on. */
  datatype Field = Field(reg: nat, shift: bv8, mask: bv8)

  function FieldOf(f: Filter): Field {
    match f
    case Mix => Field(REG_FILT2, 4, 0xf)
    case Chan => Field(REG_FILT3, 0, 0x1f)
    case Rc => Field(REG_FILT2, 0, 0xf)
  }

  function Get(reg: bv8, fd: Field): bv8
    requires fd.shift <= 8
  {
    (reg >> fd.shift) & fd.mask
  }

  function Merge(reg: bv8, mask: bv8, val: bv8): bv8 {
    (reg & !mask) | (val & mask)
  }

  /** What e4k_reg_set_mask leaves in a register: the write is skipped when the field holds the value. */
  function SetMask(reg: bv8, mask: bv8, val: bv8): bv8 {
    if reg & mask == val then reg else Merge(reg, mask, val)
  }

  predicate Matches(reg: bv8, mask: bv8, val: bv8) {
    reg & mask == val
  }

  /** What the driver takes for the register: a failed read counts as 0xff. */
  function Taken(reg: bv8, readOk: bool): bv8 {
    if readOk then reg else 0xff
  }

  predicate Skips(reg: bv8, mask: bv8, val: bv8, readOk: bool) {
    Matches(Taken(reg, readOk), mask, val)
  }

  /** The register after a masked write, as its read and its write come out. */
  function Left(reg: bv8, mask: bv8, val: bv8, readOk: bool, writeOk: bool): bv8 {
    if Skips(reg, mask, val, readOk) || !writeOk then reg else Merge(Taken(reg, readOk), mask, val)
  }

  /** A write that nothing disturbs. */
  lemma {:induction false} LeftUndisturbed(reg: bv8, mask: bv8, val: bv8, writeOk: bool)
    requires Skips(reg, mask, val, true) || writeOk
    ensures Left(reg, mask, val, true, writeOk) == SetMask(reg, mask, val)
  {
    hide Merge;
  }

  lemma {:induction false} MergeBeside(reg: bv8, mask: bv8, val: bv8)
    ensures Merge(reg, mask, val) & !mask == reg & !mask && Merge(reg, mask, val) & mask == val & mask
  {
  }

  lemma {:induction false} OnesBeside(mask: bv8, val: bv8)
    ensures Merge(0xff, mask, val) & !mask == !mask
  {
  }

  lemma {:induction false} OnesMatch(mask: bv8, val: bv8)
    ensures Matches(0xff, mask, val) <==> mask == val
  {
  }

  /** The bits beside the mask change exactly when the read fails, the write is made and succeeds, and they were
      not all ones. */
  lemma {:induction false} NeighboursChangeIff(reg: bv8, mask: bv8, val: bv8, readOk: bool, writeOk: bool)
    ensures Left(reg, mask, val, readOk, writeOk) & !mask != reg & !mask
            <==> !readOk && writeOk && mask != val && reg & !mask != !mask
  {
    if readOk {
      MergeBeside(reg, mask, val);
    } else {
      OnesMatch(mask, val);
      OnesBeside(mask, val);
    }
  }

  /** Success is reported for a field that does not hold the value exactly when the read fails and the value is
      all ones. */
  lemma {:induction false} FieldMissedIff(reg: bv8, mask: bv8, val: bv8, readOk: bool, writeOk: bool)
    requires val & mask == val
    ensures (Skips(reg, mask, val, readOk) || writeOk) && !Matches(Left(reg, mask, val, readOk, writeOk), mask, val)
            <==> !readOk && mask == val && !Matches(reg, mask, val)
  {
    var tmp := Taken(reg, readOk);
    MergeMatches(tmp, mask, val);
    if !readOk {
      OnesMatch(mask, val);
    }
  }

  lemma {:induction false} MergeMatches(reg: bv8, mask: bv8, val: bv8)
    requires val & mask == val
    ensures Matches(Merge(reg, mask, val), mask, val)
  {
  }

  /** Setting the mixer filter over a register of zeros: a failed second read sets the RC filter's field to 15. */
  lemma {:induction false} NeighboursChange()
    ensures Left(0x00, 0xf0, 0x30, false, true) == 0x3f
  {
  }

  /** A register after one of its fields was written. */
  function WithBits(f: Filter, reg: bv8, val: bv8): bv8 {
    SetMask(reg, FieldOf(f).mask << FieldOf(f).shift, val << FieldOf(f).shift)
  }

  function Outside(f: Filter, reg: bv8): bv8 {
    reg & !(FieldOf(f).mask << FieldOf(f).shift)
  }

  /** Writing a field reads back as the value and leaves every bit outside the field, whatever the filter. */
  lemma {:induction false} FieldRoundTrip(f: Filter, reg: bv8, val: bv8)
    requires val & FieldOf(f).mask == val
    ensures Get(WithBits(f, reg, val), FieldOf(f)) == val && Outside(f, WithBits(f, reg, val)) == Outside(f, reg)
  {
    hide SetMask;
    match f
    case Mix => HighFieldRoundTrip(reg, val);
    case Chan => LowFieldRoundTrip(reg, val, 0x1f);
    case Rc => LowFieldRoundTrip(reg, val, 0xf);
  }

  lemma {:induction false} HighFieldRoundTrip(reg: bv8, val: bv8)
    requires val & 0xf == val
    ensures (SetMask(reg, 0xf0, val << 4) >> 4) & 0xf == val && SetMask(reg, 0xf0, val << 4) & 0x0f == reg & 0x0f
  {
  }

  lemma {:induction false} LowFieldRoundTrip(reg: bv8, val: bv8, mask: bv8)
    requires val & mask == val
    ensures SetMask(reg, mask, val) & mask == val && SetMask(reg, mask, val) & !mask == reg & !mask
  {
  }

  /** The two fields of one register do not overlap, so each survives a write of the other. */
  lemma {:induction false} FieldsDisjoint(f: Filter, g: Filter, reg: bv8, after: bv8)
    requires f != g && FieldOf(f).reg == FieldOf(g).reg
    requires Outside(f, after) == Outside(f, reg)
    ensures Get(after, FieldOf(g)) == Get(reg, FieldOf(g))
  {
    match f
    case Mix => assert g == Rc;
    case Rc => assert g == Mix;
  }

  function Delta(a: int, b: int): nat {
    if a > b then a - b else b - a
  }

  /** k is the first of the nearest entries. */
  ghost predicate FirstNearest(t: seq<uint32>, bw: int, k: nat) {
    k < |t| &&
    (forall j :: 0 <= j < |t| ==> Delta(bw, t[k]) <= Delta(bw, t[j])) &&
    (forall j :: 0 <= j < k ==> Delta(bw, t[k]) < Delta(bw, t[j]))
  }

  /** closest_arr_idx. No entry is as far off as the initial distance, so one is always found. */
  method ClosestIndex(t: seq<uint32>, bw: uint32) returns (bi: nat)
    requires t != [] && forall j :: 0 <= j < |t| ==> Delta(bw, t[j]) < 0xffff_ffff
    ensures FirstNearest(t, bw, bi)
  {
    var best: nat := 0xffff_ffff;
    bi := 0;
    var i := 0;
    while i < |t|
      invariant 0 <= i <= |t| && bi < |t|
      invariant i == 0 ==> best == 0xffff_ffff && bi == 0
      invariant i > 0 ==> bi < i && best == Delta(bw, t[bi])
      invariant forall j :: 0 <= j < i ==> best <= Delta(bw, t[j])
      invariant forall j :: 0 <= j < bi ==> best < Delta(bw, t[j])
    {
      var delta := Delta(bw, t[i]);
      if delta < best {
        best, bi := delta, i;
      }
      i := i + 1;
    }
  }

  method FindIfBw(f: Filter, bw: uint32) returns (k: nat)
    ensures FirstNearest(Table(f), bw, k)
  {
    TableEntries(f, bw);
    k := ClosestIndex(Table(f), bw);
  }

  lemma {:induction false} TableEntries(f: Filter, bw: uint32)
    ensures forall j :: 0 <= j < |Table(f)| ==> Delta(bw, Table(f)[j]) < 0xffff_ffff
  {
    match f
    case Mix =>
    case Chan =>
    case Rc =>
  }

  /** A table index as the field value that stands for it. */
  function Bits(k: nat): bv8
    requires k < 32
  {
    k as bv8
  }

  lemma {:induction false} BitsFit(f: Filter, k: nat)
    requires k < |Table(f)|
    ensures Bits(k) & FieldOf(f).mask == Bits(k)
  {
    if f.Chan? {
      assert Bits(k) < 32;
    } else {
      assert Bits(k) < 16;
    }
  }

  lemma {:induction false} BitsValue(k: nat)
    requires k < 32
    ensures Bits(k) as int == k
  {
  }

  /** The table index that a filter's field holds. */
  function IndexIn(f: Filter, reg: bv8): (k: nat)
    ensures k < |Table(f)|
  {
    FieldBelow(f, reg);
    Get(reg, FieldOf(f)) as int
  }

  /** Two filters share a register, one in its upper and one in its lower half; the third has the lowest five bits of
      the next one. */
  lemma {:induction false} FieldPlaces(reg: bv8)
    ensures IndexIn(Mix, reg) == (reg / 16) as int && IndexIn(Rc, reg) == (reg % 16) as int
    ensures IndexIn(Chan, reg) == (reg % 32) as int
    ensures FieldOf(Mix).reg == FieldOf(Rc).reg == 0x11 && FieldOf(Chan).reg == 0x12
  {
    Places(reg);
  }

  lemma {:induction false} Places(reg: bv8)
    ensures (reg >> 4) & 0xf == reg / 16 && (reg >> 0) & 0xf == reg % 16 && (reg >> 0) & 0x1f == reg % 32
  {
  }

  lemma {:induction false} FieldBelow(f: Filter, reg: bv8)
    ensures Get(reg, FieldOf(f)) as int < |Table(f)|
  {
    match f
    case Mix => assert Get(reg, FieldOf(f)) <= 0xf;
    case Chan => assert Get(reg, FieldOf(f)) <= 0x1f;
    case Rc => assert Get(reg, FieldOf(f)) <= 0xf;
  }

  /** The register of a filter after its field was set to index k. */
  function WithIndex(f: Filter, reg: bv8, k: nat): bv8
    requires k < |Table(f)|
  {
    WithBits(f, reg, Bits(k))
  }

  lemma {:induction false} IndexOfBits(f: Filter, reg: bv8, k: nat)
    requires k < |Table(f)| && Get(reg, FieldOf(f)) == Bits(k)
    ensures IndexIn(f, reg) == k
  {
    hide Get;
    BitsValue(k);
  }

  lemma {:induction false} SameIndex(f: Filter, reg: bv8, after: bv8)
    requires Get(after, FieldOf(f)) == Get(reg, FieldOf(f))
    ensures IndexIn(f, after) == IndexIn(f, reg)
  {
    hide Get;
  }

  lemma {:induction false} WithIndexBits(f: Filter, reg: bv8, k: nat)
    requires k < |Table(f)|
    ensures Get(WithIndex(f, reg, k), FieldOf(f)) == Bits(k) && Outside(f, WithIndex(f, reg, k)) == Outside(f, reg)
  {
    hide Bits, Get, Outside, WithBits;
    BitsFit(f, k);
    FieldRoundTrip(f, reg, Bits(k));
  }

  /** Setting a field makes it read k, moves no other filter and touches no bit beside it. */
  lemma {:induction false} WithIndexEffect(f: Filter, reg: bv8, k: nat)
    requires k < |Table(f)|
    ensures IndexIn(f, WithIndex(f, reg, k)) == k && Outside(f, WithIndex(f, reg, k)) == Outside(f, reg)
    ensures forall g: Filter :: g != f && FieldOf(g).reg == FieldOf(f).reg ==>
            IndexIn(g, WithIndex(f, reg, k)) == IndexIn(g, reg)
  {
    hide Get, IndexIn, Outside, WithIndex;
    var after := WithIndex(f, reg, k);
    WithIndexBits(f, reg, k);
    IndexOfBits(f, after, k);
    forall g: Filter | g != f && FieldOf(g).reg == FieldOf(f).reg
      ensures IndexIn(g, after) == IndexIn(g, reg)
    {
      FieldsDisjoint(f, g, reg, after);
      SameIndex(g, reg, after);
    }
  }

  /** The bandwidth that a filter's field stands for. */
  function BandwidthIn(f: Filter, regs: seq<bv8>): uint32
    requires |regs| == REGS
  {
    Table(f)[IndexIn(f, regs[FieldOf(f).reg])]
  }

  lemma {:induction false} SetEffect(f: Filter, regs: seq<bv8>, k: nat)
    requires |regs| == REGS && k < |Table(f)|
    ensures var after := regs[FieldOf(f).reg := WithIndex(f, regs[FieldOf(f).reg], k)];
            BandwidthIn(f, after) == Table(f)[k] &&
            forall g: Filter :: g != f ==> BandwidthIn(g, after) == BandwidthIn(g, regs)
  {
    WithIndexEffect(f, regs[FieldOf(f).reg], k);
  }

  class E4k {
    var regs: seq<bv8>
    var script: Script // what becomes of the accesses still to come
    ghost var faults: nat

    ghost predicate Valid()
      reads this
    {
      |regs| == REGS
    }

    constructor (regs: seq<bv8>, script: Script)
      requires |regs| == REGS
      ensures Valid() && this.regs == regs && this.script == script && faults == 0
    {
      this.regs, this.script, faults := regs, script, 0;
    }

    function Bandwidth(f: Filter): uint32
      requires Valid()
      reads this
    {
      BandwidthIn(f, regs)
    }

    method RegWrite(reg: nat, val: bv8) returns (rc: int)
      requires Valid() && reg < REGS
      modifies this
      ensures Valid() && rc == (if Head(old(script)) then 0 else -1) && script == Tail(old(script))
      ensures if rc == 0 then regs == old(regs)[reg := val] && faults == old(faults)
              else regs == old(regs) && faults == old(faults) + 1
    {
      if Head(script) {
        regs, rc := regs[reg := val], 0;
      } else {
        faults, rc := faults + 1, -1;
      }
      script := Tail(script);
    }

    method RegRead(reg: nat) returns (rc: int, val: bv8)
      requires Valid() && reg < REGS
      modifies this`script, this`faults
      ensures Valid() && rc == (if Head(old(script)) then 0 else -1) && script == Tail(old(script))
      ensures if rc == 0 then val == regs[reg] && faults == old(faults) else val == 0xff && faults == old(faults) + 1
    {
      if Head(script) {
        rc, val := 0, regs[reg];
      } else {
        rc, val, faults := -1, 0xff, faults + 1;
      }
      script := Tail(script);
    }

    /** e4k_reg_set_mask. */
    method RegSetMask(reg: nat, mask: bv8, val: bv8) returns (rc: int)
      requires Valid() && reg < REGS
      modifies this
      ensures Valid() && faults >= old(faults)
      ensures var readOk, writeOk := Head(old(script)), Head(Tail(old(script)));
              var skips := Skips(old(regs)[reg], mask, val, readOk);
              regs == old(regs)[reg := Left(old(regs)[reg], mask, val, readOk, writeOk)] &&
              rc == (if skips || writeOk then 0 else -1) &&
              script == (if skips then Tail(old(script)) else Tail(Tail(old(script)))) &&
              (faults == old(faults) <==> readOk && (skips || writeOk))
    {
      var tmp;
      rc, tmp := RegRead(reg);
      if Matches(tmp, mask, val) {
        rc := 0;
      } else {
        rc := RegWrite(reg, Merge(tmp, mask, val));
      }
    }

    method FieldWrite(f: Filter, k: nat) returns (rc: int)
      requires Valid() && k < |Table(f)|
      modifies this
      ensures Valid() && (rc == 0 || rc == -1) && faults >= old(faults)
      ensures AllSucceed(old(script), 3) ==> faults == old(faults)
      ensures !Head(old(script)) ==> rc == -1 && regs == old(regs) && faults > old(faults)
      ensures faults == old(faults) ==>
        rc == 0 && regs == old(regs)[FieldOf(f).reg := WithIndex(f, old(regs)[FieldOf(f).reg], k)]
      ensures forall r :: 0 <= r < REGS && r != FieldOf(f).reg ==> regs[r] == old(regs)[r]
    {
      hide AllSucceed, Left, SetMask, Skips;
      NextThree(script);
      ghost var start := script;
      var fd := FieldOf(f);
      var unused;
      rc, unused := RegRead(fd.reg);
      if rc == 0 {
        ghost var mask, val := fd.mask << fd.shift, Bits(k) << fd.shift;
        rc := RegSetMask(fd.reg, fd.mask << fd.shift, Bits(k) << fd.shift);
        if faults == old(faults) {
          LeftUndisturbed(old(regs)[fd.reg], mask, val, Head(Tail(Tail(start))));
        }
      }
    }

    lemma {:induction false} NextThree(s: Script)
      ensures AllSucceed(s, 3) <==> Head(s) && Head(Tail(s)) && Head(Tail(Tail(s)))
    {
      assert AllSucceed(s, 3) <==> Head(s) && AllSucceed(Tail(s), 2);
      assert AllSucceed(Tail(s), 2) <==> Head(Tail(s)) && AllSucceed(Tail(Tail(s)), 1);
      assert AllSucceed(Tail(Tail(s)), 1) <==> Head(Tail(Tail(s))) && AllSucceed(Tail(Tail(Tail(s))), 0);
    }

    /** e4k_if_filter_bw_set: without I/O faults, the filter ends at the first of the nearest bandwidths and
        nothing else in the chip changes. */
    method FilterSet(f: Filter, bandwidth: uint32) returns (rc: int)
      requires Valid()
      modifies this
      ensures Valid() && (rc == 0 || rc == -1) && faults >= old(faults)
      ensures AllSucceed(old(script), 3) ==> faults == old(faults)
      ensures !Head(old(script)) ==> rc == -1 && regs == old(regs) && faults > old(faults)
      ensures faults == old(faults) ==>
                rc == 0 && FirstNearest(Table(f), bandwidth, IndexIn(f, regs[FieldOf(f).reg]))
      ensures faults == old(faults) ==> forall g: Filter :: g != f ==> Bandwidth(g) == old(Bandwidth(g))
      ensures faults == old(faults) ==> Outside(f, regs[FieldOf(f).reg]) == Outside(f, old(regs)[FieldOf(f).reg])
      ensures forall r :: 0 <= r < REGS && r != FieldOf(f).reg ==> regs[r] == old(regs)[r]
    {
      var k := FindIfBw(f, bandwidth);
      ghost var before := regs;
      rc := FieldWrite(f, k);
      SetEffect(f, before, k);
      WithIndexEffect(f, before[FieldOf(f).reg], k);
    }

    /** e4k_if_filter_bw_get. */
    method FilterGet(f: Filter) returns (rc: int)
      requires Valid()
      modifies this`script, this`faults
      ensures Valid() && rc == (if Head(old(script)) then Bandwidth(f) else -1)
      ensures faults == old(faults) + if Head(old(script)) then 0 else 1
    {
      var val;
      rc, val := RegRead(FieldOf(f).reg);
      if rc == 0 {
        rc := Table(f)[IndexIn(f, val)];
      }
    }
  }
}
