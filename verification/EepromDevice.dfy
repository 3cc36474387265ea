/** rtlsdr_write_eeprom and rtlsdr_read_eeprom over a chip whose transfers may fail. */
module EepromDevice {
  import opened CInts
  import opened Sequences
  import opened Outcomes
  import opened EepromImage
  import opened EepromBus
  import opened RtlEeprom

  lemma {:induction false} WrittenReadsBack(mem: seq<uint8>, offset: nat, data: seq<uint8>)
    requires offset + |data| <= |mem|
    ensures Overlay(mem, offset, data)[offset..offset + |data|] == data
  {
  }

  predicate SameEnd(o: WriteOutcome, p: WriteOutcome) {
    o.bus == p.bus && o.r == p.r
  }

  lemma {:induction false} AllSucceedNext(script: Script, n: nat)
    requires n > 0
    ensures AllSucceed(script, n) <==> Head(script) && AllSucceed(Tail(script), n - 1)
  {
  }

  lemma {:induction false} NoneLeft(script: Script)
    ensures AllSucceed(script, 0)
  {
  }

  class Chip {
    var mem: seq<uint8>
    var pointer: nat
    var script: Script // what becomes of the transfers still to come

    ghost predicate Valid()
      reads this
    {
      ValidBus(State())
    }

    ghost function State(): Bus
      reads this
    {
      Bus(mem, pointer, script)
    }

    constructor (contents: seq<uint8>, script: Script)
      requires |contents| == SIZE
      ensures Valid() && State() == Bus(contents, 0, script)
    {
      mem, pointer, this.script := contents, 0, script;
    }

    /** One-byte write: the address of the next read. */
    method Select(address: uint8) returns (r: int)
      requires Valid()
      modifies this`pointer, this`script
      ensures Valid() && State() == Selected(old(State()), address) && r == if Head(old(script)) then 1 else -1
    {
      r := if Head(script) then 1 else -1;
      if r == 1 {
        pointer := address;
      }
      script := Tail(script);
    }

    /** The byte at the pointer, which moves on; on a failure the caller's byte stays what it was. */
    method ReadByte(stale: uint8) returns (r: int, b: uint8)
      requires Valid()
      modifies this`pointer, this`script
      ensures Valid() && b == ByteRead(old(State()), stale) && State() == Advanced(old(State()))
      ensures r == if Head(old(script)) then 1 else -1
    {
      r, b := if Head(script) then 1 else -1, stale;
      if r == 1 {
        b, pointer := mem[pointer], NextAddress(pointer);
      }
      script := Tail(script);
    }

    method WriteByte(address: uint8, v: uint8) returns (r: int)
      requires Valid()
      modifies this`mem, this`pointer, this`script
      ensures Valid() && State() == Stored(old(State()), address, v) && r == if Head(old(script)) then 2 else -1
    {
      r := if Head(script) then 2 else -1;
      if r == 2 {
        mem, pointer := mem[address := v], NextAddress(address);
      }
      script := Tail(script);
    }

    /** One byte's turn: only if the byte compared differs, it is written. */
    method WriteTurn(address: uint8, v: uint8, stale: uint8) returns (refused: bool)
      requires Valid()
      modifies this`mem, this`pointer, this`script
      ensures Valid() && State() == TurnAt(old(State()), address, v, stale).bus
      ensures refused == TurnAt(old(State()), address, v, stale).refused
    {
      refused := false;
      var r := Select(address);
      var back;
      r, back := ReadByte(stale);
      if back != v {
        r := WriteByte(address, v);
        refused := r != 2;
      }
    }

    /** rtlsdr_write_eeprom. The results of the address write and of the read back are not looked at; `leftover`
        is what the second byte of the command buffer happens to hold at first, and after a turn it is the byte
        that was to be written. */
    method WriteEeprom(data: seq<uint8>, offset: uint8, leftover: uint8) returns (r: int)
      requires Valid() && |data| < 0x1_0000
      modifies this`mem, this`pointer, this`script
      ensures Valid() && (r == -2) == (|data| + offset > SIZE)
      ensures r == -2 ==> State() == old(State())
      ensures r != -2 ==> State() == Outcome(old(State()), data, offset, leftover).bus
      ensures r != -2 ==> r == Outcome(old(State()), data, offset, leftover).r
    {
      hide Outcome, TurnAt, WriteFrom;
      if |data| + offset > SIZE {
        return -2;
      }
      OutcomeFrom(State(), data, offset, leftover);
      ghost var want, hi := Overlay(mem, offset, data), offset + |data|;
      ghost var o := WriteFrom(State(), want, offset, hi, leftover);
      var i: nat, a: nat, back := 0, offset, leftover;
      while i < |data|
        invariant Valid() && i <= |data| && a == offset + i
        invariant SameEnd(o, WriteFrom(State(), want, a, hi, back))
      {
        WriteFromNext(State(), want, a, hi, back);
        assert want[a] == data[i];
        var refused := WriteTurn(a, data[i], back);
        if refused {
          return -3;
        }
        i, a, back := i + 1, a + 1, data[i];
      }
      WriteFromDone(State(), want, hi, back);
      return 0;
    }

    /** rtlsdr_read_eeprom. On success the result is that of the last transfer, 1 and not the documented 0. */
    method ReadEeprom(data: array<uint8>, offset: uint8, len: uint16) returns (r: int)
      requires Valid() && len <= data.Length
      modifies this`pointer, this`script, data
      ensures Valid() && (r == -2) == (len + offset > SIZE) && (r == 1 || r == -2 || r == -3)
      ensures r != -2 ==> (r == 1 <==> AllSucceed(old(script), 1 + len))
      ensures r == 1 ==> data[..len] == mem[offset..offset + len]
      ensures data[len..] == old(data[len..])
    {
      hide AllSucceed;
      if len + offset > SIZE {
        return -2;
      }
      AllSucceedNext(script, 1 + len);
      r := Select(offset);
      if r < 0 {
        return -3;
      }
      var i: nat := 0;
      while i < len
        invariant Valid() && i <= len && r == 1
        invariant AllSucceed(old(script), 1 + len) == AllSucceed(script, len - i)
        invariant i < len ==> pointer == offset + i
        invariant forall k :: 0 <= k < i ==> data[k] == mem[offset + k]
        invariant forall k :: len <= k < data.Length ==> data[k] == old(data[k])
      {
        var b;
        AllSucceedNext(script, len - i);
        r, b := ReadByte(data[i]);
        data[i] := b;
        if r < 0 {
          return -3;
        }
        i := i + 1;
      }
      NoneLeft(script);
    }
  }

  /** A range written without a silent failure and then read is read back as written. */
  method WriteThenRead(chip: Chip, data: seq<uint8>, offset: uint8, leftover: uint8, back: array<uint8>)
    returns (w: int, r: int)
    requires chip.Valid() && |data| <= back.Length && |data| < 0x1_0000
    modifies chip, back
    ensures chip.Valid() && (w == -2) == (r == -2) == (|data| + offset > SIZE)
    ensures w != -2 ==>
              var o := Outcome(old(chip.State()), data, offset, leftover);
              w == o.r && chip.mem == o.bus.mem && (r == 1 <==> AllSucceed(o.bus.script, 1 + |data|)) &&
              (r == 1 ==> back[..|data|] == chip.mem[offset..offset + |data|])
    ensures w == 0 && Outcome(old(chip.State()), data, offset, leftover).heard && r == 1 ==> back[..|data|] == data
  {
    ghost var start := chip.State();
    w := chip.WriteEeprom(data, offset, leftover);
    r := chip.ReadEeprom(back, offset, |data|);
    if w == 0 && Outcome(start, data, offset, leftover).heard {
      HeardWrites(start, data, offset, leftover);
      WrittenReadsBack(start.mem, offset, data);
    }
  }

  const HALF := 128

  lemma {:induction false} HoldsInHalf(img: seq<uint8>, r: seq<uint8>, pos: nat, s: seq<uint8>)
    requires |img| == |r| == SIZE && r[..HALF] == img[..HALF]
    requires Holds(img, pos, s) && After(pos, |s|) <= HALF
    ensures Holds(r, pos, s)
  {
    forall k | 0 <= k < HALF
      ensures r[k] == img[k]
    {
      assert r[..HALF][k] == img[..HALF][k];
    }
  }

  /** The first 128 bytes carry the whole configuration. */
  lemma {:induction false} HalfSuffices(c: Conf, before: seq<uint8>, r: seq<uint8>)
    requires |before| == |r| == SIZE && AllFit(|c.manufacturer|, |c.product|, |c.serial|)
    requires r[..HALF] == Image(c, before)[..HALF]
    ensures Readable(r) && Parsed(r) == c
  {
    var img, p := Image(c, before), After(STR_OFFSET, |c.manufacturer|);
    var s := After(p, |c.product|);
    var head := Overlay(before, 0, Header(c));
    FitsInside(STR_OFFSET, |c.manufacturer|);
    FitsInside(p, |c.product|);
    FitsInside(s, |c.serial|);
    assert head[..9] == Header(c);
    ImageHolds(head, c.manufacturer, c.product, c.serial);
    HoldsInHalf(img, r, STR_OFFSET, c.manufacturer);
    HoldsInHalf(img, r, p, c.product);
    HoldsInHalf(img, r, s, c.serial);
    assert r[..9] == r[..HALF][..9] == img[..9];
    HeldParsed(c, r, p, s);
  }

  lemma {:induction false} FirstWritten(mem: seq<uint8>, data: seq<uint8>)
    requires |data| <= |mem|
    ensures var r := Overlay(mem, 0, data); r[..|data|] == data && r[|data|..] == mem[|data|..]
  {
  }

  /** What main does for a changed configuration: generate, and write the first half of the buffer. When every
      address write and read comes through, the chip parses to the configuration and its second half is untouched. */
  method Reprogram(chip: Chip, conf: Config, buf: array<uint8>, leftover: uint8) returns (r: int)
    requires chip.Valid() && conf.Valid() && buf.Length == SIZE
    requires buf != conf.manufacturer && buf != conf.product && buf != conf.serial
    modifies chip, buf
    ensures chip.Valid()
    ensures var c := old(conf.Value());
            if AllFit(|c.manufacturer|, |c.product|, |c.serial|) then
              buf[..] == Image(c, old(buf[..])) &&
              var o := Outcome(old(chip.State()), buf[..HALF], 0, leftover);
              r == o.r && chip.State() == o.bus
            else r < 0 && chip.State() == old(chip.State())
    ensures r == 0 && Outcome(old(chip.State()), buf[..HALF], 0, leftover).heard ==>
              Readable(chip.mem) && Parsed(chip.mem) == old(conf.Value()) && chip.mem[HALF..] == old(chip.mem)[HALF..]
  {
    ghost var c, before, start := conf.Value(), buf[..], chip.State();
    r := conf.Generate(buf);
    if r >= 0 {
      var half := buf[..HALF];
      r := chip.WriteEeprom(half, 0, leftover);
      if r == 0 && Outcome(start, half, 0, leftover).heard {
        HeardWrites(start, half, 0, leftover);
        FirstWritten(start.mem, half);
        HalfSuffices(c, before, chip.mem);
      }
    }
  }
}
