/** The EEPROM behind its bus: what a write does as a function of what becomes of its transfers. */
module EepromBus {
  import opened CInts
  import opened Sequences
  import opened Outcomes
  import opened EepromImage

  /** The chip's bytes, the address of its next read, and the outcomes of the transfers still to come. */
  datatype Bus = Bus(mem: seq<uint8>, pointer: nat, script: Script)

  predicate ValidBus(b: Bus) {
    |b.mem| == SIZE && b.pointer < SIZE
  }

  function NextAddress(a: nat): (n: nat)
    ensures n < SIZE
  {
    if a + 1 < SIZE then a + 1 else 0
  }

  function Selected(b: Bus, address: nat): Bus {
    Bus(b.mem, if Head(b.script) then address else b.pointer, Tail(b.script))
  }

  function ByteRead(b: Bus, stale: uint8): uint8
    requires ValidBus(b)
  {
    if Head(b.script) then b.mem[b.pointer] else stale
  }

  function Advanced(b: Bus): Bus {
    Bus(b.mem, if Head(b.script) then NextAddress(b.pointer) else b.pointer, Tail(b.script))
  }

  function Stored(b: Bus, address: nat, v: uint8): Bus
    requires address < |b.mem|
  {
    if Head(b.script) then Bus(b.mem[address := v], NextAddress(address), Tail(b.script))
    else b.(script := Tail(b.script))
  }

  /** The byte that the one at an address is compared with, and the bus after that. */
  function Compared(b: Bus, address: nat, stale: uint8): uint8
    requires ValidBus(b) && address < SIZE
  {
    ByteRead(Selected(b, address), stale)
  }

  function Fetched(b: Bus, address: nat): (c: Bus)
    requires ValidBus(b) && address < SIZE
    ensures ValidBus(c) && c.mem == b.mem
  {
    Advanced(Selected(b, address))
  }

  /** Neither the address write nor the read fails. */
  predicate Heard(b: Bus) {
    Head(b.script) && Head(Tail(b.script))
  }

  /** One byte's turn: what it was compared with, the bus afterwards, whether it was rewritten and whether
      that failed. */
  datatype Turn = Turn(seen: uint8, bus: Bus, rewrote: bool, refused: bool)

  function TurnAt(b: Bus, a: nat, v: uint8, stale: uint8): (t: Turn)
    requires ValidBus(b) && a < SIZE
    ensures ValidBus(t.bus) && t.bus.mem == (if t.rewrote then b.mem[a := v] else b.mem)
    ensures !t.refused ==> (t.rewrote <==> t.seen != v)
    ensures Heard(b) ==> t.seen == b.mem[a]
  {
    var seen, c := Compared(b, a, stale), Fetched(b, a);
    if seen == v then Turn(seen, c, false, false)
    else Turn(seen, Stored(c, a, v), Head(c.script), !Head(c.script))
  }

  /** The chip and the result after a write, the addresses rewritten, and whether every address write and
      read came through. */
  datatype WriteOutcome = WriteOutcome(bus: Bus, r: int, cycles: seq<nat>, heard: bool)

  /** Writing the bytes of `want` from address a up to hi. */
  function WriteFrom(b: Bus, want: seq<uint8>, a: nat, hi: nat, stale: uint8): (o: WriteOutcome)
    requires ValidBus(b) && a <= hi <= SIZE == |want|
    ensures ValidBus(o.bus) && (o.r == 0 || o.r == -3)
    decreases hi - a
  {
    if a == hi then WriteOutcome(b, 0, [], true)
    else
      var t := TurnAt(b, a, want[a], stale);
      if t.refused then WriteOutcome(t.bus, -3, [], Heard(b))
      else
        var o := WriteFrom(t.bus, want, a + 1, hi, want[a]);
        WriteOutcome(o.bus, o.r, (if t.rewrote then [a] else []) + o.cycles, Heard(b) && o.heard)
  }

  /** What the byte for address k is compared with, if the write gets there. */
  function SeenAt(b: Bus, want: seq<uint8>, a: nat, hi: nat, stale: uint8, k: nat): uint8
    requires ValidBus(b) && a <= k < hi <= SIZE == |want|
    decreases hi - a
  {
    var t := TurnAt(b, a, want[a], stale);
    if k == a then t.seen else SeenAt(t.bus, want, a + 1, hi, want[a], k)
  }

  // ----- what every outcome keeps

  /** Outside the range nothing changes, and inside it a byte keeps its value or gets the new one. */
  lemma {:induction false} WriteKeeps(b: Bus, want: seq<uint8>, a: nat, hi: nat, stale: uint8, k: nat)
    requires ValidBus(b) && a <= hi <= SIZE == |want| && k < SIZE
    ensures var m := WriteFrom(b, want, a, hi, stale).bus.mem; m[k] == b.mem[k] || (a <= k < hi && m[k] == want[k])
    decreases hi - a
  {
    if a < hi {
      var t := TurnAt(b, a, want[a], stale);
      if !t.refused {
        WriteKeeps(t.bus, want, a + 1, hi, want[a], k);
      }
    }
  }

  /** A result of 0 hides a byte that is not in the chip exactly where the byte compared, be it stale or from
      another address, happened to be the one to write. */
  lemma {:induction false} LostIff(b: Bus, want: seq<uint8>, a: nat, hi: nat, stale: uint8, k: nat)
    requires ValidBus(b) && a <= k < hi <= SIZE == |want| && WriteFrom(b, want, a, hi, stale).r == 0
    ensures WriteFrom(b, want, a, hi, stale).bus.mem[k] != want[k]
            <==> SeenAt(b, want, a, hi, stale, k) == want[k] && b.mem[k] != want[k]
    decreases hi - a
  {
    var t := TurnAt(b, a, want[a], stale);
    if k == a {
      WriteKeeps(t.bus, want, a + 1, hi, want[a], a);
    } else {
      LostIff(t.bus, want, a + 1, hi, want[a], k);
    }
  }

  /** When every address write and read comes through, each byte is compared with itself ... */
  lemma {:induction false} HeardSees(b: Bus, want: seq<uint8>, a: nat, hi: nat, stale: uint8, k: nat)
    requires ValidBus(b) && a <= k < hi <= SIZE == |want|
    requires var o := WriteFrom(b, want, a, hi, stale); o.heard && o.r == 0
    ensures SeenAt(b, want, a, hi, stale, k) == b.mem[k]
    decreases hi - a
  {
    if k > a {
      HeardSees(TurnAt(b, a, want[a], stale).bus, want, a + 1, hi, want[a], k);
    }
  }

  lemma {:induction false} HeardCycles(b: Bus, want: seq<uint8>, a: nat, hi: nat, stale: uint8, k: nat)
    requires ValidBus(b) && a <= hi <= SIZE == |want|
    requires var o := WriteFrom(b, want, a, hi, stale); o.heard && k in o.cycles
    ensures a <= k < hi && b.mem[k] != want[k]
    decreases hi - a
  {
    var t := TurnAt(b, a, want[a], stale);
    if !(t.rewrote && k == a) {
      HeardCycles(t.bus, want, a + 1, hi, want[a], k);
    }
  }

  /** What rtlsdr_write_eeprom does with a range that fits. */
  function Outcome(b: Bus, data: seq<uint8>, offset: nat, stale: uint8): WriteOutcome
    requires ValidBus(b) && offset + |data| <= SIZE
  {
    WriteFrom(b, Overlay(b.mem, offset, data), offset, offset + |data|, stale)
  }

  lemma {:induction false} OutcomeFrom(b: Bus, data: seq<uint8>, offset: nat, stale: uint8)
    requires ValidBus(b) && offset + |data| <= SIZE
    ensures Outcome(b, data, offset, stale)
         == WriteFrom(b, Overlay(b.mem, offset, data), offset, offset + |data|, stale)
  {
    hide Overlay, WriteFrom;
  }

  /** The first turn of a write, and the rest of it. */
  lemma {:induction false} WriteFromNext(b: Bus, want: seq<uint8>, a: nat, hi: nat, stale: uint8)
    requires ValidBus(b) && a < hi <= SIZE == |want|
    ensures var t, o := TurnAt(b, a, want[a], stale), WriteFrom(b, want, a, hi, stale);
            if t.refused then o.bus == t.bus && o.r == -3
            else
              var rest := WriteFrom(t.bus, want, a + 1, hi, want[a]);
              o.bus == rest.bus && o.r == rest.r
  {
    hide TurnAt;
  }

  lemma {:induction false} WriteFromDone(b: Bus, want: seq<uint8>, hi: nat, stale: uint8)
    requires ValidBus(b) && hi <= SIZE == |want|
    ensures WriteFrom(b, want, hi, hi, stale).bus == b && WriteFrom(b, want, hi, hi, stale).r == 0
  {
  }

  /** ... so that 0 means the data is in the chip. */
  lemma {:induction false} HeardWrites(b: Bus, data: seq<uint8>, offset: nat, stale: uint8)
    requires ValidBus(b) && offset + |data| <= SIZE
    requires Outcome(b, data, offset, stale).heard && Outcome(b, data, offset, stale).r == 0
    ensures Outcome(b, data, offset, stale).bus.mem == Overlay(b.mem, offset, data)
  {
    var want, hi := Overlay(b.mem, offset, data), offset + |data|;
    var o := WriteFrom(b, want, offset, hi, stale);
    forall k | 0 <= k < SIZE
      ensures o.bus.mem[k] == want[k]
    {
      WriteKeeps(b, want, offset, hi, stale, k);
      if offset <= k < hi {
        LostIff(b, want, offset, hi, stale, k);
        HeardSees(b, want, offset, hi, stale, k);
      }
    }
  }

  /** Two equal bytes, of which the second must change: when its read fails, the first one still stands in for it. */
  lemma {:induction false} LossHappens(mem: seq<uint8>, want: seq<uint8>, stale: uint8)
    requires |mem| == |want| == SIZE && mem[0] == 7 == want[0] == want[1] && mem[1] != 7
    ensures var o := WriteFrom(Bus(mem, 0, [true, true, true, false]), want, 0, 2, stale);
            o.r == 0 && o.bus.mem == mem
  {
    var b := Bus(mem, 0, [true, true, true, false]);
    var c := Fetched(b, 0);
    assert c == Bus(mem, 1, [true, false]) && TurnAt(b, 0, 7, stale) == Turn(7, c, false, false);
    var d := Fetched(c, 1);
    assert Selected(c, 1).script == [false];
    assert TurnAt(c, 1, 7, 7) == Turn(7, d, false, false) && d.mem == mem;
    assert WriteFrom(d, want, 2, 2, 7) == WriteOutcome(d, 0, [], true);
    assert WriteFrom(c, want, 1, 2, 7).bus == d;
  }
}
