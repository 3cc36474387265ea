/** The RTL2832 EEPROM image of rtl_eeprom: header, three USB string descriptors (section 9.6.7 of USB 2.0). */
module EepromImage {
  import opened CInts
  import opened Sequences

  const SIZE := 256
  const STR_OFFSET := 9
  const LIMIT := 78

  /** A C string without its terminator. */
  predicate NulFree(s: seq<uint8>) {
    forall k :: 0 <= k < |s| ==> s[k] != 0
  }

  type Text = s: seq<uint8> | NulFree(s) witness []

  datatype Conf = Conf(vendorId: uint16, productId: uint16, haveSerial: bool, remoteWakeup: bool, enableBt: bool,
                       manufacturer: Text, product: Text, serial: Text)

  /** A string descriptor: its length, the type 3, the characters as UTF-16 with a zero high byte. */
  function Descriptor(s: seq<uint8>): (d: seq<uint8>)
    requires |s| <= 126
  {
    seq(2 + 2 * |s|, k requires 0 <= k < 2 + 2 * |s| =>
      if k == 0 then 2 + 2 * |s| else if k == 1 then 3 else if k % 2 == 0 then s[k / 2 - 1] else 0)
  }

  /** The test of the source's loop: the last character must start below 78. */
  predicate Fits(pos: nat, n: nat) {
    n == 0 || pos + 2 * n < LIMIT
  }

  function After(pos: nat, n: nat): nat {
    pos + 2 + 2 * n
  }

  /** When generating succeeds. */
  predicate AllFit(m: nat, p: nat, s: nat) {
    Fits(STR_OFFSET, m) && Fits(After(STR_OFFSET, m), p) && Fits(After(After(STR_OFFSET, m), p), s)
  }

  function Flags(c: Conf): uint8 {
    0x14 + (if c.remoteWakeup then 1 else 0) + (if c.enableBt then 2 else 0)
  }

  function Header(c: Conf): (h: seq<uint8>) {
    [0x28, 0x32, c.vendorId % 256, c.vendorId / 256, c.productId % 256, c.productId / 256,
     if c.haveSerial then 0xa5 else 0, Flags(c), 2]
  }

  /** The image that a configuration generates over the buffer `before`. */
  function Image(c: Conf, before: seq<uint8>): (img: seq<uint8>)
    requires |before| == SIZE && AllFit(|c.manufacturer|, |c.product|, |c.serial|)
    ensures |img| == SIZE
  {
    var p := After(STR_OFFSET, |c.manufacturer|);
    var s := After(p, |c.product|);
    var head := Overlay(before, 0, Header(c));
    var one := Overlay(head, STR_OFFSET, Descriptor(c.manufacturer));
    Overlay(Overlay(one, p, Descriptor(c.product)), s, Descriptor(c.serial))[LIMIT := 0]
  }

  // ----- reading

  /** Characters of the descriptor at pos: one for each full or started pair after the first two bytes. */
  function CharCount(len: uint8): nat {
    if len <= 2 then 0 else (len - 1) / 2
  }

  predicate Inside(img: seq<uint8>, pos: nat) {
    pos < |img| && After(pos, CharCount(img[pos])) <= |img|
  }

  function CharsAt(img: seq<uint8>, pos: nat): (s: seq<uint8>)
    requires Inside(img, pos)
    ensures |s| == CharCount(img[pos])
  {
    seq(CharCount(img[pos]), k requires 0 <= k < CharCount(img[pos]) => img[pos + 2 + 2 * k])
  }

  function Next(img: seq<uint8>, pos: nat): nat
    requires Inside(img, pos)
  {
    After(pos, CharCount(img[pos]))
  }

  predicate Readable(img: seq<uint8>) {
    |img| == SIZE && Inside(img, STR_OFFSET) && Inside(img, Next(img, STR_OFFSET)) &&
    Inside(img, Next(img, Next(img, STR_OFFSET)))
  }

  /** What a C caller sees of a character buffer: everything before the first NUL. */
  function UpToNul(s: seq<uint8>): (t: Text) {
    if s == [] || s[0] == 0 then [] else [s[0]] + UpToNul(s[1..])
  }

  lemma {:induction false} UpToNulOfText(t: Text)
    ensures UpToNul(t) == t && UpToNul(t + [0]) == t
  {
    if t != [] {
      var rest: Text := t[1..];
      assert (t + [0])[1..] == rest + [0];
      UpToNulOfText(rest);
    }
  }

  function Word(lo: uint8, hi: uint8): uint16 {
    lo as int + 256 * (hi as int)
  }

  function Parsed(img: seq<uint8>): Conf
    requires Readable(img)
  {
    var p := Next(img, STR_OFFSET);
    var s := Next(img, p);
    Conf(Word(img[2], img[3]), Word(img[4], img[5]), img[6] == 0xa5, img[7] % 2 == 1, img[7] / 2 % 2 == 1,
         UpToNul(CharsAt(img, STR_OFFSET)), UpToNul(CharsAt(img, p)), UpToNul(CharsAt(img, s)))
  }

  /** img holds the characters of s at pos, whatever its type byte. */
  predicate Holds(img: seq<uint8>, pos: nat, s: seq<uint8>) {
    After(pos, |s|) <= |img| && |s| <= 126 && img[pos] == 2 + 2 * |s| &&
    forall k :: 0 <= k < |s| ==> img[pos + 2 + 2 * k] == s[k]
  }

  lemma {:induction false} HoldsReads(img: seq<uint8>, pos: nat, s: seq<uint8>)
    requires Holds(img, pos, s)
    ensures Inside(img, pos) && CharsAt(img, pos) == s && Next(img, pos) == After(pos, |s|)
  {
  }

  lemma {:induction false} OverlayHolds(img: seq<uint8>, pos: nat, s: seq<uint8>)
    requires After(pos, |s|) <= |img| && |s| <= 126
    ensures Holds(Overlay(img, pos, Descriptor(s)), pos, s)
  {
    var r := Overlay(img, pos, Descriptor(s));
    forall k | 0 <= k < |s|
      ensures r[pos + 2 + 2 * k] == s[k]
    {
      assert r[pos + 2 + 2 * k] == Descriptor(s)[2 + 2 * k];
    }
  }

  /** A descriptor survives what is written behind it. */
  lemma {:induction false} OverlayKeeps(img: seq<uint8>, pos: nat, s: seq<uint8>, q: nat, d: seq<uint8>)
    requires Holds(img, pos, s) && After(pos, |s|) <= q
    ensures Holds(Overlay(img, q, d), pos, s)
  {
  }

  /** Characters lie at odd offsets only, so overwriting byte 78 (or any even one) loses none. */
  lemma {:induction false} EvenByteFree(img: seq<uint8>, pos: nat, s: seq<uint8>, at: nat, v: uint8)
    requires Holds(img, pos, s) && pos % 2 == 1 && at % 2 == 0 && at < |img|
    ensures Holds(img[at := v], pos, s)
  {
  }

  /** What fits: 34 characters in the first string, 33 in the first two and 32 in all, an empty string costing none. */
  lemma {:induction false} CapacityIff(m: nat, p: nat, s: nat)
    ensures AllFit(m, p, s) <==> m <= 34 && (p == 0 || m + p <= 33) && (s == 0 || m + p + s <= 32)
  {
  }

  lemma {:induction false} FitsInside(pos: nat, n: nat)
    requires pos % 2 == 1 && Fits(pos, n)
    ensures n == 0 || After(pos, n) <= 79
    ensures After(pos, n) % 2 == 1 && (pos <= 79 ==> After(pos, n) <= 81)
  {
  }

  /** All three strings stand in the generated image, behind its header. */
  lemma {:induction false} ImageHolds(head: seq<uint8>, m: Text, p: Text, s: Text)
    requires |head| == SIZE && AllFit(|m|, |p|, |s|)
    ensures var i, j := After(STR_OFFSET, |m|), After(After(STR_OFFSET, |m|), |p|);
            var one := Overlay(head, STR_OFFSET, Descriptor(m));
            var img := Overlay(Overlay(one, i, Descriptor(p)), j, Descriptor(s))[LIMIT := 0];
            Holds(img, STR_OFFSET, m) && Holds(img, i, p) && Holds(img, j, s) && img[..9] == head[..9]
  {
    var i := After(STR_OFFSET, |m|);
    var j := After(i, |p|);
    FitsInside(STR_OFFSET, |m|);
    FitsInside(i, |p|);
    FitsInside(j, |s|);
    var one := Overlay(head, STR_OFFSET, Descriptor(m));
    OverlayHolds(head, STR_OFFSET, m);
    var two := Overlay(one, i, Descriptor(p));
    OverlayKeeps(one, STR_OFFSET, m, i, Descriptor(p));
    OverlayHolds(one, i, p);
    var three := Overlay(two, j, Descriptor(s));
    OverlayKeeps(two, STR_OFFSET, m, j, Descriptor(s));
    OverlayKeeps(two, i, p, j, Descriptor(s));
    OverlayHolds(two, j, s);
    EvenByteFree(three, STR_OFFSET, m, LIMIT, 0);
    EvenByteFree(three, i, p, LIMIT, 0);
    EvenByteFree(three, j, s, LIMIT, 0);
    assert one[..9] == head[..9];
    assert two[..9] == one[..9];
    assert three[..9] == two[..9];
  }

  /** Parsing what was generated gives the configuration back, whenever generating succeeded. */
  lemma {:induction false} RoundTrip(c: Conf, before: seq<uint8>)
    requires |before| == SIZE && AllFit(|c.manufacturer|, |c.product|, |c.serial|)
    ensures Readable(Image(c, before)) && Parsed(Image(c, before)) == c
  {
    var img, p := Image(c, before), After(STR_OFFSET, |c.manufacturer|);
    var head := Overlay(before, 0, Header(c));
    assert head[..9] == Header(c);
    ImageHolds(head, c.manufacturer, c.product, c.serial);
    HeldParsed(c, img, p, After(p, |c.product|));
  }

  lemma {:induction false} HeldParsed(c: Conf, img: seq<uint8>, p: nat, s: nat)
    requires |img| == SIZE && img[..9] == Header(c)
    requires p == After(STR_OFFSET, |c.manufacturer|) && s == After(p, |c.product|)
    requires Holds(img, STR_OFFSET, c.manufacturer) && Holds(img, p, c.product) && Holds(img, s, c.serial)
    ensures Readable(img) && Parsed(img) == c
  {
    HoldsReads(img, STR_OFFSET, c.manufacturer);
    HoldsReads(img, p, c.product);
    HoldsReads(img, s, c.serial);
    UpToNulOfText(c.manufacturer);
    UpToNulOfText(c.product);
    UpToNulOfText(c.serial);
    HeaderParsed(c, img);
  }

  lemma {:induction false} HeaderParsed(c: Conf, img: seq<uint8>)
    requires |img| == SIZE && img[..9] == Header(c)
    ensures Word(img[2], img[3]) == c.vendorId && Word(img[4], img[5]) == c.productId
    ensures (img[6] == 0xa5) == c.haveSerial
    ensures (img[7] % 2 == 1) == c.remoteWakeup && (img[7] / 2 % 2 == 1) == c.enableBt
  {
    forall k | 0 <= k < 9
      ensures img[k] == Header(c)[k]
    {
      assert img[k] == img[..9][k];
    }
  }

  /** The high bytes of the characters of s at pos are zero. */
  predicate HighBytesZero(img: seq<uint8>, pos: nat, s: seq<uint8>) {
    After(pos, |s|) <= |img| && forall k :: 0 <= k < |s| ==> img[pos + 3 + 2 * k] == 0
  }

  lemma {:induction false} OverlayHigh(img: seq<uint8>, pos: nat, s: seq<uint8>)
    requires After(pos, |s|) <= |img| && |s| <= 126
    ensures HighBytesZero(Overlay(img, pos, Descriptor(s)), pos, s)
  {
    var r := Overlay(img, pos, Descriptor(s));
    forall k | 0 <= k < |s|
      ensures r[pos + 3 + 2 * k] == 0
    {
      assert r[pos + 3 + 2 * k] == Descriptor(s)[3 + 2 * k];
    }
  }

  lemma {:induction false} KeepsHigh(img: seq<uint8>, pos: nat, s: seq<uint8>, q: nat, d: seq<uint8>)
    requires HighBytesZero(img, pos, s) && After(pos, |s|) <= q
    ensures HighBytesZero(Overlay(img, q, d), pos, s)
  {
  }

  lemma {:induction false} ZeroKeepsHigh(img: seq<uint8>, pos: nat, s: seq<uint8>)
    requires HighBytesZero(img, pos, s) && LIMIT < |img|
    ensures HighBytesZero(img[LIMIT := 0], pos, s)
  {
  }

  /** All characters of the generated image are UTF-16 with a zero high byte. */
  lemma {:induction false} ImageHighBytes(c: Conf, before: seq<uint8>)
    requires |before| == SIZE && AllFit(|c.manufacturer|, |c.product|, |c.serial|)
    ensures var img, p := Image(c, before), 11 + 2 * |c.manufacturer|;
            HighBytesZero(img, 9, c.manufacturer) && HighBytesZero(img, p, c.product) &&
            HighBytesZero(img, p + 2 + 2 * |c.product|, c.serial)
  {
    hide Overlay, Descriptor, Header, HighBytesZero;
    var m, p, s := c.manufacturer, c.product, c.serial;
    var i := After(STR_OFFSET, |m|);
    var j := After(i, |p|);
    FitsInside(STR_OFFSET, |m|);
    FitsInside(i, |p|);
    FitsInside(j, |s|);
    var head := Overlay(before, 0, Header(c));
    var one := Overlay(head, STR_OFFSET, Descriptor(m));
    var two := Overlay(one, i, Descriptor(p));
    var three := Overlay(two, j, Descriptor(s));
    OverlayHigh(head, STR_OFFSET, m);
    KeepsHigh(one, STR_OFFSET, m, i, Descriptor(p));
    OverlayHigh(one, i, p);
    KeepsHigh(two, STR_OFFSET, m, j, Descriptor(s));
    KeepsHigh(two, i, p, j, Descriptor(s));
    OverlayHigh(two, j, s);
    ZeroKeepsHigh(three, STR_OFFSET, m);
    ZeroKeepsHigh(three, i, p);
    ZeroKeepsHigh(three, j, s);
  }

  /** The generated image byte by byte: magic, numbers low byte first, flags, and the characters. */
  lemma {:induction false} ImageBytes(c: Conf, before: seq<uint8>)
    requires |before| == SIZE && AllFit(|c.manufacturer|, |c.product|, |c.serial|)
    ensures var img, p := Image(c, before), 11 + 2 * |c.manufacturer|;
            img[..2] == [0x28, 0x32] &&
            img[2] as int + 256 * img[3] as int == c.vendorId && img[4] as int + 256 * img[5] as int == c.productId &&
            img[6] == (if c.haveSerial then 0xa5 else 0) &&
            img[7] == 0x14 + (if c.remoteWakeup then 1 else 0) + (if c.enableBt then 2 else 0) && img[8] == 2 &&
            Holds(img, 9, c.manufacturer) && Holds(img, p, c.product) &&
            Holds(img, p + 2 + 2 * |c.product|, c.serial) && img[78] == 0
  {
    hide Overlay, Descriptor, Holds, Header;
    ImageHolds(Overlay(before, 0, Header(c)), c.manufacturer, c.product, c.serial);
    HeaderBytes(c, before, Image(c, before));
  }

  lemma {:induction false} HeaderBytes(c: Conf, before: seq<uint8>, img: seq<uint8>)
    requires |before| == SIZE == |img| && img[..9] == Overlay(before, 0, Header(c))[..9]
    ensures img[..2] == [0x28, 0x32]
    ensures img[2] as int + 256 * img[3] as int == c.vendorId && img[4] as int + 256 * img[5] as int == c.productId
    ensures img[6] == (if c.haveSerial then 0xa5 else 0) && img[8] == 2
    ensures img[7] == 0x14 + (if c.remoteWakeup then 1 else 0) + (if c.enableBt then 2 else 0)
  {
    var h := Overlay(before, 0, Header(c));
    forall k | 0 <= k < 9
      ensures img[k] == Header(c)[k]
    {
      assert img[k] == img[..9][k] == h[..9][k];
    }
  }

  /** What a change of one header byte means to the parser: the first two and the last are not looked at, byte 6
      only compared with 0xa5, and of byte 7 only the lowest two bits count. */
  lemma {:induction false} HeaderCountsIff(img: seq<uint8>, at: nat, v: uint8)
    requires Readable(img) && at < STR_OFFSET
    ensures Readable(img[at := v])
    ensures Parsed(img[at := v]) == Parsed(img) <==>
              v == img[at] || at < 2 || at == 8 || (at == 6 && v != 0xa5 && img[6] != 0xa5)
              || (at == 7 && v % 4 == img[7] % 4)
  {
    hide UpToNul, CharsAt;
    SameChars(img, at, v, STR_OFFSET);
    var p := Next(img, STR_OFFSET);
    SameChars(img, at, v, p);
    SameChars(img, at, v, Next(img, p));
    LowBits(v);
    LowBits(img[at]);
  }

  lemma {:induction false} SameChars(img: seq<uint8>, at: nat, v: uint8, pos: nat)
    requires Inside(img, pos) && at < STR_OFFSET <= pos
    ensures Inside(img[at := v], pos) && Next(img[at := v], pos) == Next(img, pos)
    ensures CharsAt(img[at := v], pos) == CharsAt(img, pos)
  {
  }

  lemma {:induction false} LowBits(v: uint8)
    ensures v % 4 == v % 2 + 2 * (v / 2 % 2)
  {
  }

  /** Every descriptor keeps its type byte 3 unless one starts at 77, where the zero written to byte 78
      as the length of the infrared table falls on it; generating still reports success. */
  lemma {:induction false} TypeBytesIff(c: Conf, before: seq<uint8>)
    requires |before| == SIZE && AllFit(|c.manufacturer|, |c.product|, |c.serial|)
    ensures var img, p := Image(c, before), After(STR_OFFSET, |c.manufacturer|);
            (img[STR_OFFSET + 1] == 3 && img[p + 1] == 3 && img[After(p, |c.product|) + 1] == 3)
            <==> (|c.manufacturer| != 33 && |c.manufacturer| + |c.product| != 32)
  {
    var i := After(STR_OFFSET, |c.manufacturer|);
    var j := After(i, |c.product|);
    FitsInside(STR_OFFSET, |c.manufacturer|);
    FitsInside(i, |c.product|);
    var head := Overlay(before, 0, Header(c));
    var one := Overlay(head, STR_OFFSET, Descriptor(c.manufacturer));
    var two := Overlay(one, i, Descriptor(c.product));
    var three := Overlay(two, j, Descriptor(c.serial));
    assert one[STR_OFFSET + 1] == Descriptor(c.manufacturer)[1] == 3;
    assert two[STR_OFFSET + 1] == 3 && two[i + 1] == Descriptor(c.product)[1] == 3;
    assert three[STR_OFFSET + 1] == 3 && three[i + 1] == 3 && three[j + 1] == Descriptor(c.serial)[1] == 3;
    assert Image(c, before) == three[LIMIT := 0];
  }
}

/** The methods of rtl_eeprom that print an image into a buffer and parse one. */
module RtlEeprom {
  import opened CInts
  import opened Sequences
  import opened EepromImage

  /** set_string_descriptor: -1 for a position passed on from a failure and for a string that does not fit. */
  method SetStringDescriptor(pos: int, data: array<uint8>, str: Text) returns (r: int)
    requires data.Length == SIZE && pos < 128
    modifies data
    ensures r == if pos >= 0 && Fits(pos, |str|) then After(pos, |str|) else -1
    ensures r >= 0 ==> |str| <= 126 && data[..] == Overlay(old(data[..]), pos, Descriptor(str))
    ensures pos < 0 ==> data[..] == old(data[..])
    ensures r < 0 ==>
              forall k :: 0 <= k < data.Length && (k <= pos || k > LIMIT) && k != pos + 1 ==> data[k] == old(data[k])
  {
    if pos < 0 {
      return -1;
    }
    var i, j := 0, 2;
    data[pos + 1] := 3;
    while i < |str|
      invariant 0 <= i <= |str| && j == 2 + 2 * i && (i > 0 ==> pos + j <= LIMIT + 1)
      invariant data[pos + 1] == 3
      invariant forall k :: 0 <= k < i ==> data[pos + 2 + 2 * k] == str[k] && data[pos + 3 + 2 * k] == 0
      invariant forall k :: 0 <= k < data.Length && (k <= pos || k >= pos + j) ==> data[k] == old(data[k])
    {
      if pos + j >= LIMIT {
        return -1;
      }
      data[pos + j] := str[i];
      data[pos + j + 1] := 0;
      i, j := i + 1, j + 2;
    }
    data[pos] := j;
    DescriptorWritten(old(data[..]), data[..], pos, str);
    return pos + j;
  }

  lemma {:induction false} DescriptorWritten(before: seq<uint8>, after: seq<uint8>, pos: nat, str: Text)
    requires |str| <= 126 && |before| == |after| && After(pos, |str|) <= |after|
    requires after[pos] == 2 + 2 * |str| && after[pos + 1] == 3
    requires forall k :: 0 <= k < |str| ==> after[pos + 2 + 2 * k] == str[k] && after[pos + 3 + 2 * k] == 0
    requires forall k :: 0 <= k < |before| && (k < pos || k >= After(pos, |str|)) ==> after[k] == before[k]
    ensures after == Overlay(before, pos, Descriptor(str))
  {
    var want := Overlay(before, pos, Descriptor(str));
    forall k | 0 <= k < |after|
      ensures after[k] == want[k]
    {
      if pos + 2 <= k < After(pos, |str|) {
        var i := (k - pos - 2) / 2;
        assert k == pos + 2 + 2 * i || k == pos + 3 + 2 * i;
      }
    }
  }

  /** get_string_descriptor: every other byte after the first two, whatever the type byte. */
  method GetStringDescriptor(pos: nat, data: array<uint8>, str: array<uint8>) returns (r: int)
    requires data.Length == SIZE && str.Length == SIZE && data != str && Inside(data[..], pos)
    modifies str
    ensures r == Next(data[..], pos)
    ensures UpToNul(str[..]) == UpToNul(CharsAt(data[..], pos))
  {
    var len := data[pos];
    var i: int, j: int := 2, 0;
    while i < len
      invariant i == 2 + 2 * j && j <= CharCount(len)
      invariant forall k :: 0 <= k < j ==> str[k] == data[pos + 2 + 2 * k]
    {
      str[j] := data[pos + i];
      i, j := i + 2, j + 1;
    }
    str[j] := 0;
    assert str[..j] == CharsAt(data[..], pos);
    UpToNulStops(str[..], j);
    return pos + i;
  }

  lemma {:induction false} UpToNulStops(s: seq<uint8>, n: nat)
    requires n < |s| && s[n] == 0
    ensures UpToNul(s) == UpToNul(s[..n])
  {
    if n > 0 && s[0] != 0 {
      assert s[..n][1..] == s[1..][..n - 1];
      UpToNulStops(s[1..], n - 1);
    }
  }

  /** rtlsdr_config: the character buffers are C strings. */
  class Config {
    var vendorId: uint16
    var productId: uint16
    var haveSerial: bool
    var enableBt: bool
    var remoteWakeup: bool
    const manufacturer: array<uint8>
    const product: array<uint8>
    const serial: array<uint8>

    ghost predicate Valid()
      reads this
    {
      manufacturer.Length == product.Length == serial.Length == SIZE &&
      manufacturer != product && manufacturer != serial && product != serial
    }

    function Value(): Conf
      reads this, manufacturer, product, serial
    {
      Conf(vendorId, productId, haveSerial, remoteWakeup, enableBt,
           UpToNul(manufacturer[..]), UpToNul(product[..]), UpToNul(serial[..]))
    }

    /** parse_eeprom_to_conf. */
    method Parse(dat: array<uint8>)
      requires Valid() && dat.Length == SIZE && Readable(dat[..])
      requires dat != manufacturer && dat != product && dat != serial
      modifies this, manufacturer, product, serial
      ensures Value() == Parsed(dat[..])
    {
      vendorId, productId := Word(dat[2], dat[3]), Word(dat[4], dat[5]);
      haveSerial, remoteWakeup, enableBt := dat[6] == 0xa5, dat[7] % 2 == 1, dat[7] / 2 % 2 == 1;
      var pos := GetStringDescriptor(STR_OFFSET, dat, manufacturer);
      pos := GetStringDescriptor(pos, dat, product);
      var _ := GetStringDescriptor(pos, dat, serial);
    }

    /** gen_eeprom_from_conf: the three strings one behind the other, or a negative result exactly when
        one of them does not fit. */
    method Generate(dat: array<uint8>) returns (r: int)
      requires Valid() && dat.Length == SIZE
      requires dat != manufacturer && dat != product && dat != serial
      modifies dat
      ensures var c := old(Value());
              (r >= 0) == AllFit(|c.manufacturer|, |c.product|, |c.serial|) &&
              (r >= 0 ==> dat[..] == Image(c, old(dat[..])))
    {
      hide Descriptor, Header, Overlay, UpToNul;
      WriteHeader(dat);
      var m, p, s := UpToNul(manufacturer[..]), UpToNul(product[..]), UpToNul(serial[..]);
      r := SetStringDescriptor(STR_OFFSET, dat, m);
      r := SetStringDescriptor(r, dat, p);
      r := SetStringDescriptor(r, dat, s);
      dat[LIMIT] := 0;
    }

    lemma {:induction false} LaidInFront(before: seq<uint8>, after: seq<uint8>, h: seq<uint8>)
      requires |h| <= |before| == |after| && h <= after
      requires forall k :: |h| <= k < |after| ==> after[k] == before[k]
      ensures after == Overlay(before, 0, h)
    {
    }

    /** Its fixed part. */
    method WriteHeader(dat: array<uint8>)
      requires Valid() && dat.Length == SIZE
      requires dat != manufacturer && dat != product && dat != serial
      modifies dat
      ensures dat[..] == Overlay(old(dat[..]), 0, Header(Value()))
    {
      hide Overlay, UpToNul;
      ghost var before := dat[..];
      dat[0], dat[1] := 0x28, 0x32;
      dat[2], dat[3], dat[4], dat[5] := vendorId % 256, vendorId / 256, productId % 256, productId / 256;
      dat[6] := if haveSerial then 0xa5 else 0;
      dat[7] := 0x14 + (if remoteWakeup then 1 else 0) + (if enableBt then 2 else 0);
      dat[8] := 2;
      LaidInFront(before, dat[..], Header(Value()));
    }
  }
}
