/** The PCI scan of drv/pci/pci.c: configuration addresses, the functions a scan lists, and the
    listing on the screen. */
module Pci {
  import opened Bits
  import opened X86
  import opened Terminal

  // ---------- configuration addresses ----------

  /** A register of configuration space, counted in words. */
  datatype Location = Location(bus: nat, device: nat, func: nat, register: nat)

  type Space = Location -> U32

  /** How a host bridge reads the address port: section 3.2.2.3.2 of the PCI Local Bus
      Specification 3.0. */
  function Selected(address: U32): Option<Location> {
    if address < 0x8000_0000 then None
    else Some(Location(address / 0x1_0000 % 0x100, address / 0x800 % 0x20, address / 0x100 % 8, address / 4 % 0x40))
  }

  /** The address that read_pci_config writes: it keeps two of the three function bits. */
  function Address(bus: U8, device: U8, func: U8, offset: U8): U32 {
    0x8000_0000 + bus * 0x1_0000 + device % 0x20 * 0x800 + func % 4 * 0x100 + offset / 4 * 4
  }

  function AddressCode(bus: U8, device: U8, func: U8, offset: U8): nat {
    Or(Or(Or(Or(0x8000 * 0x1_0000, bus * 0x1_0000), device % 0x20 * 0x800), func % 4 * 0x100), offset / 4 * 4)
  }

  lemma OrBelow(k: nat, h: nat, l: nat)
    requires l < Shl(1, k)
    ensures Or(Shl(h, k), l) == Shl(h, k) + l
  {
    OrSplit(k, h, 0, 0, l);
    OrZero(h);
    OrZero(l);
  }

  lemma Shl11(x: nat)
    ensures Shl(x, 11) == 0x800 * x
  {
    Shl10(x);
  }

  lemma Shl16(x: nat)
    ensures Shl(x, 16) == 0x1_0000 * x
  {
    Shl12(x);
    assert Shl(x, 13) == 2 * Shl(x, 12) && Shl(x, 14) == 2 * Shl(x, 13) && Shl(x, 15) == 2 * Shl(x, 14);
  }

  lemma OrBus(bus: U8)
    ensures Or(0x8000 * 0x1_0000, bus * 0x1_0000) == (0x8000 + bus) * 0x1_0000
  {
    Shl8(1);
    Shl8(0x80);
    OrBelow(8, 0x80, bus);
    Shl16(1);
    Shl16(0x8000);
    Shl16(bus);
    Shl16(0x8000 + bus);
    OrSplit(16, 0x8000, 0, bus, 0);
    OrZero(0);
  }

  lemma OrDevice(h: nat, device: nat)
    requires device < 0x20
    ensures Or(h * 0x1_0000, device * 0x800) == h * 0x1_0000 + device * 0x800
  {
    Shl16(1);
    Shl16(h);
    OrBelow(16, h, device * 0x800);
  }

  lemma OrFunction(h: nat, func: nat)
    requires func < 4
    ensures Or(h * 0x800, func * 0x100) == h * 0x800 + func * 0x100
  {
    Shl11(1);
    Shl11(h);
    OrBelow(11, h, func * 0x100);
  }

  lemma OrOffset(h: nat, offset: U8)
    ensures Or(h * 0x100, offset) == h * 0x100 + offset
  {
    Shl8(1);
    Shl8(h);
    OrBelow(8, h, offset);
  }

  lemma AddressExpression(bus: U8, device: U8, func: U8, offset: U8)
    ensures AddressCode(bus, device, func, offset) == Address(bus, device, func, offset)
  {
    var d, f, o := device % 0x20, func % 4, offset / 4 * 4;
    OrBus(bus);
    OrDevice(0x8000 + bus, d);
    var a := (0x8000 + bus) * 0x20 + d;
    OrFunction(a, f);
    OrOffset(a * 8 + f, o);
  }

  lemma OffsetField(h: nat, o: nat)
    requires o < 0x40
    ensures (h * 0x100 + o * 4) / 4 % 0x40 == o
  {
  }

  lemma FunctionField(h: nat, f: nat, l: nat)
    requires f < 8 && l < 0x100
    ensures (h * 0x800 + f * 0x100 + l) / 0x100 % 8 == f
  {
    var q := h * 8 + f;
    assert (q * 0x100 + l) / 0x100 == q;
    assert q % 8 == f;
  }

  lemma DeviceField(h: nat, d: nat, l: nat)
    requires d < 0x20 && l < 0x800
    ensures (h * 0x1_0000 + d * 0x800 + l) / 0x800 % 0x20 == d
  {
    var q := h * 0x20 + d;
    assert (q * 0x800 + l) / 0x800 == q;
    assert q % 0x20 == d;
  }

  lemma BusField(b: U8, l: nat)
    requires l < 0x1_0000
    ensures (0x8000_0000 + b * 0x1_0000 + l) / 0x1_0000 % 0x100 == b
  {
    assert (0x8000_0000 + b * 0x1_0000 + l) / 0x1_0000 == 0x8000 + b;
  }

  /** What a read reaches: the function number modulo 4, and the register without its low bits. */
  lemma AddressSelects(bus: U8, device: U8, func: U8, offset: U8)
    ensures Selected(Address(bus, device, func, offset))
              == Some(Location(bus, device % 0x20, func % 4, offset / 4))
  {
    var d, f, o := device % 0x20, func % 4, offset / 4;
    var h := 0x8000 + bus;
    OffsetField((h * 0x20 + d) * 8 + f, o);
    FunctionField(h * 0x20 + d, f, o * 4);
    DeviceField(h, d, f * 0x100 + o * 4);
    BusField(bus, d * 0x800 + f * 0x100 + o * 4);
  }

  /** Registers of functions 0 to 3 have addresses of their own... */
  lemma AddressInjective(b: U8, d: U8, f: U8, o: U8, b': U8, d': U8, f': U8, o': U8)
    requires d < 0x20 && d' < 0x20 && f < 4 && f' < 4 && o % 4 == 0 && o' % 4 == 0
    requires Address(b, d, f, o) == Address(b', d', f', o')
    ensures b == b' && d == d' && f == f' && o == o'
  {
    AddressSelects(b, d, f, o);
    AddressSelects(b', d', f', o');
  }

  /** ... and functions 4 to 7 have none: they share those of 0 to 3. */
  lemma AddressAliases(b: U8, d: U8, f: U8, g: U8, o: U8)
    ensures Address(b, d, f, o) == Address(b, d, g, o) <==> f % 4 == g % 4
  {
    AddressSelects(b, d, f, o);
    AddressSelects(b, d, g, o);
  }

  // ---------- which functions a scan lists ----------

  /** A function of a device: whether it is there, and bit 7 of its header type. */
  datatype Slot = Slot(present: bool, more: bool)

  type Slots = s: seq<Slot> | |s| == 8 witness seq(8, _ => Slot(false, false))

  /** What a look at number f finds. */
  function Seen(slots: Slots, f: nat): Slot { slots[f % 4] }

  /** No number below n ends the scan: bit 7 is set wherever there is a function. */
  predicate Goes(slots: Slots, n: nat) {
    forall g: nat | g < n && Seen(slots, g).present :: Seen(slots, g).more
  }

  /** Number f is looked at through address f % 4, until a function without bit 7 ends the scan. */
  predicate Listed(slots: Slots, f: nat) {
    f < 8 && Seen(slots, f).present && Goes(slots, f)
  }

  /** The functions whose registers are listed for the numbers below n, in order. */
  function Scanned(slots: Slots, n: nat): seq<nat>
    requires n <= 8
  {
    if n == 0 then [] else Scanned(slots, n - 1) + if Listed(slots, n - 1) then [(n - 1) % 4] else []
  }

  /** The functions there are, in order. */
  function Actual(slots: Slots, n: nat): seq<nat>
    requires n <= 8
  {
    if n == 0 then [] else Actual(slots, n - 1) + if slots[n - 1].present then [n - 1] else []
  }

  lemma {:induction false} ActualSorted(slots: Slots, n: nat)
    requires n <= 8
    ensures forall i | 0 <= i < |Actual(slots, n)| :: Actual(slots, n)[i] < n && slots[Actual(slots, n)[i]].present
    ensures forall i, j | 0 <= i < j < |Actual(slots, n)| :: Actual(slots, n)[i] < Actual(slots, n)[j]
  {
    if n > 0 { ActualSorted(slots, n - 1); }
  }

  lemma {:induction false} ActualHas(slots: Slots, n: nat, f: nat)
    requires f < n <= 8 && slots[f].present
    ensures f in Actual(slots, n)
    decreases n
  {
    if f < n - 1 { ActualHas(slots, n - 1, f); }
  }

  lemma {:induction false} ScannedFrom(slots: Slots, n: nat, x: nat)
    requires n <= 8 && x in Scanned(slots, n)
    ensures exists f: nat :: f < n && Listed(slots, f) && f % 4 == x
  {
    if x in Scanned(slots, n - 1) {
      ScannedFrom(slots, n - 1, x);
    } else {
      assert Listed(slots, n - 1) && (n - 1) % 4 == x;
    }
  }

  lemma {:induction false} ScannedHas(slots: Slots, n: nat, f: nat)
    requires f < n <= 8 && Listed(slots, f)
    ensures f % 4 in Scanned(slots, n)
    decreases n
  {
    if f < n - 1 { ScannedHas(slots, n - 1, f); }
  }

  lemma {:induction false} ScannedGrows(slots: Slots, m: nat, n: nat)
    requires m <= n <= 8
    ensures Scanned(slots, m) <= Scanned(slots, n)
    decreases n
  {
    if m < n { ScannedGrows(slots, m, n - 1); }
  }

  /** Once a number from 4 on is listed, some function is listed twice. */
  lemma SecondRoundRepeats(slots: Slots, f: nat)
    requires 4 <= f && Listed(slots, f)
    ensures exists i, j :: 0 <= i < j < |Scanned(slots, 8)| && Scanned(slots, 8)[i] == Scanned(slots, 8)[j]
  {
    assert Listed(slots, f - 4);
    ScannedHas(slots, 4, f - 4);
    ScannedGrows(slots, 4, f);
    ScannedGrows(slots, f + 1, 8);
    var i :| 0 <= i < |Scanned(slots, 4)| && Scanned(slots, 4)[i] == f % 4;
    var j := |Scanned(slots, f)|;
    assert Scanned(slots, f + 1)[j] == f % 4;
    assert Scanned(slots, 8)[i] == Scanned(slots, 8)[j];
  }

  predicate Followed(slots: Slots, f: nat) {
    exists h: nat | h < 8 :: f < h && slots[h].present
  }

  /** What a device must look like to be listed right: no functions from 4 on, and bit 7 set in
      each but the last. */
  predicate Orderly(slots: Slots) {
    forall f: nat | f < 8 && slots[f].present :: f < 4 && (slots[f].more <==> Followed(slots, f))
  }

  lemma LastPresent(slots: Slots, f: nat, n: nat) returns (last: nat)
    requires f < n <= 8 && slots[f].present && forall h: nat | n <= h < 8 :: !slots[h].present
    ensures f <= last < 8 && slots[last].present && !Followed(slots, last)
    decreases n
  {
    if slots[n - 1].present { return n - 1; }
    last := LastPresent(slots, f, n - 1);
  }

  lemma OrderlyListed(slots: Slots, f: nat)
    requires Orderly(slots) && f < 8
    ensures Listed(slots, f) <==> slots[f].present
  {
    if f >= 4 && Seen(slots, f).present {
      var last := LastPresent(slots, f % 4, 8);
      assert last % 4 == last && last < f && Seen(slots, last) == slots[last];
    }
    if f < 4 && slots[f].present {
      forall g: nat | g < f && Seen(slots, g).present
        ensures Seen(slots, g).more
      {
        assert g % 4 == g && Followed(slots, g);
      }
    }
  }

  lemma {:induction false} OrderlyScanned(slots: Slots, n: nat)
    requires Orderly(slots) && n <= 8
    ensures Scanned(slots, n) == Actual(slots, n)
  {
    if n > 0 {
      OrderlyScanned(slots, n - 1);
      OrderlyListed(slots, n - 1);
    }
  }

  lemma FaithfulIsOrderly(slots: Slots, f: nat)
    requires Scanned(slots, 8) == Actual(slots, 8) && f < 8 && slots[f].present
    ensures f < 4 && Listed(slots, f)
  {
    ActualSorted(slots, 8);
    ActualHas(slots, 8, f);
    ScannedFrom(slots, 8, f);
    var g: nat :| g < 8 && Listed(slots, g) && g % 4 == f;
    if g >= 4 {
      SecondRoundRepeats(slots, g);
    }
  }

  /** A last function with bit 7 set would send the scan round again. */
  lemma LastHasNoMore(slots: Slots, f: nat)
    requires Scanned(slots, 8) == Actual(slots, 8)
    requires f < 8 && slots[f].present && !Followed(slots, f)
    ensures !slots[f].more
  {
    FaithfulIsOrderly(slots, f);
    if slots[f].more {
      forall g: nat | g < f + 4 && Seen(slots, g).present
        ensures Seen(slots, g).more
      {
        var h := g % 4;
        assert !(f < h);
        if h < f {
          assert Seen(slots, h).present;
        }
      }
      SecondRoundRepeats(slots, f + 4);
      ActualSorted(slots, 8);
      assert false;
    }
  }

  /** The scan lists exactly the functions there are, each once, if and only if the device is
      orderly. */
  lemma FaithfulIff(slots: Slots)
    ensures Scanned(slots, 8) == Actual(slots, 8) <==> Orderly(slots)
  {
    if Orderly(slots) {
      OrderlyScanned(slots, 8);
    }
    if Scanned(slots, 8) == Actual(slots, 8) {
      forall f: nat | f < 8 && slots[f].present
        ensures f < 4 && (slots[f].more <==> Followed(slots, f))
      {
        FaithfulIsOrderly(slots, f);
        if Followed(slots, f) {
          var h: nat :| h < 8 && f < h && slots[h].present;
          FaithfulIsOrderly(slots, h);
          assert Seen(slots, f).more;
        } else {
          LastHasNoMore(slots, f);
        }
      }
    }
  }

  /** With bit 7 set in each of the first four functions, the scan lists them twice over. */
  lemma {:induction false} ListedTwice(slots: Slots, n: nat)
    requires n <= 4 && forall f: nat | f < 4 && slots[f].present :: slots[f].more
    ensures Scanned(slots, n) == Actual(slots, n)
    ensures Scanned(slots, 4) == Actual(slots, 4) ==> Scanned(slots, 4 + n) == Actual(slots, 4) + Actual(slots, n)
  {
    if n > 0 {
      var f := n - 1;
      ListedTwice(slots, f);
      assert (f + 4) % 4 == f;
      assert Listed(slots, f) == slots[f].present;
      assert Listed(slots, f + 4) == slots[f].present;
    }
  }

  lemma {:induction false} ActualEnds(slots: Slots, n: nat)
    requires 2 <= n <= 8 && forall f: nat | 2 <= f < 8 :: !slots[f].present
    ensures Actual(slots, n) == Actual(slots, 2)
  {
    if n > 2 { ActualEnds(slots, n - 1); }
  }

  /** A device with functions 0 and 1, both with bit 7 set, is one of them. */
  lemma TwoFunctionDevice(slots: Slots)
    requires forall f: nat | f < 8 :: slots[f] == Slot(f < 2, true)
    ensures Scanned(slots, 8) == [0, 1, 0, 1] && Actual(slots, 8) == [0, 1]
  {
    ListedTwice(slots, 4);
    assert slots[0].present && Actual(slots, 1) == [0];
    assert slots[1].present && Actual(slots, 2) == [0, 1];
    ActualEnds(slots, 4);
    ActualEnds(slots, 8);
  }

  // ---------- the listing ----------

  function SlotsOf(space: Space, bus: nat, device: nat): Slots {
    seq(8, f requires 0 <= f < 8 =>
      Slot(space(Location(bus, device, f, 0)) % 0x1_0000 != 0xFFFF,
           space(Location(bus, device, f, 3)) / 0x80_0000 % 2 == 1))
  }

  datatype Report = Report(bus: U8, device: U8, vendor: U16, deviceId: U16, major: U8, minor: U8, header: U8)

  function ReportOf(space: Space, bus: U8, device: U8, func: nat): Report {
    var id, kind, misc := space(Location(bus, device, func, 0)), space(Location(bus, device, func, 2)),
                          space(Location(bus, device, func, 3));
    Report(bus, device, id % 0x1_0000, id / 0x1_0000,
           kind / 0x100_0000, kind / 0x1_0000 % 0x100, misc / 0x1_0000 % 0x100)
  }

  /** A byte of configuration space; section 6.1 of the PCI Local Bus Specification 3.0 lays out the
      header by these offsets. */
  function ConfigByte(space: Space, bus: nat, device: nat, func: nat, offset: nat): U8 {
    ByteOf(space(Location(bus, device, func, offset / 4)), offset % 4)
  }

  lemma SecondByte(w: U32)
    ensures ByteOf(w, 1) == w / 0x100 % 0x100
  {
    assert ByteOf(w, 1) == ByteOf(w / 0x100, 0);
  }

  lemma ThirdByte(w: U32)
    ensures ByteOf(w, 2) == w / 0x1_0000 % 0x100
  {
    var w1 := w / 0x100;
    SecondByte(w1);
    assert ByteOf(w, 2) == ByteOf(w1, 1) && w1 / 0x100 == w / 0x1_0000;
  }

  lemma FourthByte(w: U32)
    ensures ByteOf(w, 3) == w / 0x100_0000
  {
    var w1 := w / 0x100;
    ThirdByte(w1);
    assert ByteOf(w, 3) == ByteOf(w1, 2) && w1 / 0x1_0000 == w / 0x100_0000;
  }

  lemma BytesOfWord(w: U32)
    ensures ByteOf(w, 0) == w % 0x100 && ByteOf(w, 1) == w / 0x100 % 0x100
    ensures ByteOf(w, 2) == w / 0x1_0000 % 0x100 && ByteOf(w, 3) == w / 0x100_0000
  {
    SecondByte(w);
    ThirdByte(w);
    FourthByte(w);
  }

  lemma HalvesOfWord(w: U32)
    ensures w % 0x1_0000 == Half(w % 0x100, w / 0x100 % 0x100)
    ensures w / 0x1_0000 == Half(w / 0x1_0000 % 0x100, w / 0x100_0000)
  {
    var h := w / 0x1_0000;
    assert w / 0x100_0000 == h / 0x100;
    assert w % 0x1_0000 % 0x100 == w % 0x100 && w % 0x1_0000 / 0x100 == w / 0x100 % 0x100 by {
      assert w == 0x1_0000 * h + w % 0x1_0000;
      assert w / 0x100 == 0x100 * h + w % 0x1_0000 / 0x100;
    }
  }

  /** Vendor and device are the 16-bit numbers at offsets 0 and 2, subclass and class the bytes at
      0x0A and 0x0B, the header type the byte at 0x0E. */
  lemma ReportFields(space: Space, bus: U8, device: U8, func: nat)
    ensures var r := ReportOf(space, bus, device, func);
            && r.bus == bus && r.device == device
            && r.vendor == Half(ConfigByte(space, bus, device, func, 0), ConfigByte(space, bus, device, func, 1))
            && r.deviceId == Half(ConfigByte(space, bus, device, func, 2), ConfigByte(space, bus, device, func, 3))
            && r.minor == ConfigByte(space, bus, device, func, 0x0A)
            && r.major == ConfigByte(space, bus, device, func, 0x0B)
            && r.header == ConfigByte(space, bus, device, func, 0x0E)
  {
    var id, kind, misc := space(Location(bus, device, func, 0)), space(Location(bus, device, func, 2)),
                          space(Location(bus, device, func, 3));
    BytesOfWord(id);
    HalvesOfWord(id);
    BytesOfWord(kind);
    BytesOfWord(misc);
  }

  lemma HeaderBit(value: U32)
    ensures value / 0x1_0000 % 0x100 < 0x80 <==> value / 0x80_0000 % 2 == 0
  {
    var h := value / 0x1_0000;
    assert value / 0x80_0000 == h / 0x80;
  }

  /** A function is there unless both bytes of its vendor read as ones, and the scan reads bit 7 of
      its header type. */
  lemma SlotFields(space: Space, bus: U8, device: U8, func: nat)
    requires func < 8
    ensures var slot := SlotsOf(space, bus, device)[func];
            && (slot.present <==> !(ConfigByte(space, bus, device, func, 0) == 0xFF
                                    && ConfigByte(space, bus, device, func, 1) == 0xFF))
            && (slot.more <==> ConfigByte(space, bus, device, func, 0x0E) >= 0x80)
  {
    var id, misc := space(Location(bus, device, func, 0)), space(Location(bus, device, func, 3));
    BytesOfWord(id);
    HalvesOfWord(id);
    BytesOfWord(misc);
    HeaderBit(misc);
  }

  /** The C strings of the file. */
  const FIELD: seq<U8> := Literal("  0x")

  const BRIDGE: seq<U8> := Literal("Found PCI-PCI bridge...\n")
  const HEADINGS: seq<U8> := Literal(" busID nDev vendID  devID   clas  scls  htype\n")

  ghost function Field(b: U8): seq<U8> { CString(FIELD) + HexByte(b) }

  ghost function Pair(w: U16): seq<U8> { CString(FIELD) + (HexByte(w / 0x100) + HexByte(w % 0x100)) }

  function IsBridge(r: Report): bool { r.major == 6 && r.minor == 4 }

  ghost function Line(r: Report): seq<U8> {
    Field(r.bus) + Field(r.device) + Pair(r.vendor) + Pair(r.deviceId)
      + Field(r.major) + Field(r.minor) + Field(r.header) + [NEWLINE]
  }

  ghost function Remark(r: Report): seq<U8> { if IsBridge(r) then CString(BRIDGE) else [] }

  ghost function EntryText(r: Report): seq<U8> { Line(r) + Remark(r) }

  function Flatten<T>(parts: seq<seq<T>>): seq<T> {
    if parts == [] then [] else Flatten(parts[..|parts| - 1]) + parts[|parts| - 1]
  }

  ghost function Entries(reports: seq<Report>): seq<seq<U8>> {
    seq(|reports|, i requires 0 <= i < |reports| => EntryText(reports[i]))
  }

  ghost function Listing(reports: seq<Report>): seq<U8> { Flatten(Entries(reports)) }

  function FunctionReports(space: Space, bus: U8, device: U8, funcs: seq<nat>): seq<Report> {
    seq(|funcs|, i requires 0 <= i < |funcs| => ReportOf(space, bus, device, funcs[i]))
  }

  function DeviceReports(space: Space, bus: U8, device: U8): seq<Report> {
    FunctionReports(space, bus, device, Scanned(SlotsOf(space, bus, device), 8))
  }

  /** The devices below n of a bus, and the buses below n. */
  function BusParts(space: Space, bus: U8, n: nat): seq<seq<Report>>
    requires n <= 0x20
  {
    seq(n, device requires 0 <= device < n => DeviceReports(space, bus, device))
  }

  function BusReports(space: Space, bus: U8, n: nat): seq<Report>
    requires n <= 0x20
  {
    Flatten(BusParts(space, bus, n))
  }

  function AllParts(space: Space, n: nat): seq<seq<Report>>
    requires n <= 0xFF
  {
    seq(n, bus requires 0 <= bus < n => BusReports(space, bus, 0x20))
  }

  function AllReports(space: Space, n: nat): seq<Report>
    requires n <= 0xFF
  {
    Flatten(AllParts(space, n))
  }

  // ---------- which buses and devices are listed ----------

  /** The entries about one device, in their order. */
  function About(reports: seq<Report>, bus: U8, device: U8): seq<Report> {
    if reports == [] then []
    else
      var n := |reports| - 1;
      About(reports[..n], bus, device)
        + if reports[n].bus == bus && reports[n].device == device then [reports[n]] else []
  }

  predicate Before(r: Report, q: Report) {
    r.bus < q.bus || (r.bus == q.bus && r.device <= q.device)
  }

  predicate Ascending(reports: seq<Report>) {
    forall i, j | 0 <= i < j < |reports| :: Before(reports[i], reports[j])
  }

  /** The entries of the devices below 32 on the buses below 255, each device's entries together, and
      no others, ascending. */
  ghost predicate Complete(space: Space, reports: seq<Report>) {
    && Ascending(reports)
    && forall bus: U8, device: U8 ::
         About(reports, bus, device) == if bus < 255 && device < 32 then DeviceReports(space, bus, device) else []
  }

  lemma {:induction false} AboutConcat(a: seq<Report>, b: seq<Report>, bus: U8, device: U8)
    ensures About(a + b, bus, device) == About(a, bus, device) + About(b, bus, device)
    decreases |b|
  {
    if b == [] {
      assert a + b == a;
    } else {
      var n := |b| - 1;
      AboutConcat(a, b[..n], bus, device);
      assert (a + b)[..|a| + n] == a + b[..n];
    }
  }

  predicate AllAbout(reports: seq<Report>, bus: U8, device: U8) {
    forall i | 0 <= i < |reports| :: reports[i].bus == bus && reports[i].device == device
  }

  lemma {:induction false} AboutAll(reports: seq<Report>, bus: U8, device: U8, b: U8, d: U8)
    requires AllAbout(reports, bus, device)
    ensures About(reports, b, d) == if b == bus && d == device then reports else []
    decreases |reports|
  {
    if reports != [] {
      var n := |reports| - 1;
      AboutAll(reports[..n], bus, device, b, d);
      assert reports == reports[..n] + [reports[n]];
    }
  }

  lemma DeviceAllAbout(space: Space, bus: U8, device: U8)
    ensures AllAbout(DeviceReports(space, bus, device), bus, device)
  {
  }

  lemma DeviceAbout(space: Space, bus: U8, device: U8, b: U8, d: U8)
    ensures About(DeviceReports(space, bus, device), b, d)
              == if b == bus && d == device then DeviceReports(space, bus, device) else []
  {
    DeviceAllAbout(space, bus, device);
    AboutAll(DeviceReports(space, bus, device), bus, device, b, d);
  }

  /** No part but number k is about the device. */
  ghost predicate OnlyPart(parts: seq<seq<Report>>, k: nat, b: U8, d: U8) {
    forall i: nat | i < |parts| && i != k :: About(parts[i], b, d) == []
  }

  lemma {:induction false} FlattenAbout(parts: seq<seq<Report>>, k: nat, b: U8, d: U8)
    requires OnlyPart(parts, k, b, d)
    ensures About(Flatten(parts), b, d) == if k < |parts| then About(parts[k], b, d) else []
    decreases |parts|
  {
    if parts != [] {
      var n := |parts| - 1;
      FlattenAbout(parts[..n], k, b, d);
      AboutConcat(Flatten(parts[..n]), parts[n], b, d);
    }
  }

  /** Both are ascending and the first ends before the second begins. */
  lemma AscendingConcat(a: seq<Report>, b: seq<Report>)
    requires Ascending(a) && Ascending(b)
    requires forall i, j | 0 <= i < |a| && 0 <= j < |b| :: Before(a[i], b[j])
    ensures Ascending(a + b)
  {
  }

  lemma BusComplete(space: Space, bus: U8, n: nat, b: U8, d: U8)
    requires n <= 0x20
    ensures About(BusReports(space, bus, n), b, d) == if b == bus && d < n then DeviceReports(space, bus, d) else []
  {
    var parts := BusParts(space, bus, n);
    forall i: nat | i < n
      ensures About(parts[i], b, d) == if b == bus && d == i then DeviceReports(space, bus, d) else []
    {
      DeviceAbout(space, bus, i, b, d);
    }
    FlattenAbout(parts, d, b, d);
  }

  lemma BusesComplete(space: Space, n: nat, b: U8, d: U8)
    requires n <= 0xFF
    ensures About(AllReports(space, n), b, d) == if b < n && d < 0x20 then DeviceReports(space, b, d) else []
  {
    var parts := AllParts(space, n);
    forall i: nat | i < n
      ensures About(parts[i], b, d) == if b == i && d < 0x20 then DeviceReports(space, b, d) else []
    {
      BusComplete(space, i, 0x20, b, d);
    }
    FlattenAbout(parts, b, b, d);
  }

  lemma FlattenAppend<T>(parts: seq<seq<T>>, part: seq<T>)
    ensures Flatten(parts + [part]) == Flatten(parts) + part
  {
    assert (parts + [part])[..|parts|] == parts;
  }

  lemma NextDevice(space: Space, bus: U8, n: nat)
    requires n < 0x20
    ensures BusReports(space, bus, n + 1) == BusReports(space, bus, n) + DeviceReports(space, bus, n)
  {
    assert BusParts(space, bus, n + 1) == BusParts(space, bus, n) + [DeviceReports(space, bus, n)];
    FlattenAppend(BusParts(space, bus, n), DeviceReports(space, bus, n));
  }

  lemma {:induction false} BusAscending(space: Space, bus: U8, n: nat)
    requires n <= 0x20
    ensures Ascending(BusReports(space, bus, n))
    ensures forall r | r in BusReports(space, bus, n) :: r.bus == bus && r.device < n
  {
    if n > 0 {
      BusAscending(space, bus, n - 1);
      DeviceAllAbout(space, bus, n - 1);
      NextDevice(space, bus, n - 1);
      AscendingConcat(BusReports(space, bus, n - 1), DeviceReports(space, bus, n - 1));
    }
  }

  lemma NextBus(space: Space, n: nat)
    requires n < 0xFF
    ensures AllReports(space, n + 1) == AllReports(space, n) + BusReports(space, n, 0x20)
  {
    assert AllParts(space, n + 1) == AllParts(space, n) + [BusReports(space, n, 0x20)];
    FlattenAppend(AllParts(space, n), BusReports(space, n, 0x20));
  }

  lemma {:induction false} BusesAscending(space: Space, n: nat)
    requires n <= 0xFF
    ensures Ascending(AllReports(space, n))
    ensures forall r | r in AllReports(space, n) :: r.bus < n
  {
    if n > 0 {
      BusesAscending(space, n - 1);
      BusAscending(space, n - 1, 0x20);
      NextBus(space, n - 1);
      AscendingConcat(AllReports(space, n - 1), BusReports(space, n - 1, 0x20));
    }
  }

  /** For every device of buses 0 to 254, exactly the entries of its own scan, and none for bus 255. */
  lemma AllReportsComplete(space: Space)
    ensures Complete(space, AllReports(space, 0xFF))
  {
    BusesAscending(space, 0xFF);
    forall bus: U8, device: U8
      ensures About(AllReports(space, 0xFF), bus, device)
                == if bus < 255 && device < 32 then DeviceReports(space, bus, device) else []
    {
      BusesComplete(space, 0xFF, bus, device);
    }
  }

  lemma {:induction false} FlattenConcat<T>(a: seq<seq<T>>, b: seq<seq<T>>)
    ensures Flatten(a + b) == Flatten(a) + Flatten(b)
    decreases |b|
  {
    if b == [] {
      assert a + b == a;
    } else {
      var front, last := b[..|b| - 1], b[|b| - 1];
      FlattenConcat(a, front);
      assert b == front + [last] && a + b == (a + front) + [last];
      FlattenAppend(a + front, last);
      FlattenAppend(front, last);
    }
  }

  lemma ListingConcat(a: seq<Report>, b: seq<Report>)
    ensures Listing(a + b) == Listing(a) + Listing(b)
  {
    assert Entries(a + b) == Entries(a) + Entries(b);
    FlattenConcat(Entries(a), Entries(b));
  }

  lemma FlattenOne<T>(part: seq<T>)
    ensures Flatten([part]) == part
  {
    assert [part][..0] == [];
    assert Flatten([part]) == Flatten([]) + part;
  }

  lemma ListingOne(r: Report)
    ensures Listing([r]) == EntryText(r)
  {
    var text := EntryText(r);
    assert Entries([r]) == [text];
    FlattenOne(text);
  }

  /** Every entry is about a function that is there; its number is the one that was looked at. */
  lemma {:induction false} ReportsAreReal(space: Space, bus: U8, device: U8, i: nat)
    requires i < |DeviceReports(space, bus, device)|
    ensures exists f: nat :: f < 4 && SlotsOf(space, bus, device)[f].present
              && DeviceReports(space, bus, device)[i] == ReportOf(space, bus, device, f)
  {
    var slots := SlotsOf(space, bus, device);
    var x := Scanned(slots, 8)[i];
    ScannedFrom(slots, 8, x);
    assert x < 4 && slots[x].present;
  }

  /** Orderly devices are listed right, function by function. */
  lemma OrderlyDeviceReports(space: Space, bus: U8, device: U8)
    requires Orderly(SlotsOf(space, bus, device))
    ensures DeviceReports(space, bus, device)
              == FunctionReports(space, bus, device, Actual(SlotsOf(space, bus, device), 8))
  {
    FaithfulIff(SlotsOf(space, bus, device));
  }

  // ---------- the listing can be read back ----------

  lemma ByteParses(b: U8)
    ensures ParseHex(HexByte(b)) == b
  {
    ParseByte([], b);
    assert [] + HexByte(b) == HexByte(b);
  }

  lemma PairParses(w: U16)
    ensures ParseHex(HexByte(w / 0x100) + HexByte(w % 0x100)) == w
  {
    ByteParses(w / 0x100);
    ParseByte(HexByte(w / 0x100), w % 0x100);
  }

  lemma FieldText()
    ensures CString(FIELD) == Ascii("  0x") && |CString(FIELD)| == 4
  {
    LiteralIsText("  0x");
  }

  /** From its start on, a column shows a label and then its value in hexadecimal digits. */
  datatype Column = Column(start: nat, digits: nat, value: nat)

  predicate Shown(t: seq<U8>, c: Column) {
    && c.start + 4 + c.digits <= |t| && t[c.start..c.start + 4] == Ascii("  0x")
    && ParseHex(t[c.start + 4..c.start + 4 + c.digits]) == c.value
  }

  predicate AllShown(t: seq<U8>, columns: seq<Column>) {
    forall i | 0 <= i < |columns| :: Shown(t, columns[i])
  }

  lemma StillShown(t: seq<U8>, u: seq<U8>, c: Column)
    requires Shown(t, c)
    ensures Shown(t + u, c)
  {
    var n := c.start + 4;
    assert (t + u)[c.start..n] == t[c.start..n] && (t + u)[n..n + c.digits] == t[n..n + c.digits];
  }

  lemma FieldShown(t: seq<U8>, columns: seq<Column>, b: U8)
    requires AllShown(t, columns)
    ensures |t + Field(b)| == |t| + 6 && AllShown(t + Field(b), columns + [Column(|t|, 2, b)])
  {
    FieldText();
    ByteParses(b);
    assert (t + Field(b))[|t| + 4..|t| + 6] == HexByte(b);
    forall c | c in columns ensures Shown(t + Field(b), c) { StillShown(t, Field(b), c); }
  }

  lemma PairShown(t: seq<U8>, columns: seq<Column>, w: U16)
    requires AllShown(t, columns)
    ensures |t + Pair(w)| == |t| + 8 && AllShown(t + Pair(w), columns + [Column(|t|, 4, w)])
  {
    FieldText();
    PairParses(w);
    assert (t + Pair(w))[|t| + 4..|t| + 8] == HexByte(w / 0x100) + HexByte(w % 0x100);
    forall c | c in columns ensures Shown(t + Pair(w), c) { StillShown(t, Pair(w), c); }
  }

  lemma EndShown(t: seq<U8>, columns: seq<Column>)
    requires AllShown(t, columns)
    ensures AllShown(t + [NEWLINE], columns)
  {
    forall c | c in columns ensures Shown(t + [NEWLINE], c) { StillShown(t, [NEWLINE], c); }
  }

  function ColumnsOf(r: Report): seq<Column> {
    [Column(0, 2, r.bus), Column(6, 2, r.device), Column(12, 4, r.vendor), Column(20, 4, r.deviceId),
     Column(28, 2, r.major), Column(34, 2, r.minor), Column(40, 2, r.header)]
  }

  /** The first four columns of a line. */
  function FirstFields(r: Report): seq<Column> {
    [Column(0, 2, r.bus), Column(6, 2, r.device), Column(12, 4, r.vendor), Column(20, 4, r.deviceId)]
  }

  lemma LineStart(r: Report)
    ensures var t := Field(r.bus) + Field(r.device) + Pair(r.vendor) + Pair(r.deviceId);
            |t| == 28 && AllShown(t, FirstFields(r))
  {
    FieldShown([], [], r.bus);
    assert [] + Field(r.bus) == Field(r.bus);
    var c1 := [] + [Column(0, 2, r.bus)];
    FieldShown(Field(r.bus), c1, r.device);
    var t2, c2 := Field(r.bus) + Field(r.device), c1 + [Column(6, 2, r.device)];
    PairShown(t2, c2, r.vendor);
    var t3, c3 := t2 + Pair(r.vendor), c2 + [Column(12, 4, r.vendor)];
    PairShown(t3, c3, r.deviceId);
    assert c3 + [Column(20, 4, r.deviceId)] == FirstFields(r);
  }

  /** A printed line is 46 characters and a line feed, with these numbers in its columns. */
  lemma LineColumns(r: Report)
    ensures |Line(r)| == 47 && Line(r)[46] == 10 && AllShown(Line(r), ColumnsOf(r))
  {
    LineStart(r);
    var t4, c4 := Field(r.bus) + Field(r.device) + Pair(r.vendor) + Pair(r.deviceId), FirstFields(r);
    FieldShown(t4, c4, r.major);
    var t5, c5 := t4 + Field(r.major), c4 + [Column(28, 2, r.major)];
    FieldShown(t5, c5, r.minor);
    var t6, c6 := t5 + Field(r.minor), c5 + [Column(34, 2, r.minor)];
    FieldShown(t6, c6, r.header);
    var t7, c7 := t6 + Field(r.header), c6 + [Column(40, 2, r.header)];
    EndShown(t7, c7);
    assert c7 == ColumnsOf(r);
  }

  lemma BridgeText()
    ensures CString(BRIDGE) == Ascii("Found PCI-PCI bridge...\n")
  {
    LiteralIsText("Found PCI-PCI bridge...\n");
  }

  /** An entry starts with its line; what follows it is there exactly for class 6, subclass 4. */
  lemma EntryShown(space: Space, bus: U8, device: U8, func: nat)
    ensures var r := ReportOf(space, bus, device, func);
            var t := EntryText(r);
            && |t| >= 47 && t[46] == 10 && AllShown(t, ColumnsOf(r))
            && t[47..] == if && ConfigByte(space, bus, device, func, 0x0B) == 6
                             && ConfigByte(space, bus, device, func, 0x0A) == 4
                          then Ascii("Found PCI-PCI bridge...\n") else []
  {
    var r := ReportOf(space, bus, device, func);
    ReportFields(space, bus, device, func);
    LineColumns(r);
    BridgeText();
    forall c | c in ColumnsOf(r) ensures Shown(EntryText(r), c) { StillShown(Line(r), Remark(r), c); }
  }

  lemma SameColumn(t: seq<U8>, r: Report, q: Report, k: nat)
    requires k < 7 && AllShown(t, ColumnsOf(r)) && AllShown(t, ColumnsOf(q))
    ensures ColumnsOf(r)[k].value == ColumnsOf(q)[k].value
  {
    assert Shown(t, ColumnsOf(r)[k]) && Shown(t, ColumnsOf(q)[k]);
  }

  /** So a line determines its report. */
  lemma LineInjective(r: Report, q: Report)
    requires Line(r) == Line(q)
    ensures r == q
  {
    LineColumns(r);
    LineColumns(q);
    SameColumn(Line(r), r, q, 0);
    SameColumn(Line(r), r, q, 1);
    SameColumn(Line(r), r, q, 2);
    SameColumn(Line(r), r, q, 3);
    SameColumn(Line(r), r, q, 4);
    SameColumn(Line(r), r, q, 5);
    SameColumn(Line(r), r, q, 6);
  }

  // ---------- the code ----------

  lemma {:induction false} NoneAfterStop(slots: Slots, f: nat, n: nat)
    requires f < n <= 8 && Seen(slots, f).present && !Seen(slots, f).more
    ensures Scanned(slots, n) == Scanned(slots, f + 1)
    decreases n
  {
    if f + 1 < n {
      NoneAfterStop(slots, f, n - 1);
      assert !Listed(slots, n - 1);
    }
  }

  /** One more number: the entry it adds, as long as nothing has stopped the scan. */
  lemma FunctionListed(space: Space, bus: U8, device: U8, s: Screen, f: nat)
    requires Ok(s) && f < 8
    requires Goes(SlotsOf(space, bus, device), f)
    ensures var slots := SlotsOf(space, bus, device);
            Render(s, Listing(FunctionReports(space, bus, device, Scanned(slots, f + 1))))
              == Render(Render(s, Listing(FunctionReports(space, bus, device, Scanned(slots, f)))),
                   if Seen(slots, f).present then EntryText(ReportOf(space, bus, device, f % 4)) else [])
  {
    var slots := SlotsOf(space, bus, device);
    var reports := FunctionReports(space, bus, device, Scanned(slots, f));
    assert Listed(slots, f) == Seen(slots, f).present;
    if Seen(slots, f).present {
      var r := ReportOf(space, bus, device, f % 4);
      assert FunctionReports(space, bus, device, Scanned(slots, f + 1)) == reports + [r];
      ListingConcat(reports, [r]);
      ListingOne(r);
      RenderConcat(s, Listing(reports), EntryText(r));
    } else {
      assert Scanned(slots, f + 1) == Scanned(slots, f);
    }
  }

  class Scanner {
    const space: Space
    var address: U32
    const terminal: Terminal

    constructor (space: Space, terminal: Terminal)
      ensures this.space == space && this.terminal == terminal
    {
      this.space, this.terminal, address := space, terminal, 0;
    }

    /** A write to the bridge's address port, 0xCF8, selects a register. */
    method Outl(port: U16, value: U32)
      modifies this`address
      ensures address == if port == 0xCF8 then value else old(address)
    {
      if port == 0xCF8 { address := value; }
    }

    /** Its data port, 0xCFC, gives the selected register; nothing selected, and other ports, read as
        ones. */
    method Inl(port: U16) returns (value: U32)
      ensures value == if port == 0xCFC && Selected(address).Some? then space(Selected(address).value) else 0xFFFF_FFFF
    {
      value := if port == 0xCFC && Selected(address).Some? then space(Selected(address).value) else 0xFFFF_FFFF;
    }

    method ReadPciConfig(bus: U8, device: U8, func: U8, offset: U8) returns (config: U32)
      modifies this`address
      ensures config == space(Location(bus, device % 0x20, func % 4, offset / 4))
    {
      AddressExpression(bus, device, func, offset);
      AddressSelects(bus, device, func, offset);
      var conval := Or(0x8000 * 0x1_0000, bus * 0x1_0000);
      conval := Or(conval, device % 0x20 * 0x800);
      conval := Or(conval, func % 4 * 0x100);
      conval := Or(conval, offset / 4 * 4);
      Outl(0xCF8, conval);
      config := Inl(0xCFC);
    }

    method PutField(b: U8)
      requires terminal.Valid()
      modifies terminal`row, terminal`column, terminal.buffer
      ensures terminal.Valid() && terminal.Now() == Render(old(terminal.Now()), Field(b))
    {
      ghost var before := terminal.Now();
      LiteralEnds("  0x");
      terminal.WriteString(FIELD);
      terminal.WriteHexDigits(b);
      RenderConcat(before, CString(FIELD), HexByte(b));
    }

    method PutPair(w: U16)
      requires terminal.Valid()
      modifies terminal`row, terminal`column, terminal.buffer
      ensures terminal.Valid() && terminal.Now() == Render(old(terminal.Now()), Pair(w))
    {
      ghost var before := terminal.Now();
      LiteralEnds("  0x");
      terminal.WriteString(FIELD);
      ghost var labelled := terminal.Now();
      terminal.WriteHexDigits(w / 0x100);
      terminal.WriteHexDigits(w % 0x100);
      RenderConcat(labelled, HexByte(w / 0x100), HexByte(w % 0x100));
      RenderConcat(before, CString(FIELD), HexByte(w / 0x100) + HexByte(w % 0x100));
    }

    method PutLine(r: Report)
      requires terminal.Valid()
      modifies terminal`row, terminal`column, terminal.buffer
      ensures terminal.Valid() && terminal.Now() == Render(old(terminal.Now()), Line(r))
    {
      ghost var before := terminal.Now();
      PutField(r.bus);
      ghost var text := Field(r.bus);
      PutField(r.device);
      RenderConcat(before, text, Field(r.device));
      text := text + Field(r.device);
      PutPair(r.vendor);
      RenderConcat(before, text, Pair(r.vendor));
      text := text + Pair(r.vendor);
      PutPair(r.deviceId);
      RenderConcat(before, text, Pair(r.deviceId));
      text := text + Pair(r.deviceId);
      PutField(r.major);
      RenderConcat(before, text, Field(r.major));
      text := text + Field(r.major);
      PutField(r.minor);
      RenderConcat(before, text, Field(r.minor));
      text := text + Field(r.minor);
      PutField(r.header);
      RenderConcat(before, text, Field(r.header));
      text := text + Field(r.header);
      terminal.PutChar(NEWLINE);
      RenderOne(before, text, NEWLINE);
    }

    /** The line, and a remark for a bridge, whose register 0x18 is read and not used. */
    method PutEntry(r: Report, func: U8)
      requires terminal.Valid()
      modifies this`address, terminal`row, terminal`column, terminal.buffer
      ensures terminal.Valid() && terminal.Now() == Render(old(terminal.Now()), EntryText(r))
    {
      RenderConcat(terminal.Now(), Line(r), Remark(r));
      PutLine(r);
      if r.major == 6 && r.minor == 4 {
        var _ := ReadPciConfig(r.bus, r.device, func, 0x18);
        LiteralEnds("Found PCI-PCI bridge...\n");
        terminal.WriteString(BRIDGE);
      }
    }

    method ReadReport(bus: U8, device: U8, func: U8) returns (present: bool, report: Report)
      requires device < 0x20 && func < 8
      modifies this`address
      ensures present == Seen(SlotsOf(space, bus, device), func).present
      ensures present ==> report == ReportOf(space, bus, device, func % 4)
      ensures present ==> (report.header < 0x80 <==> !Seen(SlotsOf(space, bus, device), func).more)
    {
      report := Report(bus, device, 0, 0, 0, 0, 0);
      var value := ReadPciConfig(bus, device, func, 0x0);
      report := report.(deviceId := value / 0x1_0000, vendor := value % 0x1_0000);
      present := report.vendor != 0xFFFF;
      if !present { return; }
      value := ReadPciConfig(bus, device, func, 0x8);
      report := report.(major := value / 0x100_0000, minor := value / 0x1_0000 % 0x100);
      value := ReadPciConfig(bus, device, func, 0xC);
      report := report.(header := value / 0x1_0000 % 0x100);
      HeaderBit(value);
    }

    /** One number: nothing, or an entry and the end of the device's scan unless bit 7 is set. */
    method ScanFunction(bus: U8, device: U8, func: U8) returns (stop: bool)
      requires terminal.Valid() && device < 0x20 && func < 8
      modifies this`address, terminal`row, terminal`column, terminal.buffer
      ensures terminal.Valid()
      ensures var slot := Seen(SlotsOf(space, bus, device), func);
              && (stop <==> slot.present && !slot.more)
              && terminal.Now() == Render(old(terminal.Now()),
                   if slot.present then EntryText(ReportOf(space, bus, device, func % 4)) else [])
    {
      var present, report := ReadReport(bus, device, func);
      if !present { return false; }
      PutEntry(report, func);
      stop := report.header < 0x80;
    }

    method ScanDevice(bus: U8, device: U8)
      requires terminal.Valid() && device < 0x20
      modifies this`address, terminal`row, terminal`column, terminal.buffer
      ensures terminal.Valid()
      ensures terminal.Now() == Render(old(terminal.Now()), Listing(DeviceReports(space, bus, device)))
    {
      ghost var before := terminal.Now();
      ghost var slots := SlotsOf(space, bus, device);
      var func: U8 := 0;
      while func < 8
        invariant func <= 8 && terminal.Valid()
        invariant Goes(slots, func)
        invariant terminal.Now()
                    == Render(before, Listing(FunctionReports(space, bus, device, Scanned(slots, func))))
      {
        FunctionListed(space, bus, device, before, func);
        var stop := ScanFunction(bus, device, func);
        if stop {
          NoneAfterStop(slots, func, 8);
          break;
        }
        func := func + 1;
      }
    }

    method ScanPciBus(bus: U8)
      requires terminal.Valid()
      modifies this`address, terminal`row, terminal`column, terminal.buffer
      ensures terminal.Valid()
      ensures terminal.Now() == Render(old(terminal.Now()), Listing(BusReports(space, bus, 0x20)))
    {
      ghost var before := terminal.Now();
      var device: U8 := 0;
      while device < 0x20
        invariant device <= 0x20 && terminal.Valid()
        invariant terminal.Now() == Render(before, Listing(BusReports(space, bus, device)))
      {
        ScanDevice(bus, device);
        NextDevice(space, bus, device);
        ListingConcat(BusReports(space, bus, device), DeviceReports(space, bus, device));
        RenderConcat(before, Listing(BusReports(space, bus, device)), Listing(DeviceReports(space, bus, device)));
        device := device + 1;
      }
    }

    /** Buses 0 to 254, in order; bus 255 is never looked at. */
    method PciInit() returns (ghost reports: seq<Report>)
      requires terminal.Valid()
      modifies this`address, terminal`row, terminal`column, terminal.buffer
      ensures terminal.Valid()
      ensures terminal.Now()
                == Render(old(terminal.Now()), CString(HEADINGS) + Listing(reports))
      ensures Complete(space, reports)
    {
      ghost var start := terminal.Now();
      LiteralEnds(" busID nDev vendID  devID   clas  scls  htype\n");
      terminal.WriteString(HEADINGS);
      ghost var before := terminal.Now();
      var bus: U8 := 0;
      while bus < 0xFF
        invariant bus <= 0xFF && terminal.Valid()
        invariant terminal.Now() == Render(before, Listing(AllReports(space, bus)))
      {
        ScanPciBus(bus);
        NextBus(space, bus);
        ListingConcat(AllReports(space, bus), BusReports(space, bus, 0x20));
        RenderConcat(before, Listing(AllReports(space, bus)), Listing(BusReports(space, bus, 0x20)));
        bus := bus + 1;
      }
      reports := AllReports(space, 0xFF);
      AllReportsComplete(space);
      RenderConcat(start, CString(HEADINGS), Listing(reports));
    }
  }
}
