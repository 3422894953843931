/** The interrupt descriptor table, as tables.c fills it and as the processor reads it. */
module Idt {
  import opened Bits
  import opened X86
  import opened Stubs

  /** What the processor takes from the 8 bytes of a gate (section 6.11 of the Intel SDM, Volume 3A). */
  datatype Gate = Gate(offset: U32, selector: U16, flags: U8)

  function GateAt(b: seq<U8>, v: nat): Gate
    requires |b| == 2048 && v < 256
  {
    var i := 8 * v;
    Gate(Join(b[i], b[i + 1], b[i + 6], b[i + 7]), Half(b[i + 2], b[i + 3]), b[i + 5])
  }

  const ABSENT := Gate(0, 0, 0)

  /** The stub that vector v is meant for. */
  function StubOf(v: nat, apic: bool): Symbol {
    if v < 32 then Isr(v) else if apic then IrqApic(v - 32) else Irq(v - 32)
  }

  /** Addresses of the entry points, as the linker chose them. */
  type Addresses = Symbol -> U32

  /** An interrupt gate (type 14, present, ring 0) in the kernel's code segment. */
  function WantedGate(addr: Addresses, apic: bool, v: nat): Gate { Gate(addr(StubOf(v, apic)), 0x08, 0x8E) }

  /** The first n gates are set, and the others not present. */
  ghost predicate Installed(b: seq<U8>, addr: Addresses, apic: bool, n: nat) {
    |b| == 2048 && forall v: nat | v < 256 :: GateAt(b, v) == if v < n then WantedGate(addr, apic, v) else ABSENT
  }

  /** As the processor reads it: a present 32-bit interrupt gate (S flag clear, type 14), so that
      entering clears IF; only privilege 0 can enter by an int instruction. */
  predicate IsInterruptGate(g: Gate) {
    IsPresent(g.flags) && KindOf(g.flags) == SystemSegment(14) && Privilege(g.flags) == 0
  }

  /** Vector v leads to its stub, by an interrupt gate with this selector, or is not in use. */
  predicate LeadsToStub(g: Gate, addr: Addresses, apic: bool, selector: U16, v: nat) {
    if v < 48 then IsInterruptGate(g) && g.selector == selector && g.offset == addr(StubOf(v, apic))
    else !IsPresent(g.flags)
  }

  ghost predicate LeadsToStubs(b: seq<U8>, addr: Addresses, apic: bool, selector: U16) {
    |b| == 2048 && forall v: nat | v < 256 :: LeadsToStub(GateAt(b, v), addr, apic, selector, v)
  }

  lemma WantedLeads(g: Gate, addr: Addresses, apic: bool, v: nat)
    requires g == if v < 48 then WantedGate(addr, apic, v) else ABSENT
    ensures LeadsToStub(g, addr, apic, 0x08, v)
  {
  }

  lemma InstalledLeads(b: seq<U8>, addr: Addresses, apic: bool)
    requires Installed(b, addr, apic, 48)
    ensures LeadsToStubs(b, addr, apic, 0x08)
  {
    forall v: nat | v < 256
      ensures LeadsToStub(GateAt(b, v), addr, apic, 0x08, v)
    {
      WantedLeads(GateAt(b, v), addr, apic, v);
    }
  }

  lemma JoinHalves(x: U32)
    ensures x == Join(x % 0x1_0000 % 0x100, x % 0x1_0000 / 0x100, x / 0x1_0000 % 0x100, x / 0x1_0000 / 0x100)
  {
    var low, high := x % 0x1_0000, x / 0x1_0000;
    assert x == low + 0x1_0000 * high;
  }

  lemma NoneInstalled(b: seq<U8>, addr: Addresses, apic: bool)
    requires |b| == 2048 && forall j | 0 <= j < 2048 :: b[j] == 0
    ensures Installed(b, addr, apic, 0)
  {
  }

  lemma HalfOf(h: U16)
    ensures Half(h % 0x100, h / 0x100) == h
  {
  }

  /** Eight bytes make a gate. */
  lemma GateWritten(b: seq<U8>, b': seq<U8>, num: U8, base: U32, selector: U16, flags: U8)
    requires |b| == |b'| == 2048
    requires var i := 8 * num;
             && b'[i] == base % 0x1_0000 % 0x100 && b'[i + 1] == base % 0x1_0000 / 0x100
             && b'[i + 2] == selector % 0x100 && b'[i + 3] == selector / 0x100 && b'[i + 5] == flags
             && b'[i + 6] == base / 0x1_0000 % 0x1_0000 % 0x100 && b'[i + 7] == base / 0x1_0000 % 0x1_0000 / 0x100
    requires forall j | 0 <= j < 2048 && !(8 * num <= j < 8 * num + 8) :: b'[j] == b[j]
    ensures forall v: nat | v < 256 ::
              GateAt(b', v) == if v == num then Gate(base, selector, flags) else GateAt(b, v)
  {
    JoinHalves(base);
    HalfOf(selector);
    assert base / 0x1_0000 % 0x1_0000 == base / 0x1_0000;
    forall v: nat | v < 256
      ensures GateAt(b', v) == if v == num then Gate(base, selector, flags) else GateAt(b, v)
    {
    }
  }

  /** p_idt, and the register that lidt loads from it. */
  datatype Pointer = Pointer(limit: U16, base: U32)

  class Table {
    const idts: array<U8>

    /** The linear address of idts. */
    const address: U32

    var pIdt: Pointer
    var idtr: Pointer

    constructor (address: U32)
      ensures fresh(idts) && idts.Length == 2048 && this.address == address
    {
      idts := new U8[2048](_ => 0);
      this.address := address;
      pIdt, idtr := Pointer(0, 0), Pointer(0, 0);
    }

    method SetHalf(i: nat, h: U16)
      requires i + 1 < idts.Length
      modifies idts
      ensures idts[..] == old(idts[..])[i := h % 0x100][i + 1 := h / 0x100]
    {
      idts[i] := h % 0x100;
      idts[i + 1] := h / 0x100;
    }

    /** idt_set_gate: this gate, and no other. */
    method IdtSetGate(num: U8, base: U32, selector: U16, flags: U8)
      requires idts.Length == 2048
      modifies idts
      ensures forall v: nat | v < 256 ::
                GateAt(idts[..], v) == if v == num then Gate(base, selector, flags) else GateAt(old(idts[..]), v)
    {
      ghost var b := idts[..];
      SetHalf(8 * num, base % 0x1_0000);
      SetHalf(8 * num + 6, base / 0x1_0000 % 0x1_0000);

      SetHalf(8 * num + 2, selector);
      idts[8 * num + 4] := 0;
      idts[8 * num + 5] := flags;
      GateWritten(b, idts[..], num, base, selector, flags);
    }

    /** The next gate of the table. */
    method Install(v: U8, ghost addr: Addresses, ghost apic: bool, base: U32)
      requires v < 48 && Installed(idts[..], addr, apic, v) && base == addr(StubOf(v, apic))
      modifies idts
      ensures Installed(idts[..], addr, apic, v + 1)
    {
      IdtSetGate(v, base, 0x08, 0x8E);
    }

    /** Gates 0 to 15. */
    method InstallFaults(addr: Addresses, ghost apic: bool)
      requires Installed(idts[..], addr, apic, 0)
      modifies idts
      ensures Installed(idts[..], addr, apic, 16)
    {
      Install(0, addr, apic, addr(Isr(0)));
      Install(1, addr, apic, addr(Isr(1)));
      Install(2, addr, apic, addr(Isr(2)));
      Install(3, addr, apic, addr(Isr(3)));
      Install(4, addr, apic, addr(Isr(4)));
      Install(5, addr, apic, addr(Isr(5)));
      Install(6, addr, apic, addr(Isr(6)));
      Install(7, addr, apic, addr(Isr(7)));
      Install(8, addr, apic, addr(Isr(8)));
      Install(9, addr, apic, addr(Isr(9)));
      Install(10, addr, apic, addr(Isr(10)));
      Install(11, addr, apic, addr(Isr(11)));
      Install(12, addr, apic, addr(Isr(12)));
      Install(13, addr, apic, addr(Isr(13)));
      Install(14, addr, apic, addr(Isr(14)));
      Install(15, addr, apic, addr(Isr(15)));
    }

    /** Gates 16 to 31. */
    method InstallOtherFaults(addr: Addresses, ghost apic: bool)
      requires Installed(idts[..], addr, apic, 16)
      modifies idts
      ensures Installed(idts[..], addr, apic, 32)
    {
      Install(16, addr, apic, addr(Isr(16)));
      Install(17, addr, apic, addr(Isr(17)));
      Install(18, addr, apic, addr(Isr(18)));
      Install(19, addr, apic, addr(Isr(19)));
      Install(20, addr, apic, addr(Isr(20)));
      Install(21, addr, apic, addr(Isr(21)));
      Install(22, addr, apic, addr(Isr(22)));
      Install(23, addr, apic, addr(Isr(23)));
      Install(24, addr, apic, addr(Isr(24)));
      Install(25, addr, apic, addr(Isr(25)));
      Install(26, addr, apic, addr(Isr(26)));
      Install(27, addr, apic, addr(Isr(27)));
      Install(28, addr, apic, addr(Isr(28)));
      Install(29, addr, apic, addr(Isr(29)));
      Install(30, addr, apic, addr(Isr(30)));
      Install(31, addr, apic, addr(Isr(31)));
    }

    /** The gates from IRQ0 on, without an APIC. */
    method InstallIrqs(addr: Addresses)
      requires Installed(idts[..], addr, false, 32)
      modifies idts
      ensures Installed(idts[..], addr, false, 48)
    {
      Install(32, addr, false, addr(Irq(0)));
      Install(33, addr, false, addr(Irq(1)));
      Install(34, addr, false, addr(Irq(2)));
      Install(35, addr, false, addr(Irq(3)));
      Install(36, addr, false, addr(Irq(4)));
      Install(37, addr, false, addr(Irq(5)));
      Install(38, addr, false, addr(Irq(6)));
      Install(39, addr, false, addr(Irq(7)));
      Install(40, addr, false, addr(Irq(8)));
      Install(41, addr, false, addr(Irq(9)));
      Install(42, addr, false, addr(Irq(10)));
      Install(43, addr, false, addr(Irq(11)));
      Install(44, addr, false, addr(Irq(12)));
      Install(45, addr, false, addr(Irq(13)));
      Install(46, addr, false, addr(Irq(14)));
      Install(47, addr, false, addr(Irq(15)));
    }

    /** The gates from IRQ0 on, with an APIC. */
    method InstallApicIrqs(addr: Addresses)
      requires Installed(idts[..], addr, true, 32)
      modifies idts
      ensures Installed(idts[..], addr, true, 48)
    {
      Install(32, addr, true, addr(IrqApic(0)));
      Install(33, addr, true, addr(IrqApic(1)));
      Install(34, addr, true, addr(IrqApic(2)));
      Install(35, addr, true, addr(IrqApic(3)));
      Install(36, addr, true, addr(IrqApic(4)));
      Install(37, addr, true, addr(IrqApic(5)));
      Install(38, addr, true, addr(IrqApic(6)));
      Install(39, addr, true, addr(IrqApic(7)));
      Install(40, addr, true, addr(IrqApic(8)));
      Install(41, addr, true, addr(IrqApic(9)));
      Install(42, addr, true, addr(IrqApic(10)));
      Install(43, addr, true, addr(IrqApic(11)));
      Install(44, addr, true, addr(IrqApic(12)));
      Install(45, addr, true, addr(IrqApic(13)));
      Install(46, addr, true, addr(IrqApic(14)));
      Install(47, addr, true, addr(IrqApic(15)));
    }

    /** lidt of p_idt. */
    method IdtFlush()
      modifies this`idtr
      ensures idtr == pIdt
    {
      idtr := pIdt;
    }

    /** idt_init; available is what apic_is_available says. */
    method IdtInit(addr: Addresses, available: bool)
      requires idts.Length == 2048
      modifies this, idts
      ensures LeadsToStubs(idts[..], addr, available, 0x08) && Installed(idts[..], addr, available, 48)
      ensures idtr == Pointer(2047, address)
    {
      pIdt := Pointer(8 * 256 - 1, address);
      for i := 0 to 2048
        invariant forall j | 0 <= j < i :: idts[j] == 0
        invariant pIdt == Pointer(2047, address)
      {
        idts[i] := 0;
      }
      NoneInstalled(idts[..], addr, available);
      InstallFaults(addr, available);
      InstallOtherFaults(addr, available);
      if available {
        InstallApicIrqs(addr);
      } else {
        InstallIrqs(addr);
      }
      InstalledLeads(idts[..], addr, available);
      IdtFlush();
    }
  }
}
