/** A pair of cascaded 8259A interrupt controllers and the driver pic.c. */
module Pic {
  // ---------- one chip ----------

  /** What the next write to the data port means. */
  datatype Expect = Ready | Icw2 | Icw3 | Icw4

  /** base is the vector of line 0; irr, isr and imr are the request, in-service and mask
      registers, one bit for each line; levels and mode are what ICW1 says about the triggers and
      ICW4 about the operation. */
  datatype Chip = Chip(base: bv8, irr: bv8, isr: bv8, imr: bv8, cascade: bv8,
                       expecting: Expect, single: bool, needsIcw4: bool, levels: bool, mode: bv8)

  /** The register with only line n: `1 << n`. */
  function Bit(n: nat): bv8
    requires n < 8
  {
    match n
    case 0 => 0x01 case 1 => 0x02 case 2 => 0x04 case 3 => 0x08
    case 4 => 0x10 case 5 => 0x20 case 6 => 0x40 case _ => 0x80
  }

  /** A line number as the three low bits of a vector. */
  function Code(n: nat): bv8
    requires n < 8
  {
    match n
    case 0 => 0 case 1 => 1 case 2 => 2 case 3 => 3
    case 4 => 4 case 5 => 5 case 6 => 6 case _ => 7
  }

  predicate Has(r: bv8, n: nat)
    requires n < 8
  {
    r & Bit(n) != 0
  }

  /** The highest-priority line in a register: the lowest bit set, or 8. */
  function First(r: bv8): (n: nat)
    ensures n <= 8
    ensures n < 8 ==> Has(r, n)
    ensures forall m: nat | m < n && m < 8 :: !Has(r, m)
    ensures n == 8 <==> r == 0
  {
    if r & 0x01 != 0 then 0 else if r & 0x02 != 0 then 1
    else if r & 0x04 != 0 then 2 else if r & 0x08 != 0 then 3
    else if r & 0x10 != 0 then 4 else if r & 0x20 != 0 then 5
    else if r & 0x40 != 0 then 6 else if r & 0x80 != 0 then 7
    else 8
  }

  /** Command port: ICW1 starts the initialisation sequence; of the operation words only the
      non-specific end of interrupt matters here.  The 8259A data sheet does not list the
      in-service register among what ICW1 clears. */
  function WriteCommand(c: Chip, v: bv8): Chip {
    if v & 0x10 != 0 then
      c.(expecting := Icw2, single := v & 0x02 != 0, needsIcw4 := v & 0x01 != 0, levels := v & 0x08 != 0,
         imr := 0, irr := 0, mode := 0)
    else if v & 0xF8 == 0x20 && c.isr != 0 then c.(isr := c.isr & !Bit(First(c.isr)))
    else c
  }

  function WriteData(c: Chip, v: bv8): Chip {
    match c.expecting
    case Icw2 =>
      c.(base := v & 0xF8, expecting := if !c.single then Icw3 else if c.needsIcw4 then Icw4 else Ready)
    case Icw3 => c.(cascade := v, expecting := if c.needsIcw4 then Icw4 else Ready)
    case Icw4 => c.(mode := v, expecting := Ready)
    case Ready => c.(imr := v)
  }

  /** A request that no in-service line of equal or higher priority holds back. */
  predicate Deliverable(c: Chip) {
    First(c.irr & !c.imr) < First(c.isr)
  }

  /** The acknowledge cycle of one chip: the line, and whether the request was still there.  A
      request that went away is answered as line 7, with no in-service bit.  Bit 1 of the mode is
      automatic end of interrupt. */
  function Acknowledge(c: Chip): (r: (Chip, nat, bool))
    ensures r.1 < 8
  {
    if Deliverable(c) then
      var n := First(c.irr & !c.imr);
      (c.(irr := c.irr & !Bit(n), isr := if c.mode & 0x02 != 0 then c.isr else c.isr | Bit(n)), n, true)
    else (c, 7, false)
  }

  // ---------- the pair ----------

  datatype Pics = Pics(master: Chip, slave: Chip)

  /** Which request an acknowledge cycle took.  SlaveLine and SlaveSpurious went through line 2 of
      the master. */
  datatype Taken = MasterLine(n: nat) | MasterSpurious | SlaveLine(m: nat) | SlaveSpurious

  function AcknowledgePair(p: Pics): (Pics, bv8, Taken) {
    var (master, n, there) := Acknowledge(p.master);
    if there && n == 2 then
      var (slave, m, slaveThere) := Acknowledge(p.slave);
      (Pics(master, slave), slave.base | Code(m), if slaveThere then SlaveLine(m) else SlaveSpurious)
    else
      (Pics(master, p.slave), master.base | Code(n), if there then MasterLine(n) else MasterSpurious)
  }

  // ---------- lines, numbered through both chips ----------

  function WithRequest(p: Pics, line: nat, on: bool): Pics
    requires line < 16
  {
    if line < 8 then
      p.(master := p.master.(irr := if on then p.master.irr | Bit(line) else p.master.irr & !Bit(line)))
    else
      p.(slave := p.slave.(irr := if on then p.slave.irr | Bit(line - 8) else p.slave.irr & !Bit(line - 8)))
  }

  predicate Masked(p: Pics, line: nat)
    requires line < 16
  {
    if line < 8 then Has(p.master.imr, line) else Has(p.slave.imr, line - 8)
  }

  predicate Requested(p: Pics, line: nat)
    requires line < 16
  {
    if line < 8 then Has(p.master.irr, line) else Has(p.slave.irr, line - 8)
  }

  predicate OpenOn(c: Chip, n: nat)
    requires n < 8
  {
    Has(c.irr, n) && !Has(c.imr, n)
  }

  predicate Open(p: Pics, line: nat)
    requires line < 16
  {
    if line < 8 then OpenOn(p.master, line) else OpenOn(p.slave, line - 8)
  }

  /** Among the lines from `first` on, this is the first that is requested and not masked. */
  predicate Leads(p: Pics, first: nat, line: nat)
    requires line < 16
  {
    Open(p, line) && forall k: nat | first <= k < line :: !Open(p, k)
  }

  /** The line that fixed priority serves next: on the slave, through the cascade line. */
  predicate Foremost(p: Pics, line: nat)
    requires line < 16
  {
    if line < 8 then Leads(p, 0, line) else Leads(p, 0, 2) && Leads(p, 8, line)
  }

  /** The wire from the slave's output to line 2 of the master: it asks while the slave has a
      request to deliver. */
  predicate Wired(p: Pics) {
    Deliverable(p.slave) ==> Requested(p, 2)
  }

  /** The wire's state reaches the master. */
  function Settled(p: Pics): Pics {
    if Deliverable(p.slave) then WithRequest(p, 2, true) else p
  }

  function WithMasks(p: Pics, master: bv8, slave: bv8): Pics {
    p.(master := p.master.(imr := master), slave := p.slave.(imr := slave))
  }

  /** Initialised as pic_init leaves the chips, whatever the masks, requests and services: edge
      triggered, in 8086 mode with ends of interrupt by command, unbuffered, and not in the special
      fully nested mode. */
  predicate Initialised(p: Pics) {
    && p.master.expecting == Ready && p.slave.expecting == Ready
    && !p.master.levels && !p.slave.levels && p.master.mode == p.slave.mode == 0x01
    && p.master.base == 32 && p.slave.base == 40
    && p.master.cascade == 0x04 && p.slave.cascade == 0x02
  }

  // ---------- the driver ----------

  const PIC1_CMD: bv16 := 0x20
  const PIC1_DATA: bv16 := 0x21
  const PIC2_CMD: bv16 := 0xA0
  const PIC2_DATA: bv16 := 0xA1
  const IRQ_BASE: bv8 := 32
  const IRQ_INTERCONNECT: bv8 := 2

  lemma Apart(r: bv8, a: bv8, b: bv8)
    requires a & b == 0
    ensures (r | a) & b == r & b && (r & !a) & b == r & b
  {
  }

  lemma Same(r: bv8, a: bv8)
    ensures (r | a) & a == a && (r & !a) & a == 0
  {
  }

  lemma DistinctBits(n: nat, m: nat)
    requires n < 8 && m < 8
    ensures Bit(n) != 0 && (Bit(n) == Bit(m) <==> n == m) && (n != m ==> Bit(n) & Bit(m) == 0)
  {
  }

  lemma OtherLineClosed(r: bv8, n: nat, m: nat)
    requires n < 8 && m < 8 && n != m
    ensures Has(r | Bit(n), m) == Has(r, m)
  {
    DistinctBits(n, m);
    Apart(r, Bit(n), Bit(m));
  }

  lemma OtherLineOpened(r: bv8, n: nat, m: nat)
    requires n < 8 && m < 8 && n != m
    ensures Has(r & !Bit(n), m) == Has(r, m)
  {
    DistinctBits(n, m);
    Apart(r, Bit(n), Bit(m));
  }

  lemma ThisLine(r: bv8, n: nat)
    requires n < 8
    ensures Has(r | Bit(n), n) && !Has(r & !Bit(n), n)
  {
    var a := Bit(n);
    assert a != 0 by { DistinctBits(n, n); }
    Same(r, a);
  }

  /** Setting or clearing a line changes that line and no other. */
  lemma OneBit(r: bv8, n: nat, m: nat)
    requires n < 8 && m < 8
    ensures Has(r | Bit(n), m) <==> m == n || Has(r, m)
    ensures Has(r & !Bit(n), m) <==> m != n && Has(r, m)
  {
    if m == n {
      ThisLine(r, n);
    } else {
      OtherLineClosed(r, n, m);
      OtherLineOpened(r, n, m);
    }
  }

  /** The ports of a PC: 0x20 and 0x21 are the master, 0xA0 and 0xA1 the slave. */
  function PortWrite(p: Pics, port: bv16, v: bv8): Pics {
    match port
    case 0x20 => p.(master := WriteCommand(p.master, v))
    case 0x21 => p.(master := WriteData(p.master, v))
    case 0xA0 => p.(slave := WriteCommand(p.slave, v))
    case 0xA1 => p.(slave := WriteData(p.slave, v))
    case _ => p
  }

  /** A call of pic_enable_line or pic_disable_line. */
  datatype LineCall = Enable(num: nat) | Disable(num: nat)

  /** The call changes the mask of the line it names, and nothing else of either chip.  Numbers
      from 16 up name no line: the shifted bit falls off the byte written. */
  ghost predicate CallDone(p: Pics, call: LineCall, p': Pics) {
    && p' == WithMasks(p, p'.master.imr, p'.slave.imr)
    && forall line: nat | line < 16 ::
         Masked(p', line) <==> if line == call.num then call.Disable? else Masked(p, line)
  }

  /** The state right after pic_init: only the cascade line is open. */
  ghost predicate JustInitialised(p: Pics) {
    Initialised(p) && forall line: nat | line < 16 :: Masked(p, line) <==> line != 2
  }

  lemma FreshMasks(p: Pics)
    requires Initialised(p) && p.master.imr == 0xFB && p.slave.imr == 0xFF
    ensures JustInitialised(p)
  {
    forall line: nat | line < 16
      ensures Masked(p, line) <==> line != 2
    {
    }
  }

  lemma ShiftIsBit(k: nat)
    requires k < 8
    ensures (1 as bv32) << k == Bit(k) as bv32
  {
  }

  /** Register r' is r with line n opened or closed; n from 8 up names no line. */
  ghost predicate LineSet(r: bv8, n: nat, closed: bool, r': bv8) {
    forall m: nat | m < 8 :: Has(r', m) <==> if m == n then closed else Has(r, m)
  }

  lemma LineIsSet(r: bv8, n: nat)
    ensures LineSet(r, n, false, if n < 8 then r & !Bit(n) else r)
    ensures LineSet(r, n, true, if n < 8 then r | Bit(n) else r)
  {
    if n < 8 {
      forall m: nat | m < 8
        ensures Has(r & !Bit(n), m) <==> if m == n then false else Has(r, m)
        ensures Has(r | Bit(n), m) <==> if m == n then true else Has(r, m)
      {
        OneBit(r, n, m);
      }
    }
  }

  lemma HighShift(k: nat)
    requires 8 <= k < 31
    ensures ((1 as bv32) << k) & 0xFF == 0
  {
  }

  lemma LowByte(imr: bv8, b: bv8)
    ensures (((imr as bv32) & !(b as bv32)) & 0xFF) as bv8 == imr & !b
    ensures (((imr as bv32) | (b as bv32)) & 0xFF) as bv8 == imr | b
  {
  }

  lemma LowByteKept(imr: bv8, s: bv32)
    requires s & 0xFF == 0
    ensures (((imr as bv32) & !s) & 0xFF) as bv8 == imr
    ensures (((imr as bv32) | s) & 0xFF) as bv8 == imr
  {
  }

  lemma ShiftedLine(imr: bv8, k: nat)
    requires k < 31
    ensures (((imr as bv32) & !((1 as bv32) << k)) & 0xFF) as bv8 == if k < 8 then imr & !Bit(k) else imr
    ensures (((imr as bv32) | ((1 as bv32) << k)) & 0xFF) as bv8 == if k < 8 then imr | Bit(k) else imr
  {
    if k < 8 {
      ShiftIsBit(k);
      LowByte(imr, Bit(k));
    } else {
      HighShift(k);
      LowByteKept(imr, (1 as bv32) << k);
    }
  }

  /** The byte that outb writes for `imr & ~(1 << k)`, an int of 32 bits. */
  method Opened(imr: bv8, k: nat) returns (v: bv8)
    requires k < 31
    ensures LineSet(imr, k, false, v)
  {
    ShiftedLine(imr, k);
    LineIsSet(imr, k);
    v := (((imr as bv32) & !((1 as bv32) << k)) & 0xFF) as bv8;
  }

  /** The byte that outb writes for `imr | (1 << k)`. */
  method Closed(imr: bv8, k: nat) returns (v: bv8)
    requires k < 31
    ensures LineSet(imr, k, true, v)
  {
    ShiftedLine(imr, k);
    LineIsSet(imr, k);
    v := (((imr as bv32) | ((1 as bv32) << k)) & 0xFF) as bv8;
  }

  lemma MasterCallDone(p: Pics, imr: bv8, call: LineCall)
    requires call.num < 8 && LineSet(p.master.imr, call.num, call.Disable?, imr)
    ensures CallDone(p, call, WithMasks(p, imr, p.slave.imr))
  {
  }

  lemma SlaveCallDone(p: Pics, imr: bv8, call: LineCall)
    requires 8 <= call.num && LineSet(p.slave.imr, call.num - 8, call.Disable?, imr)
    ensures CallDone(p, call, WithMasks(p, p.master.imr, imr))
  {
  }

  class Driver {
    var pics: Pics

    method Outb(port: bv16, v: bv8)
      modifies this
      ensures pics == PortWrite(old(pics), port, v)
    {
      pics := PortWrite(pics, port, v);
    }

    /** The data ports read back the mask register. */
    method Inb(port: bv16) returns (v: bv8)
      requires port == 0x21 || port == 0xA1
      ensures v == if port == 0x21 then pics.master.imr else pics.slave.imr
    {
      v := if port == 0x21 then pics.master.imr else pics.slave.imr;
    }

    /** Whatever state the chips were in, and with the two initialisation sequences interleaved. */
    method PicInit()
      modifies this
      ensures JustInitialised(pics) && pics.master.irr == 0 && pics.slave.irr == 0
      ensures pics.master.isr == old(pics.master.isr) && pics.slave.isr == old(pics.slave.isr)
    {
      Outb(PIC1_CMD, 0x11);
      Outb(PIC2_CMD, 0x11);

      Outb(PIC1_DATA, IRQ_BASE);
      Outb(PIC2_DATA, IRQ_BASE + 8);

      Outb(PIC1_DATA, 1 << IRQ_INTERCONNECT);
      Outb(PIC2_DATA, IRQ_INTERCONNECT);

      Outb(PIC1_DATA, 0x1);
      Outb(PIC2_DATA, 0x1);

      Outb(PIC1_DATA, 0xFF ^ (1 << IRQ_INTERCONNECT));
      Outb(PIC2_DATA, 0xFF);
      FreshMasks(pics);
    }

    /** num is a uint8_t.  From 39 up C leaves `1 << (num - 8)` undefined, an int having 31 value
        bits: then any byte may be written. */
    method PicEnableLine(num: nat)
      requires Initialised(pics) && num < 0x100
      modifies this
      ensures Initialised(pics) && pics == WithMasks(old(pics), pics.master.imr, pics.slave.imr)
      ensures num < 39 ==> CallDone(old(pics), Enable(num), pics)
      ensures num >= 8 ==> pics.master == old(pics).master
    {
      ghost var p := pics;
      if num < 8 {
        var imr := Inb(PIC1_DATA);
        var v := Opened(imr, num);
        MasterCallDone(p, v, Enable(num));
        Outb(PIC1_DATA, v);
      } else {
        var imr := Inb(PIC2_DATA);
        var v: bv8 := *;
        if num < 39 {
          v := Opened(imr, num - 8);
          SlaveCallDone(p, v, Enable(num));
        }
        Outb(PIC2_DATA, v);
      }
    }

    method PicDisableLine(num: nat)
      requires Initialised(pics) && num < 0x100
      modifies this
      ensures Initialised(pics) && pics == WithMasks(old(pics), pics.master.imr, pics.slave.imr)
      ensures num < 39 ==> CallDone(old(pics), Disable(num), pics)
      ensures num >= 8 ==> pics.master == old(pics).master
    {
      ghost var p := pics;
      if num < 8 {
        var imr := Inb(PIC1_DATA);
        var v := Closed(imr, num);
        MasterCallDone(p, v, Disable(num));
        Outb(PIC1_DATA, v);
      } else {
        var imr := Inb(PIC2_DATA);
        var v: bv8 := *;
        if num < 39 {
          v := Closed(imr, num - 8);
          SlaveCallDone(p, v, Disable(num));
        }
        Outb(PIC2_DATA, v);
      }
    }
  }

  // ---------- every sequence of calls ----------

  /** What the calls ask for: the last call that names a line decides, and a line never named is
      closed, except the cascade line. */
  function Wanted(calls: seq<LineCall>, line: nat): bool {
    if calls == [] then line == 2
    else
      var last := calls[|calls| - 1];
      if last.num == line then last.Enable? else Wanted(calls[..|calls| - 1], line)
  }

  /** The masks are those that the calls ask for. */
  ghost predicate MasksWanted(p: Pics, calls: seq<LineCall>) {
    forall line: nat | line < 16 :: Masked(p, line) <==> !Wanted(calls, line)
  }

  /** After pic_init and any calls, a line is open exactly when that is what was asked for. */
  lemma {:induction false} MasksAreLastCalls(ps: seq<Pics>, calls: seq<LineCall>)
    requires |ps| == |calls| + 1 && JustInitialised(ps[0])
    requires forall i: nat | i < |calls| :: CallDone(ps[i], calls[i], ps[i + 1])
    ensures Initialised(ps[|calls|]) && MasksWanted(ps[|calls|], calls)
    decreases |calls|
  {
    var n := |calls|;
    if n > 0 {
      MasksAreLastCalls(ps[..n], calls[..n - 1]);
      assert CallDone(ps[n - 1], calls[n - 1], ps[n]);
    }
  }

  // ---------- what is taken ----------

  lemma FirstOfBit(n: nat)
    requires n < 8
    ensures First(Bit(n)) == n && First(Bit(n) & !Bit(n)) == 8
  {
    Same(Bit(n), Bit(n));
  }

  lemma OneBitOnly(n: nat)
    requires n < 8
    ensures Bit(n) != 0 && Bit(n) & (Bit(n) - 1) == 0
  {
  }

  lemma AndNotBit(a: bv8, b: bv8, bit: bv8)
    requires bit != 0 && bit & (bit - 1) == 0
    ensures (a & !b) & bit != 0 <==> a & bit != 0 && b & bit == 0
  {
  }

  lemma AndNot(a: bv8, b: bv8, n: nat)
    requires n < 8
    ensures Has(a & !b, n) <==> Has(a, n) && !Has(b, n)
  {
    var bit := Bit(n);
    OneBitOnly(n);
    AndNotBit(a, b, bit);
  }

  lemma FirstIs(r: bv8, n: nat)
    requires n < 8
    ensures First(r) == n <==> Has(r, n) && forall k: nat | k < n :: !Has(r, k)
  {
  }

  /** What a chip would deliver first is its first open line. */
  lemma FirstOpen(c: Chip, n: nat)
    requires n < 8
    ensures First(c.irr & !c.imr) == n <==> OpenOn(c, n) && forall k: nat | k < n :: !OpenOn(c, k)
  {
    var open := c.irr & !c.imr;
    FirstIs(open, n);
    forall k: nat | k <= n
      ensures Has(open, k) <==> OpenOn(c, k)
    {
      AndNot(c.irr, c.imr, k);
    }
    if First(open) == n {
      forall k: nat | k < n ensures !OpenOn(c, k) { assert !Has(open, k); }
    }
    if OpenOn(c, n) && forall k: nat | k < n :: !OpenOn(c, k) {
      forall k: nat | k < n ensures !Has(open, k) { assert !OpenOn(c, k); }
    }
  }

  lemma MasterLeads(p: Pics, n: nat)
    requires n < 8
    ensures Leads(p, 0, n) <==> First(p.master.irr & !p.master.imr) == n
  {
    FirstOpen(p.master, n);
    assert forall k: nat | k < n :: Open(p, k) <==> OpenOn(p.master, k);
  }

  lemma SlaveLeads(p: Pics, m: nat)
    requires m < 8
    ensures Leads(p, 8, 8 + m) <==> First(p.slave.irr & !p.slave.imr) == m
  {
    FirstOpen(p.slave, m);
    if Leads(p, 8, 8 + m) {
      forall k: nat | k < m ensures !OpenOn(p.slave, k) { assert !Open(p, 8 + k); }
    }
  }

  lemma CodeValue(n: nat)
    requires n < 8
    ensures (32 | Code(n)) as nat == 32 + n && (40 | Code(n)) as nat == 40 + n
  {
  }

  /** What an acknowledge cycle takes when nothing is in service: i and j are the first open lines
      of master and slave, or 8. */
  function Choice(i: nat, j: nat): Taken {
    if i == 8 then MasterSpurious else if i != 2 then MasterLine(i)
    else if j == 8 then SlaveSpurious else SlaveLine(j)
  }

  lemma AcknowledgeQuiet(c: Chip)
    requires c.isr == 0
    ensures var i := First(c.irr & !c.imr);
            Acknowledge(c).1 == (if i < 8 then i else 7) && (Acknowledge(c).2 <==> i < 8)
  {
    assert First(0) == 8;
  }

  lemma TakenIsChoice(p: Pics)
    requires p.master.isr == 0 && p.slave.isr == 0
    ensures AcknowledgePair(p).2 == Choice(First(p.master.irr & !p.master.imr), First(p.slave.irr & !p.slave.imr))
  {
    AcknowledgeQuiet(p.master);
    AcknowledgeQuiet(p.slave);
  }

  lemma VectorOfTaken(p: Pics)
    requires Initialised(p)
    ensures var (_, vector, taken) := AcknowledgePair(p);
            match taken
            case MasterLine(n) => n < 8 && vector == 32 | Code(n)
            case SlaveLine(m) => m < 8 && vector == 40 | Code(m)
            case _ => true
  {
  }

  /** With nothing in service, a master line other than the cascade is taken, with vector 32 + n,
      exactly when it is the first open line. */
  lemma MasterLineTakenIff(p: Pics, n: nat)
    requires Initialised(p) && n < 8 && n != 2 && p.master.isr == 0 && p.slave.isr == 0
    ensures var (_, vector, taken) := AcknowledgePair(p);
            && (taken == MasterLine(n) <==> Foremost(p, n))
            && (taken == MasterLine(n) ==> vector as nat == 32 + n)
  {
    TakenIsChoice(p);
    VectorOfTaken(p);
    MasterLeads(p, n);
    CodeValue(n);
  }

  /** A slave line is taken, with vector 40 + m, exactly when it is the first open line of the slave
      and the cascade line is the first of the master. */
  lemma SlaveLineTakenIff(p: Pics, m: nat)
    requires Initialised(p) && m < 8 && p.master.isr == 0 && p.slave.isr == 0
    ensures var (_, vector, taken) := AcknowledgePair(p);
            && (taken == SlaveLine(m) <==> Foremost(p, 8 + m))
            && (taken == SlaveLine(m) ==> vector as nat == 40 + m)
  {
    TakenIsChoice(p);
    VectorOfTaken(p);
    MasterLeads(p, 2);
    SlaveLeads(p, m);
    CodeValue(m);
  }

  function TakenBy(line: nat): Taken { if line < 8 then MasterLine(line) else SlaveLine(line - 8) }

  /** Whatever else asks, masked or not: the foremost line and no other is taken, with vector
      32 + line. */
  lemma LineTakenIff(p: Pics, line: nat)
    requires Initialised(p) && line < 16 && line != 2 && p.master.isr == 0 && p.slave.isr == 0
    ensures var (_, vector, taken) := AcknowledgePair(p);
            && (taken == TakenBy(line) <==> Foremost(p, line))
            && (taken == TakenBy(line) ==> vector as nat == 32 + line)
  {
    if line < 8 { MasterLineTakenIff(p, line); } else { SlaveLineTakenIff(p, line - 8); }
  }

  lemma SettledIsWired(p: Pics)
    ensures Wired(Settled(p)) && Settled(p).slave == p.slave
    ensures Settled(p).master == p.master.(irr := Settled(p).master.irr)
  {
    Same(p.master.irr, Bit(2));
  }

  /** With the wire in place, a slave line needs an open cascade line and no open line before it. */
  lemma WiredForemost(p: Pics, m: nat)
    requires Wired(p) && m < 8 && p.slave.isr == 0
    ensures Foremost(p, 8 + m) <==> Leads(p, 8, 8 + m) && !Masked(p, 2) && !Open(p, 0) && !Open(p, 1)
  {
    SlaveLeads(p, m);
    assert First(0) == 8;
    if Leads(p, 8, 8 + m) && !Masked(p, 2) && !Open(p, 0) && !Open(p, 1) {
      assert Open(p, 2);
      forall k: nat | k < 2
        ensures !Open(p, k)
      {
        assert k == 0 || k == 1;
      }
    }
    if Foremost(p, 8 + m) {
      assert !Open(p, 0) && !Open(p, 1);
    }
  }

  // ---------- what the calls ask for, and what is taken ----------

  predicate Asks(p: Pics, calls: seq<LineCall>, line: nat)
    requires line < 16
  {
    Requested(p, line) && Wanted(calls, line)
  }

  predicate LeadsWanted(p: Pics, calls: seq<LineCall>, first: nat, line: nat)
    requires line < 16
  {
    Asks(p, calls, line) && forall k: nat | first <= k < line :: !Asks(p, calls, k)
  }

  /** Foremost, by requests and calls instead of mask registers; for a slave line the request on the
      cascade line follows from the wire. */
  predicate ForemostWanted(p: Pics, calls: seq<LineCall>, line: nat)
    requires line < 16
  {
    if line < 8 then LeadsWanted(p, calls, 0, line)
    else LeadsWanted(p, calls, 8, line) && Wanted(calls, 2) && !Asks(p, calls, 0) && !Asks(p, calls, 1)
  }

  lemma LeadsIsWanted(p: Pics, calls: seq<LineCall>, first: nat, line: nat)
    requires line < 16 && MasksWanted(p, calls)
    ensures Leads(p, first, line) <==> LeadsWanted(p, calls, first, line)
  {
    forall k: nat | k < 16
      ensures Open(p, k) <==> Asks(p, calls, k)
    {
      assert Masked(p, k) <==> !Wanted(calls, k);
    }
  }

  lemma ForemostIsWanted(p: Pics, calls: seq<LineCall>, line: nat)
    requires line < 16 && MasksWanted(p, calls) && Wired(p) && p.slave.isr == 0
    ensures Foremost(p, line) <==> ForemostWanted(p, calls, line)
  {
    LeadsIsWanted(p, calls, if line < 8 then 0 else 8, line);
    if line >= 8 {
      WiredForemost(p, line - 8);
      assert Masked(p, 2) <==> !Wanted(calls, 2);
      assert Masked(p, 0) <==> !Wanted(calls, 0);
      assert Masked(p, 1) <==> !Wanted(calls, 1);
    }
  }

  lemma {:induction false} CascadeStaysOpen(calls: seq<LineCall>)
    requires forall call | call in calls :: call.num != 2
    ensures Wanted(calls, 2)
    decreases |calls|
  {
    if calls != [] {
      assert calls[|calls| - 1] in calls;
      CascadeStaysOpen(calls[..|calls| - 1]);
    }
  }

  /** After pic_init and calls that never name the cascade line, a slave line is taken exactly when
      it asks, the last call that names it enabled it, and no line before it does both. */
  lemma SlaveLineTakenIffWanted(ps: seq<Pics>, calls: seq<LineCall>, p: Pics, m: nat)
    requires |ps| == |calls| + 1 && JustInitialised(ps[0])
    requires forall i: nat | i < |calls| :: CallDone(ps[i], calls[i], ps[i + 1])
    requires forall call | call in calls :: call.num != 2
    requires Initialised(p) && p.master.imr == ps[|calls|].master.imr && p.slave.imr == ps[|calls|].slave.imr
    requires m < 8 && Wired(p) && p.master.isr == 0 && p.slave.isr == 0
    ensures AcknowledgePair(p).2 == SlaveLine(m)
            <==> LeadsWanted(p, calls, 8, 8 + m) && !Asks(p, calls, 0) && !Asks(p, calls, 1)
  {
    MasksAreLastCalls(ps, calls);
    CascadeStaysOpen(calls);
    forall line: nat | line < 16
      ensures Masked(p, line) <==> !Wanted(calls, line)
    {
      assert Masked(p, line) == Masked(ps[|calls|], line);
    }
    SlaveLineTakenIff(p, m);
    WiredForemost(p, m);
    LeadsIsWanted(p, calls, 8, 8 + m);
  }

  // ---------- a call as a step ----------

  /** The register with a line opened or closed; numbers from 8 up name no line. */
  function WithLine(imr: bv8, n: nat, closed: bool): bv8 {
    if n >= 8 then imr else if closed then imr | Bit(n) else imr & !Bit(n)
  }

  /** The chips after a call of pic_enable_line or pic_disable_line. */
  function AfterCall(p: Pics, call: LineCall): Pics {
    if call.num < 8 then WithMasks(p, WithLine(p.master.imr, call.num, call.Disable?), p.slave.imr)
    else WithMasks(p, p.master.imr, WithLine(p.slave.imr, call.num - 8, call.Disable?))
  }

  lemma AfterCallDone(p: Pics, call: LineCall)
    ensures CallDone(p, call, AfterCall(p, call))
  {
    if call.num < 8 {
      LineIsSet(p.master.imr, call.num);
      MasterCallDone(p, WithLine(p.master.imr, call.num, call.Disable?), call);
    } else {
      LineIsSet(p.slave.imr, call.num - 8);
      SlaveCallDone(p, WithLine(p.slave.imr, call.num - 8, call.Disable?), call);
    }
  }

  /** One more call: the masks stay those that the calls ask for. */
  lemma CallWanted(p: Pics, calls: seq<LineCall>, call: LineCall, p': Pics)
    requires MasksWanted(p, calls) && CallDone(p, call, p')
    ensures MasksWanted(p', calls + [call])
  {
    assert (calls + [call])[..|calls|] == calls;
    forall line: nat | line < 16
      ensures Masked(p', line) <==> !Wanted(calls + [call], line)
    {
      assert Masked(p, line) <==> !Wanted(calls, line);
    }
  }

  // ---------- what requests, masks and services do to each other ----------

  /** Neither the initialisation nor what is in service differs. */
  predicate SameService(p: Pics, p': Pics) {
    (Initialised(p) ==> Initialised(p')) && p'.master.isr == p.master.isr && p'.slave.isr == p.slave.isr
  }

  predicate SameMasks(p: Pics, p': Pics) {
    p'.master.imr == p.master.imr && p'.slave.imr == p.slave.imr
  }

  lemma RequestKeeps(p: Pics, line: nat, on: bool)
    requires line < 16
    ensures SameService(p, WithRequest(p, line, on)) && SameMasks(p, WithRequest(p, line, on))
  {
  }

  lemma CallKeeps(p: Pics, call: LineCall)
    ensures SameService(p, AfterCall(p, call))
  {
  }

  lemma MaskWritesKeep(p: Pics, master: bv8, slave: bv8)
    requires p.master.expecting == Ready && p.slave.expecting == Ready
    ensures SameService(p, PortWrite(PortWrite(p, PIC1_DATA, master), PIC2_DATA, slave))
  {
  }

  lemma AcknowledgeKeepsMasks(p: Pics)
    ensures SameMasks(p, AcknowledgePair(p).0)
  {
  }

  lemma EoiKeepsMasks(p: Pics, port: bv16)
    requires port == PIC1_CMD || port == PIC2_CMD
    ensures SameMasks(p, PortWrite(p, port, 0x20))
  {
  }

  lemma SettledKeeps(p: Pics)
    ensures SameService(p, Settled(p)) && SameMasks(p, Settled(p))
  {
    RequestKeeps(p, 2, true);
  }

  // ---------- which lines ask ----------

  lemma MasterRequestSet(p: Pics, n: nat, on: bool, k: nat)
    requires n < 8 && k < 8
    ensures Has(WithRequest(p, n, on).master.irr, k) <==> if k == n then on else Has(p.master.irr, k)
  {
    OneBit(p.master.irr, n, k);
  }

  lemma SlaveRequestSet(p: Pics, n: nat, on: bool, k: nat)
    requires n < 8 && k < 8
    ensures Has(WithRequest(p, 8 + n, on).slave.irr, k) <==> if k == n then on else Has(p.slave.irr, k)
  {
    OneBit(p.slave.irr, n, k);
  }

  lemma RequestSet(p: Pics, line: nat, on: bool, k: nat)
    requires line < 16 && k < 16
    ensures Requested(WithRequest(p, line, on), k) <==> if k == line then on else Requested(p, k)
  {
    if line < 8 && k < 8 { MasterRequestSet(p, line, on, k); }
    if line >= 8 && k >= 8 { SlaveRequestSet(p, line - 8, on, k - 8); }
  }

  predicate SameRequests(p: Pics, p': Pics) {
    p'.master.irr == p.master.irr && p'.slave.irr == p.slave.irr
  }

  lemma EoiKeepsRequests(c: Chip, irr: bv8)
    ensures WriteCommand(c.(irr := irr), 0x20) == WriteCommand(c, 0x20).(irr := irr)
    ensures WriteCommand(c, 0x20).irr == c.irr
  {
  }

  lemma EoiSameRequests(p: Pics, port: bv16)
    requires port == PIC1_CMD || port == PIC2_CMD
    ensures SameRequests(p, PortWrite(p, port, 0x20))
  {
    EoiKeepsRequests(p.master, p.master.irr);
    EoiKeepsRequests(p.slave, p.slave.irr);
  }

  /** The acknowledge cycle of one chip takes the line's request away, and no other. */
  lemma AcknowledgeClears(c: Chip, k: nat)
    requires k < 8
    ensures var (d, n, there) := Acknowledge(c);
            Has(d.irr, k) <==> Has(c.irr, k) && !(there && n == k)
  {
    var (d, n, there) := Acknowledge(c);
    if there { OneBit(c.irr, n, k); }
  }

  /** The cycle takes away the request it serves, and no other. */
  lemma AcknowledgeRequests(p: Pics, line: nat)
    requires line < 16 && line != 2
    ensures var (q, _, taken) := AcknowledgePair(p);
            Requested(q, line) <==> Requested(p, line) && taken != TakenBy(line)
  {
    if line < 8 { AcknowledgeClears(p.master, line); } else { AcknowledgeClears(p.slave, line - 8); }
  }

  lemma OrTwice(r: bv8, b: bv8)
    ensures r | b | b == r | b
  {
  }

  lemma SettledMasters(p: Pics, c: Chip, d: Chip)
    requires d == c || (Deliverable(p.slave) && d == c.(irr := c.irr | Bit(2)))
    ensures Settled(p.(master := d)) == Settled(p.(master := c))
  {
    OrTwice(c.irr, Bit(2));
  }

  lemma SettledMaster(p: Pics)
    ensures Settled(p) == if Deliverable(p.slave) then p.(master := p.master.(irr := p.master.irr | Bit(2))) else p
  {
  }

  lemma EoiCommutes(p: Pics, irr: bv8)
    ensures var q := PortWrite(p, PIC1_CMD, 0x20);
            && PortWrite(p.(master := p.master.(irr := irr)), PIC1_CMD, 0x20) == q.(master := q.master.(irr := irr))
            && q.master.irr == p.master.irr && q.slave == p.slave
  {
    EoiKeepsRequests(p.master, irr);
  }

  lemma SettledRaised(q: Pics, irr: bv8)
    requires Deliverable(q.slave) && irr == q.master.irr | Bit(2)
    ensures Settled(q.(master := q.master.(irr := irr))) == Settled(q)
  {
    SettledMasters(q, q.master, q.master.(irr := irr));
    assert q.(master := q.master) == q;
  }

  /** The wire does not matter to the master's end of interrupt. */
  lemma EoiSettled(p: Pics, p1: Pics, q: Pics, q1: Pics)
    requires p1 == Settled(p) && q == PortWrite(p, PIC1_CMD, 0x20) && q1 == PortWrite(p1, PIC1_CMD, 0x20)
    ensures Settled(q1) == Settled(q)
  {
    SettledMaster(p);
    if Deliverable(p.slave) {
      var irr := p.master.irr | Bit(2);
      EoiCommutes(p, irr);
      SettledRaised(q, irr);
    }
  }
}
