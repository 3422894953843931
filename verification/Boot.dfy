/** From the boot loader's hand-over to paging with a flat GDT: entry.s, paging.c and the GDT half
    of tables.c, run on the machine. */
module Boot {
  import opened Bits
  import opened X86
  import opened Paging
  import opened Machine

  const KERNEL_BASE: U32 := 0xC000_0000

  /** Where the linker puts .setup, and so fake_gdt: at its load address, not in the high half. */
  const FAKE_GDT: U32 := 0x10_0000

  const FAKE: Segment := Segment(0x4000_0000, 0xFFFF_FFFF, true)
  const FLAT: Segment := Segment(0, 0xFFFF_FFFF, true)

  predicate InKernel(v: int) { KERNEL_BASE <= v < KERNEL_BASE + 0x40_0000 }

  /** The physical address of a kernel symbol. */
  function Real(v: int): U32
    requires InKernel(v)
  {
    v - KERNEL_BASE
  }

  /** All six segment registers hold s. */
  ghost predicate AllSegments(c: Cpu, s: Segment) {
    forall r: SegReg :: r in c.segment && c.segment[r] == s
  }

  /** Every kernel address reaches its own physical byte, through every segment register. */
  ghost predicate KernelReached(m: seq<U32>, c: Cpu)
    requires |m| == WORDS
  {
    forall r: SegReg, v: U32 | InKernel(v) :: r in c.segment && Reach(m, c, r, v) == Some(Real(v))
  }

  // ---------- the three phases ----------

  /** Phase 1: the fake GDT's base, no paging. */
  ghost predicate FakeUnpaged(c: Cpu) { !c.paging && AllSegments(c, FAKE) }

  /** The tables are in use. */
  ghost predicate Paged(m: seq<U32>, c: Cpu, l: Layout, rs: seq<Request>) {
    && Sound(m, c) && Legal(l) && Tables(m, l, rs) && c.paging && c.cr3 == Cr3(l)
  }

  /** Directory entry 0 maps the first 4 MiB to itself, and entry 768 the kernel's addresses there. */
  lemma LinearTranslates(m: seq<U32>, paging: bool, cr3: U32, l: Layout, rs: seq<Request>, lin: U32)
    requires |m| == WORDS && (paging ==> Legal(l) && Tables(m, l, rs) && cr3 == Cr3(l))
    ensures lin < 0x40_0000 ==> Translate(m, paging, cr3, lin) == Some(lin)
    ensures paging && InKernel(lin) ==> Translate(m, paging, cr3, lin) == Some(Real(lin))
  {
    if paging { WalkIsExpected(m, l, rs, lin / 0x1000); }
  }

  /** The fake base makes a kernel address wrap around to its physical address. */
  lemma FakeWraps(v: U32)
    requires InKernel(v)
    ensures Add32(FAKE.base, v) == Real(v) && Add32(FLAT.base, v) == v
  {
  }

  lemma KernelTranslates(m: seq<U32>, paging: bool, cr3: U32, l: Layout, rs: seq<Request>, base: U32, v: U32)
    requires |m| == WORDS && InKernel(v)
    requires paging ==> Legal(l) && Tables(m, l, rs) && cr3 == Cr3(l)
    requires base == FAKE.base || (paging && base == FLAT.base)
    ensures Translate(m, paging, cr3, Add32(base, v)) == Some(Real(v))
  {
    FakeWraps(v);
    LinearTranslates(m, paging, cr3, l, rs, Add32(base, v));
  }

  lemma FakeUnpagedReaches(m: seq<U32>, c: Cpu)
    requires |m| == WORDS && FakeUnpaged(c)
    ensures KernelReached(m, c)
  {
  }

  lemma PagedReaches(m: seq<U32>, c: Cpu, l: Layout, rs: seq<Request>)
    requires Paged(m, c, l, rs) && (AllSegments(c, FAKE) || AllSegments(c, FLAT))
    ensures KernelReached(m, c)
  {
    forall r: SegReg, v: U32 | InKernel(v)
      ensures Reach(m, c, r, v) == Some(Real(v))
    {
      KernelTranslates(m, true, c.cr3, l, rs, c.segment[r].base, v);
      PhysicalIsTranslate(m, c, Add32(c.segment[r].base, v));
    }
  }

  lemma TablesKeepWalks(l: Layout, m: seq<U32>, m': seq<U32>, rs: seq<Request>, rs': seq<Request>)
    requires Legal(l) && |m| == |m'| == WORDS && rs <= rs' && Tables(m, l, rs) && Tables(m', l, rs')
    ensures WalksKept(m, m', Cr3(l))
  {
    forall p: nat | p < 0x10_0000 && Walk(m, Cr3(l), p).Some?
      ensures Walk(m', Cr3(l), p) == Walk(m, Cr3(l), p)
    {
      WalkIsExpected(m, l, rs, p);
      WalkIsExpected(m', l, rs', p);
    }
  }

  // ---------- descriptors ----------

  /** The bytes gdt_set_gate leaves for a gate. */
  function GateBytes(base: U32, limit: U32, access: U8, gran: U8): Descriptor {
    Descriptor(limit % 0x100, limit / 0x100 % 0x100, base % 0x100, base / 0x100 % 0x100,
               base / 0x1_0000 % 0x100, access, limit / 0x1_0000 % 16 + gran / 16 * 16, base / 0x100_0000)
  }

  lemma BytesOfBase(x: U32)
    ensures x == Join(x % 0x100, x / 0x100 % 0x100, x / 0x1_0000 % 0x100, x / 0x100_0000)
  {
    var x1 := x / 0x100;
    var x2 := x1 / 0x100;
    assert x / 0x1_0000 == x2;
    assert x / 0x100_0000 == x2 / 0x100;
  }

  lemma LowTwentyBits(x: U32)
    ensures x % 0x10_0000 == x % 0x100 + 0x100 * (x / 0x100 % 0x100) + 0x1_0000 * (x / 0x1_0000 % 16)
  {
    var x1 := x / 0x100;
    var x2 := x1 / 0x100;
    assert x / 0x1_0000 == x2;
    assert x == x % 0x100 + 0x100 * (x1 % 0x100) + 0x1_0000 * (x2 % 16) + 0x10_0000 * (x2 / 16);
  }

  lemma Halves(low: nat, high: nat)
    requires low < 16 && high < 16
    ensures (low + high * 16) % 16 == low && (low + high * 16 >= 0x80 <==> high >= 8)
    ensures (low + high * 16) / 0x40 == high / 4
  {
  }

  lemma DecodeParts(d: Descriptor, nibble: nat, limit: nat, pages: bool, wide: bool)
    requires nibble == d.b6 % 16 && limit == d.b0 + 0x100 * d.b1 + 0x1_0000 * nibble && (pages <==> d.b6 >= 0x80)
    requires wide <==> d.b6 / 0x40 % 2 == 1
    ensures Decode(d) == Segment(Join(d.b2, d.b3, d.b4, d.b7), if pages then limit * 0x1000 + 0xFFF else limit, wide)
  {
  }

  /** The processor reads back the base and the low 20 bits of the limit, in bytes or in pages. */
  lemma DecodeGate(base: U32, limit: U32, access: U8, gran: U8)
    ensures Decode(GateBytes(base, limit, access, gran))
            == Segment(base, if gran >= 0x80 then limit % 0x10_0000 * 0x1000 + 0xFFF else limit % 0x10_0000,
                       gran / 0x40 % 2 == 1)
  {
    var nibble, high := limit / 0x1_0000 % 16, gran / 16;
    var d := GateBytes(base, limit, access, gran);
    Halves(nibble, high);
    LowTwentyBits(limit);
    assert high / 4 == gran / 0x40;
    DecodeParts(d, nibble, limit % 0x10_0000, gran >= 0x80, gran / 0x40 % 2 == 1);
    BytesOfBase(base);
  }

  // ---------- the image and the boot loader's state ----------

  /** The 30 bytes of .setup: limit and base of the fake GDT, then its three descriptors. */
  const SETUP: seq<U8> := [
    23, 0, 0x06, 0x00, 0x10, 0x00,
    0, 0, 0, 0, 0, 0, 0, 0,
    0xFF, 0xFF, 0, 0, 0, 0x9A, 0xCF, 0x40,
    0xFF, 0xFF, 0, 0, 0, 0x92, 0xCF, 0x40
  ]

  ghost predicate SetupLoaded(im: Image) {
    forall i: nat | i < 30 :: im(FAKE_GDT + i) == SETUP[i]
  }

  // ---------- what changes in memory ----------

  /** The images agree, except at the addresses in s. */
  ghost predicate SameBut(im: Image, im': Image, s: set<int>) {
    forall q: U32 | q !in s :: im'(q) == im(q)
  }

  /** The images agree outside the n bytes from pa on. */
  ghost predicate SameOutside(im: Image, im': Image, pa: int, n: nat) {
    forall q: U32 | q < pa || pa + n <= q :: im'(q) == im(q)
  }

  /** The images agree outside gdt[5] and p_gdt. */
  ghost predicate SameBesideGdt(im: Image, im': Image, gdt: int, pGdt: int) {
    forall q: U32 | (q < gdt || gdt + 40 <= q) && (q < pGdt || pGdt + 6 <= q) :: im'(q) == im(q)
  }

  /** The images agree, except for the accessed bits of the descriptors at two places. */
  ghost predicate Marked(im: Image, im': Image, code: int, data: int) {
    forall q: U32 :: im'(q) == if q == code + 5 || q == data + 5 then Accessed(im(q)) else im(q)
  }

  lemma GateAssembled(m0: Image, m1: Image, m2: Image, m3: Image, pa: U32,
                      base: U32, limit: U32, access: U8, gran: U8)
    requires pa + 8 <= 0x1_0000_0000
    requires m1(pa + 2) == base % 0x100 && m1(pa + 3) == base / 0x100 % 0x100
    requires m1(pa + 4) == base / 0x1_0000 % 0x100 && m1(pa + 7) == base / 0x100_0000
    requires SameBut(m0, m1, {pa + 2, pa + 3, pa + 4, pa + 7})
    requires m2(pa) == limit % 0x100 && m2(pa + 1) == limit / 0x100 % 0x100
    requires m2(pa + 6) == limit / 0x1_0000 % 16 + gran / 16 * 16
    requires SameBut(m1, m2, {pa, pa + 1, pa + 6})
    requires m3(pa + 5) == access && SameBut(m2, m3, {pa + 5})
    ensures DescriptorAt(m3, pa) == GateBytes(base, limit, access, gran)
    ensures SameOutside(m0, m3, pa, 8)
  {
  }

  // ---------- the tables ----------

  /** `physaddr | flags | 0x01`. */
  method EntryValue(physaddr: U32, flags: U16, ghost r: Request) returns (e: U32)
    requires physaddr == r.physical / 0x1000 * 0x1000 && flags == r.flags
    ensures e == EntryFor(r)
  {
    EntryExpression(r);
    e := Or(Or(physaddr, flags), 0x01);
  }

  /** `(MISC_PAGEDIR << 22) | (nMiscIndex << 12) | (physical & 0xFFF)`. */
  method PointerValue(n: U16, physical: U32) returns (v: U32)
    ensures v == Pointer(n, physical)
  {
    PointerExpression(n, physical);
    v := Or(Or(MISC_PAGEDIR * 0x40_0000, n * 0x1000), physical % 0x1000);
  }

  /** `p | 0x3` for a page-aligned p. */
  method KernelFlags(p: U32, ghost frame: nat) returns (e: U32)
    requires frame < 0x10_0000 && p == frame * 0x1000
    ensures e == KernelEntry(frame)
  {
    KernelEntryExpression(frame);
    e := Or(p, 0x3);
  }

  ghost predicate ResultsMatch(rs: seq<Request>, vs: seq<U32>) {
    |vs| == |rs| <= 1024 && forall i | 0 <= i < |vs| :: vs[i] == Pointer(i, rs[i].physical)
  }

  ghost predicate SameOutsideTables(l: Layout, m: seq<U32>, m': seq<U32>) {
    |m| == |m'| == WORDS && forall k: nat | k < WORDS && !InTables(l, k) :: m'[k] == m[k]
  }

  /** The first n entries of the three tables after n rounds of the loop. */
  ghost predicate Cleared(m: seq<U32>, l: Layout, n: nat)
    requires |m| == WORDS && Legal(l) && n <= 1024
  {
    forall j: nat | j < n ::
      Entry(m, l.low, j) == KernelEntry(j) && Entry(m, l.dir, j) == 0 && Entry(m, l.misc, j) == 0
  }

  lemma ClearStep(m0: seq<U32>, m: seq<U32>, m': seq<U32>, l: Layout, i: nat)
    requires Legal(l) && SameOutsideTables(l, m0, m) && i < 1024 && Cleared(m, l, i)
    requires m' == m[l.low * 1024 + i := KernelEntry(i)][l.dir * 1024 + i := 0][l.misc * 1024 + i := 0]
    ensures Cleared(m', l, i + 1) && SameOutsideTables(l, m0, m')
  {
    forall j: nat | j < i + 1
      ensures Entry(m', l.low, j) == KernelEntry(j) && Entry(m', l.dir, j) == 0 && Entry(m', l.misc, j) == 0
    {
      if j < i { assert Entry(m, l.low, j) == KernelEntry(j); }
    }
  }

  lemma DirectoryStep(m: seq<U32>, m': seq<U32>, l: Layout, low: U32, misc: U32)
    requires |m| == WORDS && Legal(l) && Cleared(m, l, 1024)
    requires low == KernelEntry(l.low) && misc == KernelEntry(l.misc)
    requires m' == m[l.dir * 1024 := low][l.dir * 1024 + 768 := low][l.dir * 1024 + 1023 := misc]
    ensures Tables(m', l, []) && SameOutsideTables(l, m, m')
  {
    ViewOfKernelEntry(l.low);
    ViewOfKernelEntry(l.misc);
    forall i: nat | i < 1024
      ensures Entry(m', l.low, i) == KernelEntry(i) && Entry(m', l.misc, i) == 0
      ensures Entry(m', l.dir, i) == if i == 0 || i == 768 then low else if i == 1023 then misc else 0
      ensures View(Entry(m', l.low, i)) == Pte(i, 3)
    {
      assert Entry(m, l.low, i) == KernelEntry(i);
      ViewOfKernelEntry(i);
    }
  }

  // ---------- segment loads ----------

  /** A descriptor that decodes to s and can be loaded into r. */
  ghost predicate Gives(d: Descriptor, r: SegReg, s: Segment) { Decode(d) == s && Admits(r, d.b5) }

  /** The descriptor for this selector is in the table, readable at pa, good for register r, clear of
      the page tables, and decodes to s. */
  ghost predicate Selects(m: seq<U32>, im: Image, c: Cpu, l: Layout, rs: seq<Request>,
                          r: SegReg, selector: U16, pa: U32, s: Segment)
    requires |m| == WORDS
  {
    && selector % 8 == 0 && selector != 0 && Fetchable(c, selector) && c.gdtBase < 0xFFFF_0000
    && Bytes(m, c.paging, c.cr3, c.gdtBase + selector, 8, pa) && Gives(DescriptorAt(im, pa), r, s)
    && (c.paging ==> Legal(l) && Tables(m, l, rs) && c.cr3 == Cr3(l) && !InTables(l, (pa + 5) / 4))
  }

  /** Nothing but segment registers and the TLB changed. */
  ghost predicate SameTables(c: Cpu, c': Cpu) { SameButTlb(c.(segment := c'.segment), c') }

  lemma BytesKept(m: seq<U32>, m': seq<U32>, paging: bool, cr3: U32, lin: U32, n: nat, pa: U32)
    requires |m| == |m'| == WORDS && (paging ==> WalksKept(m, m', cr3)) && Bytes(m, paging, cr3, lin, n, pa)
    ensures Bytes(m', paging, cr3, lin, n, pa)
  {
    forall a: U32 | lin <= a < lin + n
      ensures Translate(m', paging, cr3, a) == Some(pa + (a - lin))
    {
      assert Translate(m, paging, cr3, a) == Some(pa + (a - lin));
    }
  }

  /** A descriptor that the stack segment takes is good for every register but cs. */
  function Strictest(r: SegReg): SegReg { if r == CS then CS else SS }

  /** Setting an accessed bit changes no segment. */
  lemma StillGives(im: Image, im': Image, pa: nat, r: SegReg, s: Segment, marked: nat)
    requires pa + 8 <= 0x1_0000_0000 && Gives(DescriptorAt(im, pa), r, s) && Marked(im, im', marked, marked)
    requires marked == pa || marked + 8 <= pa || pa + 8 <= marked
    ensures Gives(DescriptorAt(im', pa), r, s)
  {
    var d := DescriptorAt(im, pa);
    AccessedKeeps(d.b5);
    assert DescriptorAt(im', pa) == d.(b5 := if marked == pa then Accessed(d.b5) else d.b5);
  }

  /** After a segment load from the descriptor at `marked`, a descriptor serves as before. */
  lemma StillSelects(m: seq<U32>, im: Image, c: Cpu, m': seq<U32>, im': Image, c': Cpu,
                     l: Layout, rs: seq<Request>, r: SegReg, selector: U16, pa: U32, s: Segment, marked: U32)
    requires |m| == |m'| == WORDS && Selects(m, im, c, l, rs, r, selector, pa, s) && SameTables(c, c')
    requires c.paging ==> Tables(m', l, rs) && WalksKept(m, m', c.cr3)
    requires Marked(im, im', marked, marked) && (marked == pa || marked + 8 <= pa || pa + 8 <= marked)
    ensures Selects(m', im', c', l, rs, r, selector, pa, s)
  {
    BytesKept(m, m', c.paging, c.cr3, c.gdtBase + selector, 8, pa);
    StillGives(im, im', pa, r, s, marked);
  }

  /** The accessed bit of a descriptor is clear of the page tables. */
  lemma MarkKeepsTables(m: seq<U32>, l: Layout, rs: seq<Request>, at: U32, b: U8)
    requires |m| == WORDS && Legal(l) && Tables(m, l, rs) && !InTables(l, at / 4)
    ensures Tables(PutByte(m, at, b), l, rs) && WalksKept(m, PutByte(m, at, b), Cr3(l))
  {
    var m' := PutByte(m, at, b);
    TablesKept(l, m, at / 4, m'[at / 4], rs);
    TablesKeepWalks(l, m, m', rs, rs);
  }

  method LoadMarked(mc: Machine, r: SegReg, ghost l: Layout, ghost rs: seq<Request>, selector: U16, ghost pa: U32,
                    ghost s: Segment)
    requires mc.Valid() && Selects(mc.ram[..], mc.image, mc.cpu, l, rs, Strictest(r), selector, pa, s)
    modifies mc, mc.ram
    ensures mc.Valid() && SameTables(old(mc.cpu), mc.cpu) && mc.cpu.segment == old(mc.cpu.segment)[r := s]
    ensures Marked(old(mc.image), mc.image, pa, pa)
    ensures mc.cpu.paging ==> Tables(mc.ram[..], l, rs) && WalksKept(old(mc.ram[..]), mc.ram[..], mc.cpu.cr3)
  {
    ghost var m: seq<U32>, cr3 := mc.ram[..], mc.cpu.cr3;
    ghost var m' := PutByte(m, pa + 5, Accessed(mc.image(pa + 5)));
    assert mc.cpu.paging ==> Tables(m', l, rs) && WalksKept(m, m', cr3) by {
      if mc.cpu.paging { MarkKeepsTables(m, l, rs, pa + 5, Accessed(mc.image(pa + 5))); }
    }
    var ok := mc.LoadSegment(r, selector, pa);
    assert mc.ram[..] == m';
  }

  /** One segment load from the descriptor at pa; this and another descriptor still serve. */
  method MovToSegment(mc: Machine, r: SegReg, ghost l: Layout, ghost rs: seq<Request>, selector: U16, ghost pa: U32,
                      ghost r': SegReg, ghost selector': U16, ghost pa': U32, ghost s: Segment)
    requires mc.Valid() && Selects(mc.ram[..], mc.image, mc.cpu, l, rs, Strictest(r), selector, pa, s)
    requires Selects(mc.ram[..], mc.image, mc.cpu, l, rs, r', selector', pa', s)
    requires pa == pa' || pa' + 8 <= pa || pa + 8 <= pa'
    modifies mc, mc.ram
    ensures mc.Valid() && SameTables(old(mc.cpu), mc.cpu) && mc.cpu.segment == old(mc.cpu.segment)[r := s]
    ensures Marked(old(mc.image), mc.image, pa, pa)
    ensures Selects(mc.ram[..], mc.image, mc.cpu, l, rs, Strictest(r), selector, pa, s)
    ensures Selects(mc.ram[..], mc.image, mc.cpu, l, rs, r', selector', pa', s)
  {
    ghost var m, im, c := mc.ram[..], mc.image, mc.cpu;
    LoadMarked(mc, r, l, rs, selector, pa, s);
    StillSelects(m, im, c, mc.ram[..], mc.image, mc.cpu, l, rs, Strictest(r), selector, pa, s, pa);
    StillSelects(m, im, c, mc.ram[..], mc.image, mc.cpu, l, rs, r', selector', pa', s, pa);
  }

  lemma MarkedAgain(im: Image, im': Image, im'': Image, code: nat, data: nat)
    requires Marked(im, im', data, data) && (Marked(im', im'', data, data) || Marked(im', im'', code, code))
    ensures Marked(im', im'', data, data) ==> Marked(im, im'', data, data)
    ensures Marked(im', im'', code, code) ==> Marked(im, im'', code, data)
  {
  }

  lemma SixLoads(g: map<SegReg, Segment>, g': map<SegReg, Segment>, s: Segment)
    requires g' == g[DS := s][ES := s][FS := s][GS := s][SS := s][CS := s]
    ensures forall r: SegReg :: r in g' && g'[r] == s
  {
    forall r: SegReg
      ensures r in g' && g'[r] == s
    {
      match r
      case CS => case DS => case ES => case FS => case GS => case SS =>
    }
  }

  /** The end of both _start and gdt_flush: selector 0x10 into ds, es, fs, gs and ss, and a far
      jump that loads 0x08 into cs. */
  method ReloadSegments(mc: Machine, ghost l: Layout, ghost rs: seq<Request>, ghost code: U32, ghost data: U32,
                        ghost s: Segment)
    requires mc.Valid() && data == code + 8
    requires Selects(mc.ram[..], mc.image, mc.cpu, l, rs, CS, 0x08, code, s)
    requires Selects(mc.ram[..], mc.image, mc.cpu, l, rs, SS, 0x10, data, s)
    modifies mc, mc.ram
    ensures mc.Valid() && SameTables(old(mc.cpu), mc.cpu) && AllSegments(mc.cpu, s)
    ensures mc.cpu.paging ==> Tables(mc.ram[..], l, rs)
    ensures Marked(old(mc.image), mc.image, code, data)
  {
    ghost var im, c := mc.image, mc.cpu;
    MovToSegment(mc, DS, l, rs, 0x10, data, CS, 0x08, code, s);
    ghost var im1 := mc.image;
    MovToSegment(mc, ES, l, rs, 0x10, data, CS, 0x08, code, s);
    MarkedAgain(im, im1, mc.image, code, data);
    ghost var im2 := mc.image;
    MovToSegment(mc, FS, l, rs, 0x10, data, CS, 0x08, code, s);
    MarkedAgain(im, im2, mc.image, code, data);
    ghost var im3 := mc.image;
    MovToSegment(mc, GS, l, rs, 0x10, data, CS, 0x08, code, s);
    MarkedAgain(im, im3, mc.image, code, data);
    ghost var im4 := mc.image;
    MovToSegment(mc, SS, l, rs, 0x10, data, CS, 0x08, code, s);
    MarkedAgain(im, im4, mc.image, code, data);
    ghost var im5 := mc.image;
    MovToSegment(mc, CS, l, rs, 0x08, code, SS, 0x10, data, s);
    MarkedAgain(im, im5, mc.image, code, data);
    SixLoads(c.segment, mc.cpu.segment, s);
  }

  // ---------- the GDT ----------

  /** p_gdt at pa holds the limit of three descriptors and the base `gdt`. */
  ghost predicate PointerStored(im: Image, pa: nat, gdt: U32)
    requires pa + 6 <= 0x1_0000_0000
  {
    Half(im(pa), im(pa + 1)) == 23 && Join(im(pa + 2), im(pa + 3), im(pa + 4), im(pa + 5)) == gdt
  }

  /** The five descriptors of gdt_init: null, then flat code and data for kernel and user. */
  function GateLimit(i: nat): U32 { if i == 0 then 0 else 0xFFFF_FFFF }

  function GateAccess(i: nat): U8 {
    if i == 0 then 0 else if i == 1 then 0x9A else if i == 2 then 0x92 else if i == 3 then 0xFA else 0xF2
  }

  function GateGran(i: nat): U8 { if i == 0 then 0 else 0xCF }

  function Gate(i: nat): Descriptor { GateBytes(0, GateLimit(i), GateAccess(i), GateGran(i)) }

  ghost predicate StoredAt(im: Image, pa: nat, i: nat)
    requires pa + 8 * i + 8 <= 0x1_0000_0000
  {
    DescriptorAt(im, pa + 8 * i) == Gate(i)
  }

  ghost predicate GatesStored(im: Image, pa: nat, n: nat)
    requires pa + 8 * n <= 0x1_0000_0000
  {
    forall i: nat | i < n :: StoredAt(im, pa, i)
  }

  /** One more gate; the earlier ones and p_gdt are where they were. */
  lemma NextGate(im: Image, im': Image, pa: nat, n: nat, pp: nat, gdt: U32)
    requires n < 5 && pa + 40 <= 0x1_0000_0000 && pp + 6 <= 0x1_0000_0000
    requires pa + 40 <= pp || pp + 6 <= pa
    requires SameOutside(im, im', pa + 8 * n, 8) && DescriptorAt(im', pa + 8 * n) == Gate(n)
    requires GatesStored(im, pa, n) && PointerStored(im, pp, gdt)
    ensures GatesStored(im', pa, n + 1) && PointerStored(im', pp, gdt)
  {
    forall i: nat | i < n
      ensures StoredAt(im', pa, i)
    {
      assert StoredAt(im, pa, i);
      assert DescriptorAt(im', pa + 8 * i) == DescriptorAt(im, pa + 8 * i);
    }
    assert StoredAt(im', pa, n);
  }

  /** The gates after gdt_flush: the processor has set the accessed bits of the two it loaded. */
  function LoadedGate(i: nat): Descriptor {
    var gate := Gate(i);
    if i == 1 || i == 2 then gate.(b5 := Accessed(gate.b5)) else gate
  }

  ghost predicate LoadedAt(im: Image, pa: nat, i: nat)
    requires pa + 8 * i + 8 <= 0x1_0000_0000
  {
    DescriptorAt(im, pa + 8 * i) == LoadedGate(i)
  }

  ghost predicate GatesLoaded(im: Image, pa: nat)
    requires pa + 40 <= 0x1_0000_0000
  {
    forall i: nat | i < 5 :: LoadedAt(im, pa, i)
  }

  /** Two stores make p_gdt: the limit, then the base. */
  lemma PointerAssembled(im0: Image, im1: Image, im2: Image, pa: nat, gdt: U32)
    requires pa + 6 <= 0x1_0000_0000
    requires im1(pa) == 23 && im1(pa + 1) == 0 && SameBut(im0, im1, {pa, pa + 1})
    requires Join(im2(pa + 2), im2(pa + 3), im2(pa + 4), im2(pa + 5)) == gdt
    requires SameBut(im1, im2, {pa + 2, pa + 3, pa + 4, pa + 5})
    ensures PointerStored(im2, pa, gdt) && SameOutside(im0, im2, pa, 6)
  {
    assert im2(pa) == 23 && im2(pa + 1) == 0;
  }

  lemma GdtFrame(im0: Image, im1: Image, im2: Image, gdt: nat, pGdt: nat)
    requires SameOutside(im0, im1, pGdt, 6) && SameOutside(im1, im2, gdt, 40)
    ensures SameBesideGdt(im0, im2, gdt, pGdt)
  {
  }

  lemma GatesMarked(im: Image, im': Image, pa: nat)
    requires pa + 40 <= 0x1_0000_0000 && GatesStored(im, pa, 5) && Marked(im, im', pa + 0x08, pa + 0x10)
    ensures GatesLoaded(im', pa)
  {
    forall i: nat | i < 5
      ensures LoadedAt(im', pa, i)
    {
      assert StoredAt(im, pa, i);
      var d := DescriptorAt(im, pa + 8 * i);
      assert d == Gate(i);
      assert DescriptorAt(im', pa + 8 * i) == if i == 1 || i == 2 then d.(b5 := Accessed(d.b5)) else d;
    }
  }

  lemma GdtDone(im0: Image, im1: Image, im2: Image, gdt: nat, pGdt: nat)
    requires gdt + 40 <= 0x1_0000_0000 && GatesStored(im1, gdt, 5)
    requires SameBesideGdt(im0, im1, gdt, pGdt) && Marked(im1, im2, gdt + 0x08, gdt + 0x10)
    ensures GatesLoaded(im2, gdt) && SameBesideGdt(im0, im2, gdt, pGdt)
  {
    GatesMarked(im1, im2, gdt);
  }

  predicate KernelAccess(access: U8, i: nat) {
    && IsPresent(access) && Privilege(access) == (if i <= 2 then 0 else 3)
    && KindOf(access) == if i == 1 || i == 3 then CodeSegment(false, true) else DataSegment(false, true)
  }

  /** What the processor makes of the five descriptors, by section 3.4.5: none, then flat 32-bit code
      and data for privilege 0, then the same for privilege 3. */
  ghost predicate KernelGate(d: Descriptor, i: nat) {
    if i == 0 then d == Descriptor(0, 0, 0, 0, 0, 0, 0, 0) else Decode(d) == FLAT && KernelAccess(d.b5, i)
  }

  ghost predicate KernelGates(im: Image, pa: nat)
    requires pa + 40 <= 0x1_0000_0000
  {
    forall i: nat | i < 5 :: KernelGate(DescriptorAt(im, pa + 8 * i), i)
  }

  lemma FlatGateBytes(access: U8)
    ensures GateBytes(0, 0xFFFF_FFFF, access, 0xCF) == Descriptor(0xFF, 0xFF, 0, 0, 0, access, 0xCF, 0)
  {
  }

  lemma FlatGate(d: Descriptor)
    requires d.b0 == d.b1 == 0xFF && d.b2 == d.b3 == d.b4 == d.b7 == 0 && d.b6 == 0xCF
    ensures Decode(d) == FLAT
  {
  }

  lemma GateKind(i: nat)
    requires 0 < i < 5
    ensures KernelAccess(GateAccess(i), i)
  {
  }

  lemma AccessedKind(access: U8, i: nat)
    requires KernelAccess(access, i)
    ensures KernelAccess(Accessed(access), i)
  {
    AccessedKeeps(access);
  }

  lemma GateIs(i: nat)
    requires i < 5
    ensures i == 0 ==> Gate(i) == Descriptor(0, 0, 0, 0, 0, 0, 0, 0)
    ensures i > 0 ==> Gate(i) == Descriptor(0xFF, 0xFF, 0, 0, 0, GateAccess(i), 0xCF, 0)
  {
    if i > 0 { FlatGateBytes(GateAccess(i)); }
  }

  lemma FlatGateMeans(i: nat, d: Descriptor)
    requires 0 < i < 5 && KernelAccess(d.b5, i) && d == Descriptor(0xFF, 0xFF, 0, 0, 0, d.b5, 0xCF, 0)
    ensures KernelGate(d, i)
  {
    FlatGate(d);
  }

  lemma GateMeans(i: nat)
    requires i < 5
    ensures KernelGate(Gate(i), i)
  {
    GateIs(i);
    if i > 0 {
      GateKind(i);
      FlatGateMeans(i, Gate(i));
    }
  }

  lemma MarkedGateMeans(i: nat, gate: Descriptor)
    requires 0 < i < 5 && KernelAccess(gate.b5, i) && gate == Descriptor(0xFF, 0xFF, 0, 0, 0, gate.b5, 0xCF, 0)
    ensures KernelGate(gate.(b5 := Accessed(gate.b5)), i)
  {
    AccessedKind(gate.b5, i);
    FlatGateMeans(i, gate.(b5 := Accessed(gate.b5)));
  }

  lemma LoadedGateMeans(i: nat)
    requires i < 5
    ensures KernelGate(LoadedGate(i), i)
  {
    if i == 1 || i == 2 {
      GateIs(i);
      GateKind(i);
      MarkedGateMeans(i, Gate(i));
    } else {
      GateMeans(i);
    }
  }

  /** So the stored bytes mean what gdt_init is for. */
  lemma LoadedGatesMean(im: Image, pa: nat)
    requires pa + 40 <= 0x1_0000_0000 && GatesLoaded(im, pa)
    ensures KernelGates(im, pa)
  {
    forall i: nat | i < 5
      ensures KernelGate(DescriptorAt(im, pa + 8 * i), i)
    {
      assert LoadedAt(im, pa, i);
      LoadedGateMeans(i);
    }
  }

  lemma StoredGatesMean(im: Image, pa: nat)
    requires pa + 40 <= 0x1_0000_0000 && GatesStored(im, pa, 5)
    ensures KernelGates(im, pa)
  {
    forall i: nat | i < 5
      ensures KernelGate(DescriptorAt(im, pa + 8 * i), i)
    {
      assert StoredAt(im, pa, i);
      GateMeans(i);
    }
  }

  ghost predicate GivesFlat(im: Image, pa: nat, i: nat, r: SegReg)
    requires pa + 8 * i + 8 <= 0x1_0000_0000
  {
    Gives(DescriptorAt(im, pa + 8 * i), r, FLAT)
  }

  lemma GateGives(im: Image, pa: nat, i: nat, r: SegReg)
    requires pa + 40 <= 0x1_0000_0000 && KernelGates(im, pa) && ((i == 1 && r == CS) || (i == 2 && r == SS))
    ensures GivesFlat(im, pa, i, r)
  {
    assert KernelGate(DescriptorAt(im, pa + 8 * i), i);
  }

  lemma FlatGatesStored(im: Image, pa: nat)
    requires pa + 40 <= 0x1_0000_0000 && GatesStored(im, pa, 5)
    ensures Gives(DescriptorAt(im, pa + 0x08), CS, FLAT) && Gives(DescriptorAt(im, pa + 0x10), SS, FLAT)
  {
    StoredGatesMean(im, pa);
    GateGives(im, pa, 1, CS);
    GateGives(im, pa, 2, SS);
  }

  /** The word that an entry's kernel address stands for. */
  lemma SlotWord(frame: nat, i: nat)
    requires frame < 1024 && i < 1024
    ensures InKernel(KERNEL_BASE + frame * 0x1000 + 4 * i)
    ensures Real(KERNEL_BASE + frame * 0x1000 + 4 * i) == 4 * (frame * 1024 + i)
  {
  }

  lemma SlotStored(m: seq<U32>, l: Layout, rs: seq<Request>, r: Request)
    requires Legal(l) && |m| == WORDS && Tables(m, l, rs) && |rs| < 1024
    ensures var m' := m[l.misc * 1024 + |rs| := EntryFor(r)];
            Tables(m', l, rs + [r]) && WalksKept(m, m', Cr3(l))
  {
    MapKeepsTables(l, m, rs, r);
    TablesKeepWalks(l, m, m[l.misc * 1024 + |rs| := EntryFor(r)], rs, rs + [r]);
  }

  /** A store of the next entry at the next slot's address hits its word, keeps every walk, and
      makes the tables for one more call. */
  lemma SlotReady(m: seq<U32>, cr3: U32, l: Layout, rs: seq<Request>, r: Request, slot: U32, entry: U32)
    requires |m| == WORDS && Legal(l) && Tables(m, l, rs) && |rs| < 1024 && cr3 == Cr3(l) && entry == EntryFor(r)
    requires slot == KERNEL_BASE + l.misc * 0x1000 + 4 * |rs|
    ensures Translate(m, true, cr3, Add32(FLAT.base, slot)) == Some(4 * (l.misc * 1024 + |rs|))
    ensures Tables(m[l.misc * 1024 + |rs| := entry], l, rs + [r])
    ensures WalksKept(m, m[l.misc * 1024 + |rs| := entry], cr3)
  {
    SlotWord(l.misc, |rs|);
    KernelTranslates(m, true, cr3, l, rs, FLAT.base, slot);
    SlotStored(m, l, rs, r);
  }

  // ---------- the fake GDT ----------

  lemma SetupByte(im: Image, i: nat)
    requires SetupLoaded(im) && i < 30
    ensures im(FAKE_GDT + i) == SETUP[i]
  {
  }

  lemma FakeGate(d: Descriptor, r: SegReg)
    requires d.b0 == d.b1 == 0xFF && d.b2 == d.b3 == d.b4 == 0 && d.b7 == 0x40 && d.b6 == 0xCF
    requires d.b5 == (if r == CS then 0x9A else 0x92) && (r == CS || r == SS)
    ensures Gives(d, r, FAKE)
  {
  }

  lemma SetupCode(im: Image)
    requires SetupLoaded(im)
    ensures Gives(DescriptorAt(im, FAKE_GDT + 6 + 0x08), CS, FAKE)
  {
    SetupByte(im, 14); SetupByte(im, 15); SetupByte(im, 16); SetupByte(im, 17);
    SetupByte(im, 18); SetupByte(im, 19); SetupByte(im, 20); SetupByte(im, 21);
    FakeGate(DescriptorAt(im, FAKE_GDT + 6 + 0x08), CS);
  }

  lemma SetupData(im: Image)
    requires SetupLoaded(im)
    ensures Gives(DescriptorAt(im, FAKE_GDT + 6 + 0x10), SS, FAKE)
  {
    SetupByte(im, 22); SetupByte(im, 23); SetupByte(im, 24); SetupByte(im, 25);
    SetupByte(im, 26); SetupByte(im, 27); SetupByte(im, 28); SetupByte(im, 29);
    FakeGate(DescriptorAt(im, FAKE_GDT + 6 + 0x10), SS);
  }

  lemma SetupPointer(im: Image)
    requires SetupLoaded(im)
    ensures Half(im(FAKE_GDT), im(FAKE_GDT + 1)) == 23
    ensures Join(im(FAKE_GDT + 2), im(FAKE_GDT + 3), im(FAKE_GDT + 4), im(FAKE_GDT + 5)) == FAKE_GDT + 6
  {
    SetupByte(im, 0); SetupByte(im, 1); SetupByte(im, 2); SetupByte(im, 3); SetupByte(im, 4); SetupByte(im, 5);
  }

  /** The bytes of .setup give the fake segment for both selectors, as code and as writable data. */
  lemma SetupDescriptors(im: Image)
    requires SetupLoaded(im)
    ensures Half(im(FAKE_GDT), im(FAKE_GDT + 1)) == 23
    ensures Join(im(FAKE_GDT + 2), im(FAKE_GDT + 3), im(FAKE_GDT + 4), im(FAKE_GDT + 5)) == FAKE_GDT + 6
    ensures Gives(DescriptorAt(im, FAKE_GDT + 6 + 0x08), CS, FAKE)
    ensures Gives(DescriptorAt(im, FAKE_GDT + 6 + 0x10), SS, FAKE)
  {
    SetupPointer(im);
    SetupCode(im);
    SetupData(im);
  }

  lemma FakeSelected(m: seq<U32>, im: Image, c: Cpu, l: Layout, rs: seq<Request>, r: SegReg, selector: U16)
    requires |m| == WORDS && !c.paging && c.gdtLimit == 23 && c.gdtBase == FAKE_GDT + 6
    requires selector == 0x08 || selector == 0x10
    requires Gives(DescriptorAt(im, FAKE_GDT + 6 + selector), r, FAKE)
    ensures Selects(m, im, c, l, rs, r, selector, FAKE_GDT + 6 + selector, FAKE)
  {
  }

  lemma HighBytes(m: seq<U32>, cr3: U32, l: Layout, rs: seq<Request>, v: U32, n: nat)
    requires |m| == WORDS && InKernel(v) && v + n <= KERNEL_BASE + 0x40_0000
    requires Legal(l) && Tables(m, l, rs) && cr3 == Cr3(l)
    ensures Bytes(m, true, cr3, v, n, Real(v))
  {
    forall a: U32 | v <= a < v + n
      ensures Translate(m, true, cr3, a) == Some(Real(v) + (a - v))
    {
      LinearTranslates(m, true, cr3, l, rs, a);
    }
  }

  /** Through directory entry 768, GDTR's linear base finds the descriptors just stored. */
  lemma FlatSelected(m: seq<U32>, im: Image, c: Cpu, l: Layout, rs: seq<Request>, gdt: U32, r: SegReg, selector: U16)
    requires |m| == WORDS && c.paging && Legal(l) && Tables(m, l, rs) && c.cr3 == Cr3(l)
    requires c.gdtLimit == 23 && c.gdtBase == gdt && InKernel(gdt) && Real(gdt) + 24 <= 0x40_0000
    requires selector == 0x08 || selector == 0x10
    requires Gives(DescriptorAt(im, Real(gdt) + selector), r, FLAT) && !InTables(l, (Real(gdt) + selector + 5) / 4)
    ensures Selects(m, im, c, l, rs, r, selector, Real(gdt) + selector, FLAT)
  {
    HighBytes(m, c.cr3, l, rs, gdt + selector, 8);
  }

  lemma LowBytes(m: seq<U32>, paging: bool, cr3: U32, l: Layout, rs: seq<Request>, lin: U32, n: nat)
    requires |m| == WORDS && lin + n <= 0x40_0000
    requires paging ==> Legal(l) && Tables(m, l, rs) && cr3 == Cr3(l)
    ensures Bytes(m, paging, cr3, lin, n, lin)
  {
    forall a: U32 | lin <= a < lin + n
      ensures Translate(m, paging, cr3, a) == Some(lin + (a - lin))
    {
      LinearTranslates(m, paging, cr3, l, rs, a);
    }
  }

  lemma HalfBytes(x: U32)
    ensures x % 0x1_0000 % 0x100 == x % 0x100 && x % 0x1_0000 / 0x100 == x / 0x100 % 0x100
    ensures x / 0x100_0000 % 0x100 == x / 0x100_0000
  {
    assert x == 0x1_0000 * (x / 0x1_0000) + x % 0x1_0000;
    assert x / 0x100 == 0x100 * (x / 0x1_0000) + x % 0x1_0000 / 0x100;
  }

  // ---------- the code ----------

  class Kernel {
    const machine: Machine

    /** Where the linker put the tables, gdt[5] and p_gdt. */
    const l: Layout

    const gdt: U32
    const pGdt: U32
    var nMiscIndex: U16
    ghost var requests: seq<Request>
    ghost var results: seq<U32>

    constructor (machine: Machine, l: Layout, gdt: U32, pGdt: U32)
      ensures this.machine == machine && this.l == l && this.gdt == gdt && this.pGdt == pGdt
      ensures requests == [] && results == []
    {
      this.machine, this.l, this.gdt, this.pGdt := machine, l, gdt, pGdt;
      nMiscIndex, requests, results := 0, [], [];
    }

    /** n bytes of kernel data at v, clear of the tables. */
    ghost predicate Data(v: U32, n: nat) {
      && KERNEL_BASE <= v && v + n <= KERNEL_BASE + 0x40_0000
      && forall a: U32 | v <= a < v + n :: !InTables(l, Real(a) / 4)
    }

    ghost predicate Placed() {
      Legal(l) && Data(gdt, 40) && Data(pGdt, 6) && (gdt + 40 <= pGdt || pGdt + 6 <= gdt)
    }

    /** C code can run: data is reached through ds, and the tables, if in use, are in order. */
    ghost predicate Usable()
      reads this, machine, machine.ram
    {
      && machine.Valid() && Placed()
      && var c := machine.cpu;
         && (c.paging ==> Tables(machine.ram[..], l, requests) && c.cr3 == Cr3(l))
         && (c.segment[DS].base == FAKE.base || (c.paging && c.segment[DS].base == FLAT.base))
    }

    /** A store to kernel data. */
    method Poke(v: U32, b: U8)
      requires Usable() && InKernel(v) && !InTables(l, Real(v) / 4)
      modifies machine, machine.ram
      ensures Usable() && SameButTlb(old(machine.cpu), machine.cpu)
      ensures machine.image(Real(v)) == b && SameBut(old(machine.image), machine.image, {Real(v)})
    {
      ghost var m, c := machine.ram[..], machine.cpu;
      ghost var m' := PutByte(m, Real(v), b);
      KernelTranslates(m, c.paging, c.cr3, l, requests, c.segment[DS].base, v);
      if c.paging {
        TablesKept(l, m, Real(v) / 4, m'[Real(v) / 4], requests);
        TablesKeepWalks(l, m, m', requests, requests);
      }
      machine.StoreByte(DS, v, b, Real(v));
    }

    method Peek(v: U32) returns (b: U8)
      requires Usable() && InKernel(v)
      modifies machine`cpu
      ensures Usable() && SameButTlb(old(machine.cpu), machine.cpu) && machine.ram[..] == old(machine.ram[..])
      ensures b == machine.image(Real(v))
    {
      ghost var m, c := machine.ram[..], machine.cpu;
      KernelTranslates(m, c.paging, c.cr3, l, requests, c.segment[DS].base, v);
      b := machine.LoadByte(DS, v, Real(v));
    }

    /** A 16-bit store to kernel data: two bytes, low first. */
    method PokeHalf(v: U32, h: U16)
      requires Usable() && Data(v, 2)
      modifies machine, machine.ram
      ensures Usable() && SameButTlb(old(machine.cpu), machine.cpu)
      ensures machine.image(Real(v)) == h % 0x100 && machine.image(Real(v) + 1) == h / 0x100
      ensures SameBut(old(machine.image), machine.image, {Real(v), Real(v) + 1})
    {
      Poke(v, h % 0x100);
      Poke(v + 1, h / 0x100);
    }

    method SetGateBase(gate: U32, base: U32)
      requires Usable() && Data(gate, 8)
      modifies machine, machine.ram
      ensures Usable() && SameButTlb(old(machine.cpu), machine.cpu)
      ensures var im, pa := machine.image, Real(gate);
              && im(pa + 2) == base % 0x100 && im(pa + 3) == base / 0x100 % 0x100
              && im(pa + 4) == base / 0x1_0000 % 0x100 && im(pa + 7) == base / 0x100_0000
              && SameBut(old(machine.image), im, {pa + 2, pa + 3, pa + 4, pa + 7})
    {
      PokeHalf(gate + 2, base % 0x1_0000);
      Poke(gate + 4, base / 0x1_0000 % 0x100);
      Poke(gate + 7, base / 0x100_0000 % 0x100);
      HalfBytes(base);
    }

    method SetGateLimit(gate: U32, limit: U32, gran: U8)
      requires Usable() && Data(gate, 8)
      modifies machine, machine.ram
      ensures Usable() && SameButTlb(old(machine.cpu), machine.cpu)
      ensures var im, pa := machine.image, Real(gate);
              && im(pa) == limit % 0x100 && im(pa + 1) == limit / 0x100 % 0x100
              && im(pa + 6) == limit / 0x1_0000 % 16 + gran / 16 * 16
              && SameBut(old(machine.image), im, {pa, pa + 1, pa + 6})
    {
      PokeHalf(gate, limit % 0x1_0000);
      Poke(gate + 6, limit / 0x1_0000 % 16);
      var granularity := Peek(gate + 6);
      OrNibbles(gran / 16, granularity);
      Poke(gate + 6, Or(granularity, gran / 16 * 16));
      HalfBytes(limit);
    }

    method SetGateAt(gate: U32, base: U32, limit: U32, access: U8, gran: U8)
      requires Usable() && Data(gate, 8)
      modifies machine, machine.ram
      ensures Usable() && SameButTlb(old(machine.cpu), machine.cpu)
      ensures DescriptorAt(machine.image, Real(gate)) == GateBytes(base, limit, access, gran)
      ensures SameOutside(old(machine.image), machine.image, Real(gate), 8)
    {
      ghost var m0 := machine.image;
      SetGateBase(gate, base);
      ghost var m1 := machine.image;
      SetGateLimit(gate, limit, gran);
      ghost var m2 := machine.image;
      Poke(gate + 5, access);
      GateAssembled(m0, m1, m2, machine.image, Real(gate), base, limit, access, gran);
    }

    method GdtSetGate(num: nat, base: U32, limit: U32, access: U8, gran: U8)
      requires Usable() && num < 5
      modifies machine, machine.ram
      ensures Usable() && SameButTlb(old(machine.cpu), machine.cpu)
      ensures DescriptorAt(machine.image, Real(gdt) + 8 * num) == GateBytes(base, limit, access, gran)
      ensures SameOutside(old(machine.image), machine.image, Real(gdt) + 8 * num, 8)
    {
      SetGateAt(gdt + 8 * num, base, limit, access, gran);
    }

    /** With GDTR on gdt, the code and data descriptors can be loaded. */
    lemma GateSelected(r: SegReg, selector: U16)
      requires Placed() && |machine.ram[..]| == WORDS
      requires machine.cpu.paging && Tables(machine.ram[..], l, requests) && machine.cpu.cr3 == Cr3(l)
      requires machine.cpu.gdtLimit == 23 && machine.cpu.gdtBase == gdt && (selector == 0x08 || selector == 0x10)
      requires Gives(DescriptorAt(machine.image, Real(gdt) + selector), r, FLAT)
      ensures Selects(machine.ram[..], machine.image, machine.cpu, l, requests, r, selector, Real(gdt) + selector, FLAT)
    {
      assert !InTables(l, Real(gdt + selector + 5) / 4);
      FlatSelected(machine.ram[..], machine.image, machine.cpu, l, requests, gdt, r, selector);
    }

    /** `lgdt p_gdt`, through the fake segment. */
    method LgdtPointer()
      requires Usable() && machine.cpu.paging && AllSegments(machine.cpu, FAKE)
      requires PointerStored(machine.image, Real(pGdt), gdt)
      modifies machine`cpu
      ensures machine.Valid() && machine.ram[..] == old(machine.ram[..])
      ensures SameButTlb(old(machine.cpu).(gdtLimit := 23, gdtBase := gdt), machine.cpu)
    {
      FakeWraps(pGdt);
      LowBytes(machine.ram[..], true, machine.cpu.cr3, l, requests, Real(pGdt), 6);
      machine.Lgdt(pGdt, Real(pGdt));
    }

    /** The rest of gdt_flush, with GDTR on gdt. */
    method ReloadFlat()
      requires machine.Valid() && Placed() && machine.cpu.paging
      requires Tables(machine.ram[..], l, requests) && machine.cpu.cr3 == Cr3(l)
      requires machine.cpu.gdtLimit == 23 && machine.cpu.gdtBase == gdt
      requires Gives(DescriptorAt(machine.image, Real(gdt) + 0x08), CS, FLAT)
      requires Gives(DescriptorAt(machine.image, Real(gdt) + 0x10), SS, FLAT)
      modifies machine, machine.ram
      ensures machine.Valid() && SameTables(old(machine.cpu), machine.cpu) && AllSegments(machine.cpu, FLAT)
      ensures Tables(machine.ram[..], l, requests)
      ensures Marked(old(machine.image), machine.image, Real(gdt) + 0x08, Real(gdt) + 0x10)
    {
      GateSelected(CS, 0x08);
      GateSelected(SS, 0x10);
      ReloadSegments(machine, l, requests, Real(gdt) + 0x08, Real(gdt) + 0x10, FLAT);
    }

    /** gdt_flush in entry.s. */
    method GdtFlush()
      requires Usable() && machine.cpu.paging && AllSegments(machine.cpu, FAKE)
      requires PointerStored(machine.image, Real(pGdt), gdt)
      requires Gives(DescriptorAt(machine.image, Real(gdt) + 0x08), CS, FLAT)
      requires Gives(DescriptorAt(machine.image, Real(gdt) + 0x10), SS, FLAT)
      modifies machine, machine.ram
      ensures machine.Valid() && Paged(machine.ram[..], machine.cpu, l, requests) && AllSegments(machine.cpu, FLAT)
      ensures KernelReached(machine.ram[..], machine.cpu)
      ensures SameButTlb(old(machine.cpu).(segment := machine.cpu.segment, gdtLimit := 23, gdtBase := gdt), machine.cpu)
      ensures Marked(old(machine.image), machine.image, Real(gdt) + 0x08, Real(gdt) + 0x10)
    {
      LgdtPointer();
      ReloadFlat();
      PagedReaches(machine.ram[..], machine.cpu, l, requests);
    }

    /** A 32-bit store to kernel data that need not be aligned: two halves, low first. */
    method PokeLong(v: U32, x: U32)
      requires Usable() && Data(v, 4)
      modifies machine, machine.ram
      ensures Usable() && SameButTlb(old(machine.cpu), machine.cpu)
      ensures var im, pa := machine.image, Real(v);
              && Join(im(pa), im(pa + 1), im(pa + 2), im(pa + 3)) == x
              && SameBut(old(machine.image), im, {pa, pa + 1, pa + 2, pa + 3})
    {
      PokeHalf(v, x % 0x1_0000);
      PokeHalf(v + 2, x / 0x1_0000);
      HalfBytes(x);
      BytesOfBase(x);
    }

    method StoreGdtLimit()
      requires Usable()
      modifies machine, machine.ram
      ensures Usable() && SameButTlb(old(machine.cpu), machine.cpu)
      ensures machine.image(Real(pGdt)) == 23 && machine.image(Real(pGdt) + 1) == 0
      ensures SameBut(old(machine.image), machine.image, {Real(pGdt), Real(pGdt) + 1})
    {
      PokeHalf(pGdt, 8 * 3 - 1);
    }

    method StoreGdtPointer()
      requires Usable()
      modifies machine, machine.ram
      ensures Usable() && SameButTlb(old(machine.cpu), machine.cpu)
      ensures PointerStored(machine.image, Real(pGdt), gdt)
      ensures SameOutside(old(machine.image), machine.image, Real(pGdt), 6)
    {
      ghost var im0 := machine.image;
      StoreGdtLimit();
      ghost var im1 := machine.image;
      PokeLong(pGdt + 2, gdt);
      PointerAssembled(im0, im1, machine.image, Real(pGdt), gdt);
    }

    /** The next gate. */
    method StoreGate(num: nat, base: U32, limit: U32, access: U8, gran: U8)
      requires num < 5 && GateBytes(base, limit, access, gran) == Gate(num)
      requires Usable() && GatesStored(machine.image, Real(gdt), num) && PointerStored(machine.image, Real(pGdt), gdt)
      modifies machine, machine.ram
      ensures Usable() && SameButTlb(old(machine.cpu), machine.cpu)
      ensures GatesStored(machine.image, Real(gdt), num + 1) && PointerStored(machine.image, Real(pGdt), gdt)
      ensures SameOutside(old(machine.image), machine.image, Real(gdt), 40)
    {
      ghost var before := machine.image;
      GdtSetGate(num, base, limit, access, gran);
      ghost var after := machine.image;
      assert DescriptorAt(after, Real(gdt) + 8 * num) == Gate(num);
      NextGate(before, after, Real(gdt), num, Real(pGdt), gdt);
    }

    method StoreGates()
      requires Usable() && PointerStored(machine.image, Real(pGdt), gdt)
      modifies machine, machine.ram
      ensures Usable() && SameButTlb(old(machine.cpu), machine.cpu)
      ensures GatesStored(machine.image, Real(gdt), 5) && PointerStored(machine.image, Real(pGdt), gdt)
      ensures SameOutside(old(machine.image), machine.image, Real(gdt), 40)
    {
      StoreGate(0, 0, 0, 0, 0);
      StoreGate(1, 0, 0xFFFF_FFFF, 0x9A, 0xCF);
      StoreGate(2, 0, 0xFFFF_FFFF, 0x92, 0xCF);
      StoreGate(3, 0, 0xFFFF_FFFF, 0xFA, 0xCF);
      StoreGate(4, 0, 0xFFFF_FFFF, 0xF2, 0xCF);
    }

    /** The stores of gdt_init: p_gdt, then the five gates. */
    method StoreGdt()
      requires Usable()
      modifies machine, machine.ram
      ensures Usable() && SameButTlb(old(machine.cpu), machine.cpu)
      ensures GatesStored(machine.image, Real(gdt), 5) && PointerStored(machine.image, Real(pGdt), gdt)
      ensures Gives(DescriptorAt(machine.image, Real(gdt) + 0x08), CS, FLAT)
      ensures Gives(DescriptorAt(machine.image, Real(gdt) + 0x10), SS, FLAT)
      ensures SameBesideGdt(old(machine.image), machine.image, Real(gdt), Real(pGdt))
    {
      ghost var before := machine.image;
      StoreGdtPointer();
      ghost var pointed := machine.image;
      StoreGates();
      GdtFrame(before, pointed, machine.image, Real(gdt), Real(pGdt));
      FlatGatesStored(machine.image, Real(gdt));
    }

    /** Paging is on with the tables in order, the segments are flat, and nMiscIndex and the
        results given out agree with the calls made so far. */
    ghost predicate Running()
      reads this, machine, machine.ram
    {
      && machine.Valid() && Placed() && Paged(machine.ram[..], machine.cpu, l, requests)
      && AllSegments(machine.cpu, FLAT) && nMiscIndex == |requests|
      && ResultsMatch(requests, results)
    }

    /** gdt_init in tables.c. */
    method GdtInit()
      requires Usable() && machine.cpu.paging && AllSegments(machine.cpu, FAKE)
      requires nMiscIndex == |requests| && ResultsMatch(requests, results)
      modifies machine, machine.ram
      ensures Running() && KernelReached(machine.ram[..], machine.cpu)
      ensures requests == old(requests) && results == old(results)
      ensures GatesLoaded(machine.image, Real(gdt)) && KernelGates(machine.image, Real(gdt))
      ensures SameBesideGdt(old(machine.image), machine.image, Real(gdt), Real(pGdt))
      ensures SameButTlb(old(machine.cpu).(segment := machine.cpu.segment, gdtLimit := 23, gdtBase := gdt), machine.cpu)
    {
      ghost var before := machine.image;
      StoreGdt();
      ghost var stored := machine.image;
      GdtFlush();
      GdtDone(before, stored, machine.image, Real(gdt), Real(pGdt));
      LoadedGatesMean(machine.image, Real(gdt));
    }

    /** The part of the state that Paging reasons about. */
    ghost function Now(): System
      reads this, machine, machine.ram
    {
      System(machine.ram[..], machine.cpu.tlb, requests, results)
    }

    /** The virtual addresses of the tables. */
    function Kernelpagedir(): U32 requires Legal(l) { KERNEL_BASE + l.dir * 0x1000 }

    function Lowpagetable(): U32 requires Legal(l) { KERNEL_BASE + l.low * 0x1000 }

    function Miscpagetable(): U32 requires Legal(l) { KERNEL_BASE + l.misc * 0x1000 }

    /** The store of paging_map, through a kernel virtual address: it lands in the word that the
        walk reads for page |requests| of directory entry 1023. */
    method StoreSlot(entry: U32, ghost r: Request)
      requires machine.Valid() && Paged(machine.ram[..], machine.cpu, l, requests) && AllSegments(machine.cpu, FLAT)
      requires nMiscIndex == |requests| < 1024 && entry == EntryFor(r)
      modifies machine, machine.ram
      ensures machine.Valid() && SameButTlb(old(machine.cpu), machine.cpu)
      ensures machine.ram[..] == old(machine.ram[..])[l.misc * 1024 + |requests| := EntryFor(r)]
    {
      var slot: U32 := Miscpagetable() + 4 * nMiscIndex;
      SlotReady(machine.ram[..], machine.cpu.cr3, l, requests, r, slot, entry);
      machine.StoreWord(DS, slot, entry, l.misc * 1024 + |requests|);
    }

    /** paging_map in paging.c.  The code checks neither that a slot is left nor that the flags stay
        below bit 12; only the first is needed here. */
    method PagingMap(physical: U32, flags: U16) returns (virtaddr: U32)
      requires Running() && |requests| < 1024
      modifies this`nMiscIndex, this`requests, this`results, machine, machine.ram
      ensures Running()
      ensures requests == old(requests) + [Request(physical, flags)] && results == old(results) + [virtaddr]
      ensures machine.ram[..]
              == old(machine.ram[..])[l.misc * 1024 + |old(requests)| := EntryFor(Request(physical, flags))]
      ensures SameButTlb(old(machine.cpu), machine.cpu) && virtaddr / 0x1000 !in machine.cpu.tlb
    {
      var physaddr := physical / 0x1000 * 0x1000;
      var entry := EntryValue(physaddr, flags, Request(physical, flags));
      MapKeepsTables(l, machine.ram[..], requests, Request(physical, flags));
      StoreSlot(entry, Request(physical, flags));
      virtaddr := PointerValue(nMiscIndex, physical);

      nMiscIndex := nMiscIndex + 1;
      requests, results := requests + [Request(physical, flags)], results + [virtaddr];

      machine.Invlpg(virtaddr);
    }

    /** So every call leaves a state that all of Paging's results about runs apply to. */
    lemma RunningInv()
      requires Running()
      ensures Inv(l, Now())
    {
    }

    /** _start in entry.s, up to the call of kernel_main.  The boot loader hands over with flat
        segments and without paging. */
    method Start()
      requires machine.Valid() && !machine.cpu.paging && AllSegments(machine.cpu, FLAT) && SetupLoaded(machine.image)
      modifies machine, machine.ram
      ensures machine.Valid() && FakeUnpaged(machine.cpu) && KernelReached(machine.ram[..], machine.cpu)
      ensures SameButTlb(old(machine.cpu).(segment := machine.cpu.segment, gdtLimit := 23, gdtBase := FAKE_GDT + 6),
                         machine.cpu)
      ensures Marked(old(machine.image), machine.image, FAKE_GDT + 6 + 0x08, FAKE_GDT + 6 + 0x10)
    {
      SetupDescriptors(machine.image);
      machine.Lgdt(FAKE_GDT, FAKE_GDT);
      FakeSelected(machine.ram[..], machine.image, machine.cpu, l, requests, CS, 0x08);
      FakeSelected(machine.ram[..], machine.image, machine.cpu, l, requests, SS, 0x10);
      ReloadSegments(machine, l, requests, FAKE_GDT + 6 + 0x08, FAKE_GDT + 6 + 0x10, FAKE);
      FakeUnpagedReaches(machine.ram[..], machine.cpu);
    }

    /** A store to one of the tables before paging is on. */
    method StoreEntry(frame: nat, i: nat, w: U32)
      requires machine.Valid() && FakeUnpaged(machine.cpu) && frame < 1024 && i < 1024
      modifies machine, machine.ram
      ensures machine.Valid() && SameButTlb(old(machine.cpu), machine.cpu)
      ensures machine.ram[..] == old(machine.ram[..])[frame * 1024 + i := w]
    {
      FakeWraps(KERNEL_BASE + frame * 0x1000 + 4 * i);
      machine.StoreWord(DS, KERNEL_BASE + frame * 0x1000 + 4 * i, w, frame * 1024 + i);
    }

    /** The loop of paging_init. */
    method FillTables()
      requires machine.Valid() && Legal(l) && FakeUnpaged(machine.cpu)
      modifies machine, machine.ram
      ensures machine.Valid() && SameButTlb(old(machine.cpu), machine.cpu)
      ensures Cleared(machine.ram[..], l, 1024) && SameOutsideTables(l, old(machine.ram[..]), machine.ram[..])
    {
      ghost var m0, c := machine.ram[..], machine.cpu;
      for i := 0 to 1024
        invariant machine.Valid() && SameButTlb(c, machine.cpu)
        invariant Cleared(machine.ram[..], l, i) && SameOutsideTables(l, m0, machine.ram[..])
      {
        ghost var m: seq<U32> := machine.ram[..];
        ghost var m': seq<U32> := m[l.low * 1024 + i := KernelEntry(i)][l.dir * 1024 + i := 0][l.misc * 1024 + i := 0];
        ClearStep(m0, m, m', l, i);
        var entry := KernelFlags(i * 0x1000, i);
        StoreEntry(l.low, i, entry);
        StoreEntry(l.dir, i, 0);
        StoreEntry(l.misc, i, 0);
        assert machine.ram[..] == m';
      }
    }

    /** The three directory entries. */
    method FillDirectory(pLow: U32, pMisc: U32)
      requires machine.Valid() && Legal(l) && FakeUnpaged(machine.cpu)
      requires pLow == l.low * 0x1000 && pMisc == l.misc * 0x1000 && Cleared(machine.ram[..], l, 1024)
      modifies machine, machine.ram
      ensures machine.Valid() && SameButTlb(old(machine.cpu), machine.cpu)
      ensures Tables(machine.ram[..], l, []) && SameOutsideTables(l, old(machine.ram[..]), machine.ram[..])
    {
      var low := KernelFlags(pLow, l.low);
      var misc := KernelFlags(pMisc, l.misc);
      ghost var m: seq<U32> := machine.ram[..];
      ghost var m': seq<U32> := m[l.dir * 1024 := low][l.dir * 1024 + 768 := low][l.dir * 1024 + 1023 := misc];
      DirectoryStep(m, m', l, low, misc);
      StoreEntry(l.dir, 0, low);
      StoreEntry(l.dir, 768, low);
      StoreEntry(l.dir, MISC_PAGEDIR, misc);
      assert machine.ram[..] == m';
    }

    /** paging_init in paging.c. */
    method PagingInit()
      requires machine.Valid() && Placed() && FakeUnpaged(machine.cpu)
      modifies this`nMiscIndex, this`requests, this`results, machine, machine.ram
      ensures Usable() && AllSegments(machine.cpu, FAKE) && Paged(machine.ram[..], machine.cpu, l, [])
      ensures KernelReached(machine.ram[..], machine.cpu)
      ensures nMiscIndex == 0 && requests == [] && results == []
      ensures SameOutsideTables(l, old(machine.ram[..]), machine.ram[..])
      ensures SameButTlb(old(machine.cpu).(paging := true, cr3 := Cr3(l)), machine.cpu)
    {
      nMiscIndex, requests, results := 0, [], [];

      FakeWraps(Kernelpagedir());
      FakeWraps(Lowpagetable());
      FakeWraps(Miscpagetable());
      var pKernelpagedir := Add32(Kernelpagedir(), 0x4000_0000);
      var pLowpagetable := Add32(Lowpagetable(), 0x4000_0000);
      var pMiscpagetable := Add32(Miscpagetable(), 0x4000_0000);

      FillTables();
      FillDirectory(pLowpagetable, pMiscpagetable);
      machine.EnablePaging(pKernelpagedir);
      PagedReaches(machine.ram[..], machine.cpu, l, []);
    }

    /** _start and the first two calls of arch_entry.  Every kernel address reaches the same
        physical byte in all three phases, and the last phase is one in which paging_map works. */
    method Boot() returns (ghost m1: seq<U32>, ghost c1: Cpu, ghost m2: seq<U32>, ghost c2: Cpu)
      requires machine.Valid() && Placed()
      requires !machine.cpu.paging && AllSegments(machine.cpu, FLAT) && SetupLoaded(machine.image)
      modifies this`nMiscIndex, this`requests, this`results, machine, machine.ram
      // phase 1: the fake segments, with two accessed bits set in .setup
      ensures |m1| == WORDS && FakeUnpaged(c1) && KernelReached(m1, c1)
      ensures Marked(old(machine.image), ImageOf(m1), FAKE_GDT + 6 + 0x08, FAKE_GDT + 6 + 0x10)
      ensures SameButTlb(old(machine.cpu).(segment := c1.segment, gdtLimit := 23, gdtBase := FAKE_GDT + 6), c1)
      // phase 2: paging, with nothing but the tables written
      ensures |m2| == WORDS && Paged(m2, c2, l, []) && AllSegments(c2, FAKE) && KernelReached(m2, c2)
      ensures SameOutsideTables(l, m1, m2) && SameButTlb(c1.(paging := true, cr3 := Cr3(l)), c2)
      // phase 3: flat segments, with nothing but gdt and p_gdt written
      ensures Running() && requests == [] && KernelReached(machine.ram[..], machine.cpu)
      ensures KernelGates(machine.image, Real(gdt)) && GatesLoaded(machine.image, Real(gdt))
      ensures SameBesideGdt(ImageOf(m2), machine.image, Real(gdt), Real(pGdt))
      ensures SameButTlb(c2.(segment := machine.cpu.segment, gdtLimit := 23, gdtBase := gdt), machine.cpu)
    {
      Start();
      m1, c1 := machine.ram[..], machine.cpu;
      PagingInit();
      m2, c2 := machine.ram[..], machine.cpu;
      GdtInit();
    }
  }

  /** A segment load from a selector beyond the limit faults: gdt_init's limit leaves 0, 8 and 16,
      and puts the two user gates, selectors 0x18 and 0x20, out of reach. */
  lemma ReachableSelectors(c: Cpu, selector: U16)
    requires c.gdtLimit == 23 && selector % 8 == 0
    ensures Fetchable(c, selector) <==> selector in {0x00, 0x08, 0x10}
  {
  }
}
