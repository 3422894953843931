/** The parts of an i686 that translate an address: physical memory, segment descriptors
    (section 3.4.5 of the Intel SDM, Volume 3A), the two-level page walk (section 4.3) and the
    translation lookaside buffer (section 4.10). */
module X86 {
  import opened Bits

  datatype Option<+T> = None | Some(value: T)

  // ---------- physical memory ----------

  /** Physical memory is one word array: word i holds the bytes 4i..4i+3. */
  const WORDS: nat := 0x4000_0000

  /** Entry i of the table that fills page frame `frame`. */
  function Entry(m: seq<U32>, frame: nat, i: nat): U32
    requires |m| == WORDS && frame < 0x10_0000 && i < 1024
  {
    m[frame * 1024 + i]
  }

  function ByteOf(w: U32, k: nat): U8
    requires k < 4
  {
    if k == 0 then w % 0x100 else ByteOf(w / 0x100, k - 1)
  }

  function Join(b0: U8, b1: U8, b2: U8, b3: U8): U32 {
    b0 + 0x100 * (b1 + 0x100 * (b2 + 0x100 * b3))
  }

  function Half(b0: U8, b1: U8): U16 {
    b0 + 0x100 * b1
  }

  lemma JoinBytes(b0: U8, b1: U8, b2: U8, b3: U8)
    ensures var w := Join(b0, b1, b2, b3);
            ByteOf(w, 0) == b0 && ByteOf(w, 1) == b1 && ByteOf(w, 2) == b2 && ByteOf(w, 3) == b3
  {
    var w2: U32 := b2 + 0x100 * b3;
    var w1: U32 := b1 + 0x100 * w2;
    var w: U32 := b0 + 0x100 * w1;
    assert w / 0x100 == w1 && w1 / 0x100 == w2 && w2 / 0x100 == b3;
    assert ByteOf(w, 3) == ByteOf(w1, 2) == ByteOf(w2, 1) == ByteOf(b3, 0);
    assert ByteOf(w, 2) == ByteOf(w1, 1) == ByteOf(w2, 0);
  }

  function WithByte(w: U32, k: nat, b: U8): U32
    requires k < 4
  {
    var byte := (j: nat) requires j < 4 => if j == k then b else ByteOf(w, j);
    Join(byte(0), byte(1), byte(2), byte(3))
  }

  lemma WithByteBytes(w: U32, k: nat, b: U8)
    requires k < 4
    ensures forall j | 0 <= j < 4 :: ByteOf(WithByte(w, k, b), j) == if j == k then b else ByteOf(w, j)
  {
    var byte := (j: nat) requires j < 4 => if j == k then b else ByteOf(w, j);
    JoinBytes(byte(0), byte(1), byte(2), byte(3));
  }

  function MemByte(m: seq<U32>, pa: U32): U8
    requires |m| == WORDS
  {
    ByteOf(m[pa / 4], pa % 4)
  }

  function PutByte(m: seq<U32>, pa: U32, b: U8): (r: seq<U32>)
    requires |m| == WORDS
    ensures |r| == WORDS
  {
    m[pa / 4 := WithByte(m[pa / 4], pa % 4, b)]
  }

  /** Storing a byte changes that byte of memory only. */
  lemma PutByteBytes(m: seq<U32>, pa: U32, b: U8)
    requires |m| == WORDS
    ensures forall q: U32 :: MemByte(PutByte(m, pa, b), q) == if q == pa then b else MemByte(m, q)
  {
    forall q: U32
      ensures MemByte(PutByte(m, pa, b), q) == if q == pa then b else MemByte(m, q)
    {
      WithByteBytes(m[pa / 4], pa % 4, b);
    }
  }

  // ---------- paging ----------

  /** What the processor uses of a table entry: the page frame and the five low flag bits (present,
      writable, user, write-through, cache disable), which are the ones paging.h names. */
  datatype Pte = Pte(frame: nat, flags: nat) {
    predicate Present() { flags % 2 == 1 }
    predicate Writable() { flags / 2 % 2 == 1 }
    predicate User() { flags / 4 % 2 == 1 }
  }

  function View(e: U32): Pte { Pte(e / 0x1000, e % 0x20) }

  /** What a walk yields: the frame and flags of the table entry, and the access rights, which
      directory and table entry must both grant. */
  datatype Mapping = Mapping(frame: nat, flags: nat, writable: bool, user: bool)

  function MappingOf(pde: Pte, pte: Pte): Mapping {
    Mapping(pte.frame, pte.flags, pde.Writable() && pte.Writable(), pde.User() && pte.User())
  }

  function WalkAt(m: seq<U32>, dir: nat, i: nat, j: nat): Option<Mapping>
    requires |m| == WORDS && dir < 0x10_0000 && i < 1024 && j < 1024
  {
    var pde := View(Entry(m, dir, i));
    if !pde.Present() then None
    else
      var pte := View(Entry(m, pde.frame, j));
      if pte.Present() then Some(MappingOf(pde, pte)) else None
  }

  /** The walk for a linear page (a linear address divided by 4096). */
  function Walk(m: seq<U32>, cr3: U32, page: nat): Option<Mapping>
    requires |m| == WORDS && page < 0x10_0000
  {
    WalkAt(m, cr3 / 0x1000, page / 1024, page % 1024)
  }

  type Tlb = map<nat, Mapping>

  /** Every cached translation is the one the walk would give. */
  ghost predicate Coherent(m: seq<U32>, cr3: U32, tlb: Tlb)
    requires |m| == WORDS
  {
    forall p | p in tlb :: p < 0x10_0000 && Walk(m, cr3, p) == Some(tlb[p])
  }

  /** The processor uses a cached translation when it has one, and walks otherwise. */
  function Lookup(m: seq<U32>, cr3: U32, tlb: Tlb, page: nat): Option<Mapping>
    requires |m| == WORDS && page < 0x10_0000
  {
    if page in tlb then Some(tlb[page]) else Walk(m, cr3, page)
  }

  /** The entry with this page frame, these bits 5 to 11 and these low flags. */
  function Pack(frame: nat, middle: nat, flags: nat): U32
    requires frame < 0x10_0000 && middle < 0x80 && flags < 0x20
  {
    (frame * 0x80 + middle) * 0x20 + flags
  }

  /** The entry with the accessed bit (5), and after a write the dirty bit (6), set. */
  function Used(e: U32, write: bool): U32 {
    var middle := e / 0x20 % 0x80;
    Pack(e / 0x1000, middle / 4 * 4 + (if write || middle / 2 % 2 == 1 then 3 else 1), e % 0x20)
  }

  lemma LowFlags(q: nat, flags: nat)
    requires flags < 0x20
    ensures (q * 0x20 + flags) % 0x20 == flags
  {
  }

  lemma ViewOfPack(frame: nat, middle: nat, flags: nat)
    requires frame < 0x10_0000 && middle < 0x80 && flags < 0x20
    ensures View(Pack(frame, middle, flags)) == Pte(frame, flags)
  {
    LowFlags(frame * 0x80 + middle, flags);
    assert Pack(frame, middle, flags) == frame * 0x1000 + (middle * 0x20 + flags);
    Split(frame, middle * 0x20 + flags);
  }

  lemma UsedKeepsView(e: U32, write: bool)
    ensures View(Used(e, write)) == View(e)
  {
    var middle := e / 0x20 % 0x80;
    ViewOfPack(e / 0x1000, middle / 4 * 4 + (if write || middle / 2 % 2 == 1 then 3 else 1), e % 0x20);
  }

  // ---------- segmentation ----------

  /** The hidden part of a segment register; a wide code segment runs 32-bit code, and a wide stack
      segment has a 32-bit stack pointer. */
  datatype Segment = Segment(base: U32, limit: U32, wide: bool)

  /** The 8 bytes of a descriptor, in memory order. */
  datatype Descriptor = Descriptor(b0: U8, b1: U8, b2: U8, b3: U8, b4: U8, b5: U8, b6: U8, b7: U8)

  /** Section 3.4.5: the base is scattered over bytes 2, 3, 4 and 7, the limit over bytes 0, 1 and
      the low half of byte 6, and the G flag, the top bit of byte 6, makes the limit count pages.
      The bit below it is the D/B flag. */
  function Decode(d: Descriptor): Segment {
    var limit := d.b0 + 0x100 * d.b1 + 0x1_0000 * (d.b6 % 16);
    Segment(Join(d.b2, d.b3, d.b4, d.b7), if d.b6 >= 0x80 then 0x1000 * limit + 0xFFF else limit,
            d.b6 / 0x40 % 2 == 1)
  }

  datatype SegReg = CS | DS | ES | FS | GS | SS

  /** Section 3.4.5.1: what a descriptor describes, by the S flag of its access byte and the four
      type bits below it; the lowest of these, the accessed bit, makes no difference for a segment. */
  datatype Kind = SystemSegment(code: nat)
                | DataSegment(down: bool, writable: bool)
                | CodeSegment(conforming: bool, readable: bool)

  function KindOf(access: U8): Kind {
    if access / 16 % 2 == 0 then SystemSegment(access % 16)
    else if access / 8 % 2 == 0 then DataSegment(access / 4 % 2 == 1, access / 2 % 2 == 1)
    else CodeSegment(access / 4 % 2 == 1, access / 2 % 2 == 1)
  }

  predicate IsPresent(access: U8) { access >= 0x80 }

  function Privilege(access: U8): nat { access / 32 % 4 }

  /** Section 5.4: at privilege 0, whether a register can be loaded from a descriptor with this
      access byte. */
  predicate Admits(r: SegReg, access: U8) {
    && IsPresent(access)
    && match r
       case CS => KindOf(access).CodeSegment? && Privilege(access) == 0
       case SS => KindOf(access).DataSegment? && KindOf(access).writable && Privilege(access) == 0
       case _ => KindOf(access).DataSegment? || (KindOf(access).CodeSegment? && KindOf(access).readable)
  }

  /** The processor state that decides where an address goes. */
  datatype Cpu = Cpu(paging: bool, cr3: U32, tlb: Tlb, segment: map<SegReg, Segment>,
                     gdtLimit: U16, gdtBase: U32)

  ghost predicate Loaded(c: Cpu) { forall r: SegReg :: r in c.segment }

  /** The physical address of a linear one, if it does not fault. */
  function Physical(m: seq<U32>, c: Cpu, lin: U32): Option<nat>
    requires |m| == WORDS
  {
    if !c.paging then Some(lin)
    else match Lookup(m, c.cr3, c.tlb, lin / 0x1000)
         case None => None
         case Some(t) => Some(t.frame * 0x1000 + lin % 0x1000)
  }

  /** The physical address that offset v reaches through segment register r. */
  function Reach(m: seq<U32>, c: Cpu, r: SegReg, v: U32): Option<nat>
    requires |m| == WORDS && r in c.segment
  {
    Physical(m, c, Add32(c.segment[r].base, v))
  }
}
