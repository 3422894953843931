/** What paging.c sets up and extends: the shape of the three tables, the translation they stand
    for, and every run of the kernel's mapping calls interleaved with the processor's own steps
    (TLB fills and evictions, accessed and dirty bits) and with stores to other memory. */
module Paging {
  import opened Bits
  import opened X86

  const MISC_PAGEDIR: nat := 1023

  /** The physical page frames of kernelpagedir, lowpagetable and miscpagetable. */
  datatype Layout = Layout(dir: nat, low: nat, misc: nat)

  /** The tables are page aligned and lie, without overlap, in the first 4 MiB. */
  predicate Legal(l: Layout) {
    l.dir < 1024 && l.low < 1024 && l.misc < 1024 &&
    l.dir != l.low && l.dir != l.misc && l.low != l.misc
  }

  function Cr3(l: Layout): U32
    requires Legal(l)
  {
    l.dir * 0x1000
  }

  /** Does the word with this index belong to one of the tables? */
  predicate InTables(l: Layout, word: nat) {
    word / 1024 == l.dir || word / 1024 == l.low || word / 1024 == l.misc
  }

  /** The arguments of one call of paging_map. */
  datatype Request = Request(physical: U32, flags: U16)

  // ---------- the `|` expressions of paging.c ----------

  lemma SpillBound(p: nat, h: nat)
    requires p < 0x10_0000 && h < 16
    ensures Or(p, h) < 0x10_0000
  {
    Shl20(1);
    OrBound(p, h, 20);
  }

  /** The page number an entry gets: flag bits from bit 12 up spill into it. */
  function EntryFrame(r: Request): (h: nat)
    ensures h < 0x10_0000
  {
    if r.flags < 0x1000 then r.physical / 0x1000
    else
      SpillBound(r.physical / 0x1000, r.flags / 0x1000);
      Or(r.physical / 0x1000, r.flags / 0x1000)
  }

  function EntryFor(r: Request): U32 {
    EntryFrame(r) * 0x1000 + r.flags % 0x1000 / 2 * 2 + 1
  }

  /** EntryFor is what `physaddr | flags | 0x01` computes. */
  lemma EntryExpression(r: Request)
    ensures Or(Or(r.physical / 0x1000 * 0x1000, r.flags), 0x01) == EntryFor(r)
  {
    var p, h, f := r.physical / 0x1000, r.flags / 0x1000, r.flags % 0x1000;
    OrPageHigh(p, h, f);
    OrPageLow(Or(p, h), f, 1);
    OrOne(f);
    OrZero(p);
  }

  /** The pointer for call number n: page n, modulo 1024, of the window of directory entry 1023. */
  function Pointer(n: U16, physical: U32): U32 {
    (0xFFC00 + n % 1024) * 0x1000 + physical % 0x1000
  }

  lemma FoldedIndex(n: U16)
    ensures Or(1023 * 1024, n) == 0xFFC00 + n % 1024
  {
    var h, l := n / 1024, n % 1024;
    Shl10(1023);
    Shl10(h);
    Shl10(1);
    OrSplit(10, 1023, 0, h, l);
    OrZero(l);
    OrOnes(10, h);
  }

  /** Pointer is what `(MISC_PAGEDIR << 22) | (nMiscIndex << 12) | (physical & 0xFFF)` computes. */
  lemma PointerExpression(n: U16, physical: U32)
    ensures Or(Or(MISC_PAGEDIR * 0x40_0000, n * 0x1000), physical % 0x1000) == Pointer(n, physical)
  {
    var page, off := 0xFFC00 + n % 1024, physical % 0x1000;
    FoldedIndex(n);
    OrPageHigh(1023 * 1024, n, 0);
    assert Or(MISC_PAGEDIR * 0x40_0000, n * 0x1000) == page * 0x1000;
    OrPageLow(page, 0, off);
    OrZero(off);
  }

  /** The entry for page frame f, present and writable: `f << 12 | 0x3`. */
  function KernelEntry(f: nat): U32
    requires f < 0x10_0000
  {
    f * 0x1000 + 3
  }

  lemma KernelEntryExpression(f: nat)
    requires f < 0x10_0000
    ensures Or(f * 0x1000, 0x3) == KernelEntry(f)
  {
    OrPageLow(f, 0, 3);
    OrZero(3);
  }

  lemma ViewOfKernelEntry(f: nat)
    requires f < 0x10_0000
    ensures View(KernelEntry(f)) == Pte(f, 3)
  {
    ViewOfPack(f, 0, 3);
  }

  /** What the processor makes of the entry for a request. */
  function PteFor(r: Request): Pte {
    Pte(EntryFrame(r), r.flags % 0x20 / 2 * 2 + 1)
  }

  lemma ViewOfEntry(r: Request)
    ensures View(EntryFor(r)) == PteFor(r)
  {
    var f := r.flags % 0x1000;
    var middle, low := f / 0x20, f % 0x20;
    assert f / 2 * 2 == middle * 0x20 + low / 2 * 2;
    assert r.flags % 0x20 == low;
    ViewOfPack(EntryFrame(r), middle, low / 2 * 2 + 1);
  }

  // ---------- the tables, and the translation they stand for ----------

  ghost predicate DirTable(m: seq<U32>, l: Layout)
    requires |m| == WORDS && Legal(l)
  {
    && View(Entry(m, l.dir, 0)) == Pte(l.low, 3)
    && View(Entry(m, l.dir, 768)) == Pte(l.low, 3)
    && View(Entry(m, l.dir, MISC_PAGEDIR)) == Pte(l.misc, 3)
    && forall i: nat | i < 1024 && i != 0 && i != 768 && i != MISC_PAGEDIR ::
         !View(Entry(m, l.dir, i)).Present()
  }

  ghost predicate LowTable(m: seq<U32>, l: Layout)
    requires |m| == WORDS && Legal(l)
  {
    forall i: nat | i < 1024 :: View(Entry(m, l.low, i)) == Pte(i, 3)
  }

  ghost predicate MiscTable(m: seq<U32>, l: Layout, rs: seq<Request>)
    requires |m| == WORDS && Legal(l)
  {
    forall i: nat | i < 1024 ::
      if i < |rs| then View(Entry(m, l.misc, i)) == PteFor(rs[i]) else !View(Entry(m, l.misc, i)).Present()
  }

  /** The tables after the calls rs, in order. */
  ghost predicate Tables(m: seq<U32>, l: Layout, rs: seq<Request>)
    requires |m| == WORDS && Legal(l)
  {
    |rs| <= 1024 && DirTable(m, l) && LowTable(m, l) && MiscTable(m, l, rs)
  }

  /** The page that a table entry reached through directory entry 1023 maps. */
  function MiscMapping(e: Pte): Mapping { Mapping(e.frame, e.flags, e.Writable(), false) }

  /** The translation after the calls rs, without tables: two windows onto the first 4 MiB, and
      one page for each call. */
  function Expected(rs: seq<Request>, page: nat): Option<Mapping> {
    if page < 1024 then Some(Mapping(page, 3, true, false))
    else if 0xC0000 <= page < 0xC0400 then Some(Mapping(page - 0xC0000, 3, true, false))
    else if 0xFFC00 <= page < 0xFFC00 + |rs| then Some(MiscMapping(PteFor(rs[page - 0xFFC00])))
    else None
  }

  lemma WalkAtExpected(m: seq<U32>, l: Layout, rs: seq<Request>, i: nat, j: nat)
    requires |m| == WORDS && Legal(l) && Tables(m, l, rs) && i < 1024 && j < 1024
    ensures WalkAt(m, l.dir, i, j)
            == if i == 0 || i == 768 then Some(Mapping(j, 3, true, false))
               else if i == MISC_PAGEDIR && j < |rs| then Some(MiscMapping(PteFor(rs[j])))
               else None
  {
    if i == 0 || i == 768 {
      assert View(Entry(m, l.low, j)) == Pte(j, 3);
    } else if i == MISC_PAGEDIR && j < |rs| {
      assert View(Entry(m, l.misc, j)) == PteFor(rs[j]);
    } else if i == MISC_PAGEDIR {
      assert !View(Entry(m, l.misc, j)).Present();
    }
  }

  /** The two-level walk over the tables gives exactly the expected translation. */
  lemma WalkIsExpected(m: seq<U32>, l: Layout, rs: seq<Request>, page: nat)
    requires |m| == WORDS && Legal(l) && Tables(m, l, rs) && page < 0x10_0000
    ensures Walk(m, Cr3(l), page) == Expected(rs, page)
  {
    var i, j := page / 1024, page % 1024;
    assert page == 1024 * i + j;
    assert Cr3(l) / 0x1000 == l.dir;
    WalkAtExpected(m, l, rs, i, j);
  }

  // ---------- what one call promises ----------

  lemma PointerPage(n: U16, physical: U32)
    ensures Pointer(n, physical) / 0x1000 == 0xFFC00 + n % 1024
    ensures Pointer(n, physical) % 0x1000 == physical % 0x1000
  {
    Split(0xFFC00 + n % 1024, physical % 0x1000);
  }

  /** nMiscIndex is a uint16_t that nothing bounds, and from call number 1024 on the `|` folds it
      back: a call returns a page that no earlier call returned if and only if it is among the
      first 1024. */
  lemma FreshPageIff(n: U16)
    ensures (forall m: U16, p: U32, q: U32 :: m < n ==> Pointer(m, p) / 0x1000 != Pointer(n, q) / 0x1000)
            <==> n < 1024
  {
    forall m: U16, p: U32, q: U32 | m < n && n < 1024
      ensures Pointer(m, p) / 0x1000 != Pointer(n, q) / 0x1000
    {
      PointerPage(m, p);
      PointerPage(n, q);
    }
    if n >= 1024 {
      PointerPage(n - 1024, 0);
      PointerPage(n, 0);
      assert Pointer(n - 1024, 0) / 0x1000 == Pointer(n, 0) / 0x1000;
    }
  }

  /** Some flag bit from bit 12 up, where the page number begins, is not already set in the address;
      the code masks none off. */
  predicate Spills(r: Request) {
    exists k: nat | 12 <= k < 16 :: HasBit(r.flags, k) && !HasBit(r.physical, k)
  }

  /** Exactly then the entry gets another page number than the address has. */
  lemma SpillsIff(r: Request)
    ensures Spills(r) <==> EntryFrame(r) != r.physical / 0x1000
  {
    var p, h := r.physical / 0x1000, r.flags / 0x1000;
    OrAddsNothingIff(p, h);
    OrZero(p);
    forall k: nat
      ensures HasBit(r.flags, k + 12) == HasBit(h, k) && HasBit(r.physical, k + 12) == HasBit(p, k)
      ensures HasBit(h, k) ==> k < 4
    {
      BitAtPage(r.flags, k);
      BitAtPage(r.physical, k);
      if k >= 4 {
        BitAtHigh(h, k - 4);
        NoBits(k - 4);
      }
    }
    assert EntryFrame(r) == Or(p, h);
    if Or(p, h) != p {
      var k: nat :| HasBit(h, k) && !HasBit(p, k);
      assert HasBit(r.flags, k + 12) && !HasBit(r.physical, k + 12);
    }
    if Spills(r) {
      var k: nat :| 12 <= k < 16 && HasBit(r.flags, k) && !HasBit(r.physical, k);
      BitAtPage(r.flags, k - 12);
      BitAtPage(r.physical, k - 12);
      assert HasBit(h, k - 12) && !HasBit(p, k - 12);
    }
  }

  lemma ExpectedOfCall(rs: seq<Request>, i: nat)
    requires i < |rs| <= 1024
    ensures Expected(rs, 0xFFC00 + i) == Some(MiscMapping(PteFor(rs[i])))
  {
  }

  /** The pointer of call i reaches the requested physical address, offset included, exactly when
      no flag bit spills into the page number: all flags below bit 12 are safe, and a flag bit from
      there up exactly if the address has it too. */
  lemma PointerReachesIff(rs: seq<Request>, i: nat)
    requires i < |rs| <= 1024
    ensures var v := Pointer(i, rs[i].physical);
            var t := Expected(rs, v / 0x1000);
            && t.Some?
            && (t.value.frame * 0x1000 + v % 0x1000 == rs[i].physical <==> !Spills(rs[i]))
  {
    PointerPage(i, rs[i].physical);
    ExpectedOfCall(rs, i);
    SpillsIff(rs[i]);
  }

  /** Flags with bit 12 set map the local APIC one page too high. */
  lemma LargeFlagsMissTarget()
    ensures var rs := [Request(0xFEE0_0000, 0x1002)];
            var t := Expected(rs, Pointer(0, 0xFEE0_0000) / 0x1000);
            t.Some? && t.value.frame == 0xFEE01
  {
    var rs := [Request(0xFEE0_0000, 0x1002)];
    PointerPage(0, 0xFEE0_0000);
    ExpectedOfCall(rs, 0);
    OrOne(0xFEE00);
  }

  /** The mapping asked for: the page of the address, and the flags plus present.  PAGING_USERLAND
      grants nothing, since directory entry 1023 is a supervisor entry. */
  function MappingFor(r: Request): Mapping {
    Mapping(r.physical / 0x1000, r.flags % 0x20 / 2 * 2 + 1, r.flags / 2 % 2 == 1, false)
  }

  lemma LowRights(flags: U16)
    ensures (flags % 0x20 / 2 * 2 + 1) / 2 % 2 == flags / 2 % 2
    ensures (flags % 0x20 / 2 * 2 + 1) % 2 == 1
  {
    var k, g := flags / 0x20, flags % 0x20 / 2;
    assert flags / 2 == 16 * k + g;
    assert (16 * k + g) % 2 == g % 2;
    assert (g * 2 + 1) / 2 == g;
  }

  lemma CallMapping(r: Request)
    requires !Spills(r)
    ensures MiscMapping(PteFor(r)) == MappingFor(r)
  {
    SpillsIff(r);
    LowRights(r.flags);
  }

  /** The translation of page j if the requested page were the table for it. */
  function ThroughPage(m: seq<U32>, r: Request, j: nat): Option<Mapping>
    requires |m| == WORDS && j < 1024
  {
    var pte := View(Entry(m, EntryFrame(r), j));
    if pte.Present() then Some(MappingOf(PteFor(r), pte)) else None
  }

  /** Call number 1024, which nothing stops, stores past the table: if the directory comes next in
      memory, into its entry 0.  From then on the walks of the first 4 MiB read, as their table, the
      page that the call asked to map, and the tables are in order only if that is the low table. */
  lemma LateCallHitsDirectory(m: seq<U32>, l: Layout, rs: seq<Request>, r: Request)
    requires |m| == WORDS && Legal(l) && Tables(m, l, rs) && |rs| == 1024 && l.dir == l.misc + 1
    ensures var m' := m[l.misc * 1024 + |rs| := EntryFor(r)];
            && (forall j: nat | j < 1024 :: Walk(m', Cr3(l), j) == ThroughPage(m', r, j))
            && (EntryFrame(r) != l.low ==> !Tables(m', l, rs))
  {
    ViewOfEntry(r);
    var m' := m[l.misc * 1024 + |rs| := EntryFor(r)];
    assert View(Entry(m', l.dir, 0)) == PteFor(r);
    forall j: nat | j < 1024
      ensures Walk(m', Cr3(l), j) == ThroughPage(m', r, j)
    {
      assert Cr3(l) / 0x1000 == l.dir && j / 1024 == 0 && j % 1024 == j;
      LowRights(r.flags);
    }
    if EntryFrame(r) != l.low { assert View(Entry(m', l.dir, 0)) != Pte(l.low, 3); }
  }

  // ---------- every run ----------

  datatype System = System(mem: seq<U32>, tlb: Tlb, requests: seq<Request>, results: seq<U32>)

  /** Fill and Use are the processor's; Drop is an eviction or an invlpg; Store is any store of
      the kernel; MapPage is paging_map up to, and without, its invlpg. */
  datatype Step =
    | Fill(page: nat)
    | Drop(page: nat)
    | Use(page: nat, write: bool)
    | Store(lin: U32, value: U32)
    | MapPage(physical: U32, flags: U16)

  function UsedEntry(m: seq<U32>, frame: nat, i: nat, write: bool): (m': seq<U32>)
    requires |m| == WORDS && frame < 0x10_0000 && i < 1024
    ensures |m'| == WORDS
  {
    m[frame * 1024 + i := Used(Entry(m, frame, i), write)]
  }

  /** Memory after the processor used the translation of a page: both entries are marked. */
  function Touched(m: seq<U32>, dir: nat, page: nat, write: bool): (m': seq<U32>)
    requires |m| == WORDS && dir < 0x10_0000 && page < 0x10_0000
    ensures |m'| == WORDS
  {
    var pde := View(Entry(m, dir, page / 1024));
    UsedEntry(UsedEntry(m, dir, page / 1024, false), pde.frame, page % 1024, write)
  }

  /** The physical word a store goes to, through the TLB when it has the page. */
  function Target(l: Layout, s: System, lin: U32): Option<nat>
    requires |s.mem| == WORDS && Legal(l)
  {
    match Lookup(s.mem, Cr3(l), s.tlb, lin / 0x1000)
    case None => None
    case Some(t) => Some(t.frame * 1024 + lin % 0x1000 / 4)
  }

  ghost predicate Enabled(l: Layout, s: System, step: Step)
    requires |s.mem| == WORDS && Legal(l)
  {
    match step
    case Fill(page) => page < 0x10_0000 && Walk(s.mem, Cr3(l), page).Some?
    case Drop(_) => true
    case Use(page, _) => page < 0x10_0000 && Walk(s.mem, Cr3(l), page).Some?
    case Store(lin, _) =>
      var t := Target(l, s, lin);
      t.Some? && t.value < WORDS && !InTables(l, t.value)
    case MapPage(_, _) => |s.requests| < 1024
  }

  function Next(l: Layout, s: System, step: Step): (s': System)
    requires |s.mem| == WORDS && Legal(l) && Enabled(l, s, step)
    ensures |s'.mem| == WORDS
  {
    match step
    case Fill(page) => s.(tlb := s.tlb[page := Walk(s.mem, Cr3(l), page).value])
    case Drop(page) => s.(tlb := s.tlb - {page})
    case Use(page, write) => s.(mem := Touched(s.mem, l.dir, page, write))
    case Store(lin, value) => s.(mem := s.mem[Target(l, s, lin).value := value])
    case MapPage(physical, flags) =>
      var n, r := |s.requests|, Request(physical, flags);
      System(s.mem[l.misc * 1024 + n := EntryFor(r)], s.tlb, s.requests + [r], s.results + [Pointer(n, physical)])
  }

  ghost predicate Inv(l: Layout, s: System) {
    && Legal(l) && |s.mem| == WORDS
    && Tables(s.mem, l, s.requests)
    && Coherent(s.mem, Cr3(l), s.tlb)
    && |s.results| == |s.requests|
    && forall i | 0 <= i < |s.results| :: s.results[i] == Pointer(i, s.requests[i].physical)
  }

  /** Tables that stand for no fewer calls keep every cached translation right. */
  lemma StaysCoherent(l: Layout, m: seq<U32>, rs: seq<Request>, m': seq<U32>, rs': seq<Request>, tlb: Tlb)
    requires Legal(l) && |m| == |m'| == WORDS && rs <= rs'
    requires Tables(m, l, rs) && Tables(m', l, rs') && Coherent(m, Cr3(l), tlb)
    ensures Coherent(m', Cr3(l), tlb)
  {
    forall p | p in tlb
      ensures Walk(m', Cr3(l), p) == Some(tlb[p])
    {
      WalkIsExpected(m, l, rs, p);
      WalkIsExpected(m', l, rs', p);
    }
  }

  /** Changing a word outside the tables, or one whose view stays, keeps the tables. */
  lemma TablesKept(l: Layout, m: seq<U32>, k: nat, w: U32, rs: seq<Request>)
    requires Legal(l) && |m| == WORDS && Tables(m, l, rs) && k < WORDS
    requires InTables(l, k) ==> View(w) == View(m[k])
    ensures Tables(m[k := w], l, rs)
  {
    var m' := m[k := w];
    forall i: nat | i < 1024
      ensures View(Entry(m', l.dir, i)) == View(Entry(m, l.dir, i))
      ensures View(Entry(m', l.low, i)) == View(Entry(m, l.low, i))
      ensures View(Entry(m', l.misc, i)) == View(Entry(m, l.misc, i))
    {
    }
  }

  lemma MarkingKeepsTables(l: Layout, m: seq<U32>, rs: seq<Request>, frame: nat, i: nat, write: bool)
    requires Legal(l) && |m| == WORDS && Tables(m, l, rs) && frame < 0x10_0000 && i < 1024
    ensures Tables(UsedEntry(m, frame, i, write), l, rs)
  {
    UsedKeepsView(Entry(m, frame, i), write);
    TablesKept(l, m, frame * 1024 + i, Used(Entry(m, frame, i), write), rs);
  }

  lemma UseKeepsTables(l: Layout, m: seq<U32>, rs: seq<Request>, page: nat, write: bool)
    requires Legal(l) && |m| == WORDS && Tables(m, l, rs) && page < 0x10_0000
    ensures Tables(Touched(m, l.dir, page, write), l, rs)
  {
    var frame := View(Entry(m, l.dir, page / 1024)).frame;
    MarkingKeepsTables(l, m, rs, l.dir, page / 1024, false);
    MarkingKeepsTables(l, UsedEntry(m, l.dir, page / 1024, false), rs, frame, page % 1024, write);
  }

  /** The entry that paging_map stores is the next one of the table, and nothing else changes. */
  lemma MapKeepsTables(l: Layout, m: seq<U32>, rs: seq<Request>, r: Request)
    requires Legal(l) && |m| == WORDS && Tables(m, l, rs) && |rs| < 1024
    ensures Tables(m[l.misc * 1024 + |rs| := EntryFor(r)], l, rs + [r])
  {
    var m', rs' := m[l.misc * 1024 + |rs| := EntryFor(r)], rs + [r];
    ViewOfEntry(r);
    forall i: nat | i < 1024
      ensures Entry(m', l.dir, i) == Entry(m, l.dir, i) && Entry(m', l.low, i) == Entry(m, l.low, i)
      ensures Entry(m', l.misc, i) == if i == |rs| then EntryFor(r) else Entry(m, l.misc, i)
    {
    }
  }

  lemma StepKeepsInv(l: Layout, s: System, step: Step)
    requires Inv(l, s) && Enabled(l, s, step)
    ensures Inv(l, Next(l, s, step))
  {
    var s' := Next(l, s, step);
    match step {
      case Fill(_) =>
      case Drop(_) =>
      case Use(page, write) => UseKeepsTables(l, s.mem, s.requests, page, write);
      case Store(lin, value) => TablesKept(l, s.mem, Target(l, s, lin).value, value, s.requests);
      case MapPage(physical, flags) => MapKeepsTables(l, s.mem, s.requests, Request(physical, flags));
    }
    StaysCoherent(l, s.mem, s.requests, s'.mem, s'.requests, s.tlb);
  }

  ghost predicate RunEnabled(l: Layout, s: System, steps: seq<Step>)
    requires |s.mem| == WORDS && Legal(l)
    decreases |steps|
  {
    steps == [] || (Enabled(l, s, steps[0]) && RunEnabled(l, Next(l, s, steps[0]), steps[1..]))
  }

  ghost function Run(l: Layout, s: System, steps: seq<Step>): System
    requires |s.mem| == WORDS && Legal(l) && RunEnabled(l, s, steps)
    decreases |steps|
  {
    if steps == [] then s else Run(l, Next(l, s, steps[0]), steps[1..])
  }

  /** In every run the tables stay as described, every cached translation agrees with the walk at
      every point (not only after an invlpg), and no call is ever forgotten. */
  lemma {:induction false} RunKeepsInv(l: Layout, s: System, steps: seq<Step>)
    requires Inv(l, s) && RunEnabled(l, s, steps)
    ensures var s' := Run(l, s, steps);
            Inv(l, s') && s.requests <= s'.requests && s.results <= s'.results
    decreases |steps|
  {
    if steps != [] {
      StepKeepsInv(l, s, steps[0]);
      RunKeepsInv(l, Next(l, s, steps[0]), steps[1..]);
    }
  }

  /** The processor's lookup, cached or not, is the expected translation. */
  lemma LookupIsExpected(l: Layout, s: System, page: nat)
    requires Inv(l, s) && page < 0x10_0000
    ensures Lookup(s.mem, Cr3(l), s.tlb, page) == Expected(s.requests, page)
  {
    WalkIsExpected(s.mem, l, s.requests, page);
  }

  /** The processor sends the pointer v to the requested physical page with the requested rights,
      and v has the requested offset in that page. */
  ghost predicate Serves(l: Layout, s: System, r: Request, v: U32)
    requires Legal(l) && |s.mem| == WORDS
  {
    Lookup(s.mem, Cr3(l), s.tlb, v / 0x1000) == Some(MappingFor(r)) && v % 0x1000 == r.physical % 0x1000
  }

  lemma CallTranslates(l: Layout, s: System, i: nat)
    requires Inv(l, s) && i < |s.requests|
    ensures Lookup(s.mem, Cr3(l), s.tlb, 0xFFC00 + i) == Some(MiscMapping(PteFor(s.requests[i])))
  {
    ExpectedOfCall(s.requests, i);
    LookupIsExpected(l, s, 0xFFC00 + i);
  }

  lemma ResultServes(l: Layout, s: System, i: nat)
    requires Inv(l, s) && i < |s.requests| && !Spills(s.requests[i])
    ensures Serves(l, s, s.requests[i], s.results[i])
  {
    CallTranslates(l, s, i);
    PointerPage(i, s.requests[i].physical);
    CallMapping(s.requests[i]);
  }

  lemma ResultsDisjoint(l: Layout, s: System, i: nat, j: nat)
    requires Inv(l, s) && i < |s.results| && j < |s.results| && i != j
    ensures s.results[i] / 0x1000 != s.results[j] / 0x1000
  {
    PointerPage(i, s.requests[i].physical);
    PointerPage(j, s.requests[j].physical);
  }

  /** Whatever happens after call i, its result still serves its request, and no other call's
      result lies in its page. */
  lemma ResultsStayValid(l: Layout, s: System, steps: seq<Step>, i: nat)
    requires Inv(l, s) && RunEnabled(l, s, steps)
    requires i < |s.requests| && !Spills(s.requests[i])
    ensures var s' := Run(l, s, steps);
            && Inv(l, s') && s.results <= s'.results
            && Serves(l, s', s.requests[i], s.results[i])
            && forall j | 0 <= j < |s'.results| && j != i :: s'.results[j] / 0x1000 != s'.results[i] / 0x1000
  {
    RunKeepsInv(l, s, steps);
    var s' := Run(l, s, steps);
    assert s'.requests[i] == s.requests[i] && s'.results[i] == s.results[i];
    ResultServes(l, s', i);
    forall j | 0 <= j < |s'.results| && j != i
      ensures s'.results[j] / 0x1000 != s'.results[i] / 0x1000
    {
      ResultsDisjoint(l, s', i, j);
    }
  }

  /** After n calls an address translates if and only if it lies in one of three ranges, and the
      two 4 MiB windows are aliases of the first 4 MiB of physical memory. */
  lemma TranslatesIff(l: Layout, s: System, lin: U32)
    requires Inv(l, s)
    ensures var t := Lookup(s.mem, Cr3(l), s.tlb, lin / 0x1000);
            && (t.Some? <==> || lin < 0x40_0000
                             || 0xC000_0000 <= lin < 0xC040_0000
                             || 0xFFC0_0000 <= lin < 0xFFC0_0000 + 0x1000 * |s.requests|)
            && (lin < 0x40_0000 ==> t.value.frame * 0x1000 + lin % 0x1000 == lin)
            && (0xC000_0000 <= lin < 0xC040_0000 ==>
                  t.value.frame * 0x1000 + lin % 0x1000 == lin - 0xC000_0000)
  {
    LookupIsExpected(l, s, lin / 0x1000);
  }
}
