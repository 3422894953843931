/** The processor and its memory as a machine the boot code runs on.  Every access goes through a
    segment register and, once paging is on, through the TLB or the tables; before each access the
    TLB may drop and fill any entries it likes. */
module Machine {
  import opened Bits
  import opened X86

  /** No present translation differs, so no cached one can be wrong. */
  ghost predicate WalksKept(m: seq<U32>, m': seq<U32>, cr3: U32)
    requires |m| == |m'| == WORDS
  {
    forall p: nat | p < 0x10_0000 && Walk(m, cr3, p).Some? :: Walk(m', cr3, p) == Walk(m, cr3, p)
  }

  ghost predicate Sound(m: seq<U32>, c: Cpu) {
    |m| == WORDS && Loaded(c) && (c.paging ==> Coherent(m, c.cr3, c.tlb))
  }

  /** Physical memory byte by byte. */
  type Image = U32 -> U8

  function ImageOf(m: seq<U32>): Image
    requires |m| == WORDS
  {
    (q: U32) => MemByte(m, q)
  }

  function DescriptorAt(im: Image, pa: U32): Descriptor
    requires pa + 8 <= 0x1_0000_0000
  {
    Descriptor(im(pa), im(pa + 1), im(pa + 2), im(pa + 3), im(pa + 4), im(pa + 5), im(pa + 6), im(pa + 7))
  }

  /** The states differ in the TLB only. */
  ghost predicate SameButTlb(c: Cpu, c': Cpu) { c' == c.(tlb := c'.tlb) }

  /** Where a linear address goes, by the tables alone. */
  ghost function Translate(m: seq<U32>, paging: bool, cr3: U32, lin: U32): Option<nat>
    requires |m| == WORDS
  {
    if !paging then Some(lin)
    else match Walk(m, cr3, lin / 0x1000)
         case None => None
         case Some(t) => Some(t.frame * 0x1000 + lin % 0x1000)
  }

  lemma PhysicalIsTranslate(m: seq<U32>, c: Cpu, lin: U32)
    requires Sound(m, c)
    ensures Physical(m, c, lin) == Translate(m, c.paging, c.cr3, lin)
  {
  }

  lemma StaysSound(m: seq<U32>, m': seq<U32>, c: Cpu)
    requires Sound(m, c) && |m'| == WORDS && (c.paging ==> WalksKept(m, m', c.cr3))
    ensures Sound(m', c)
  {
  }

  /** The n bytes from linear address lin on are the physical bytes from pa on. */
  ghost predicate Bytes(m: seq<U32>, paging: bool, cr3: U32, lin: U32, n: nat, pa: U32)
    requires |m| == WORDS
  {
    && pa + n <= 0x1_0000_0000 && lin + n <= 0x1_0000_0000
    && forall a: U32 | lin <= a < lin + n :: Translate(m, paging, cr3, a) == Some(pa + (a - lin))
  }

  /** The descriptor for this selector lies within the table that GDTR describes. */
  predicate Fetchable(c: Cpu, selector: U16) { selector + 7 <= c.gdtLimit }

  /** The access byte with its accessed bit (0) set. */
  function Accessed(b: U8): U8 { b / 2 * 2 + 1 }

  /** That bit changes nothing that a load looks at. */
  lemma AccessedKeeps(b: U8)
    requires !KindOf(b).SystemSegment?
    ensures KindOf(Accessed(b)) == KindOf(b) && Privilege(Accessed(b)) == Privilege(b)
    ensures IsPresent(Accessed(b)) <==> IsPresent(b)
  {
    var half, b' := b / 2, Accessed(b);
    assert b' / 2 == half;
    assert b' / 4 == half / 2 == b / 4 && b' / 8 == half / 4 == b / 8;
    assert b' / 16 == half / 8 == b / 16 && b' / 32 == half / 16 == b / 32;
  }

  class Machine {
    const ram: array<U32>
    var cpu: Cpu

    /** The bytes of ram. */
    ghost var image: Image

    ghost predicate Valid()
      reads this, ram
    {
      && ram.Length == WORDS && Sound(ram[..], cpu)
      && forall q: U32 {:trigger MemByte(ram[..], q)} :: MemByte(ram[..], q) == image(q)
    }

    /** The TLB at work: entries go, and walks are cached. */
    method Churn()
      requires Valid()
      modifies this`cpu
      ensures Valid() && SameButTlb(old(cpu), cpu) && ram[..] == old(ram[..])
    {
      if cpu.paging {
        var keep: set<nat> := *;
        var fill: set<nat> := *;
        var m, c := ram[..], cpu;
        var kept := map p | p in c.tlb && p in keep :: c.tlb[p];
        var filled := map p | p in fill && p < 0x10_0000 && Walk(m, c.cr3, p).Some? :: Walk(m, c.cr3, p).value;
        cpu := c.(tlb := kept + filled);
      }
    }

    /** An aligned 32-bit store at offset v of segment register r; k is the word it reaches. */
    method StoreWord(r: SegReg, v: U32, w: U32, ghost k: nat)
      requires Valid() && k < WORDS
      requires Translate(ram[..], cpu.paging, cpu.cr3, Add32(cpu.segment[r].base, v)) == Some(4 * k)
      requires cpu.paging ==> WalksKept(ram[..], ram[..][k := w], cpu.cr3)
      modifies this, ram
      ensures Valid() && SameButTlb(old(cpu), cpu)
      ensures ram[..] == old(ram[..])[k := w]
    {
      Churn();
      ghost var m := ram[..];
      PhysicalIsTranslate(m, cpu, Add32(cpu.segment[r].base, v));
      var pa := Reach(ram[..], cpu, r, v).value;
      ram[pa / 4] := w;
      assert ram[..] == m[k := w];
      StaysSound(m, ram[..], cpu);
      image := ImageOf(ram[..]);
    }

    /** A byte store to a linear address. */
    method SetByte(lin: U32, b: U8, ghost pa: U32)
      requires Valid() && Translate(ram[..], cpu.paging, cpu.cr3, lin) == Some(pa)
      requires cpu.paging ==> WalksKept(ram[..], PutByte(ram[..], pa, b), cpu.cr3)
      modifies this`image, ram
      ensures Valid() && ram[..] == PutByte(old(ram[..]), pa, b)
      ensures forall q: U32 :: image(q) == if q == pa then b else old(image)(q)
    {
      ghost var m, im := ram[..], image;
      PhysicalIsTranslate(m, cpu, lin);
      var at: U32 := Physical(ram[..], cpu, lin).value;
      ram[at / 4] := WithByte(ram[at / 4], at % 4, b);
      assert ram[..] == PutByte(m, pa, b);
      StaysSound(m, ram[..], cpu);
      PutByteBytes(m, pa, b);
      image := (q: U32) => if q == pa then b else im(q);
    }

    method StoreByte(r: SegReg, v: U32, b: U8, ghost pa: U32)
      requires Valid() && Translate(ram[..], cpu.paging, cpu.cr3, Add32(cpu.segment[r].base, v)) == Some(pa)
      requires cpu.paging ==> WalksKept(ram[..], PutByte(ram[..], pa, b), cpu.cr3)
      modifies this, ram
      ensures Valid() && SameButTlb(old(cpu), cpu)
      ensures ram[..] == PutByte(old(ram[..]), pa, b)
      ensures forall q: U32 :: image(q) == if q == pa then b else old(image)(q)
    {
      Churn();
      SetByte(Add32(cpu.segment[r].base, v), b, pa);
    }

    /** The byte at a linear address. */
    function Fetch(lin: U32): U8
      requires ram.Length == WORDS
      reads this, ram
    {
      match Physical(ram[..], cpu, lin)
      case Some(pa) => if pa < 0x1_0000_0000 then MemByte(ram[..], pa) else 0xFF
      case None => 0xFF
    }

    lemma FetchBytes(lin: U32, n: nat, pa: U32)
      requires Valid() && Bytes(ram[..], cpu.paging, cpu.cr3, lin, n, pa)
      ensures forall a: U32 | lin <= a < lin + n :: Fetch(a) == image(pa + (a - lin))
    {
      forall a: U32 | lin <= a < lin + n
        ensures Fetch(a) == image(pa + (a - lin))
      {
        PhysicalIsTranslate(ram[..], cpu, a);
      }
    }

    method LoadByte(r: SegReg, v: U32, ghost pa: U32) returns (b: U8)
      requires Valid() && Translate(ram[..], cpu.paging, cpu.cr3, Add32(cpu.segment[r].base, v)) == Some(pa)
      modifies this`cpu
      ensures Valid() && SameButTlb(old(cpu), cpu) && ram[..] == old(ram[..])
      ensures b == image(pa)
    {
      Churn();
      PhysicalIsTranslate(ram[..], cpu, Add32(cpu.segment[r].base, v));
      b := Fetch(Add32(cpu.segment[r].base, v));
    }

    /** lgdt: a 16-bit limit and a 32-bit linear base, read through ds. */
    method Lgdt(v: U32, ghost pa: U32)
      requires Valid() && Bytes(ram[..], cpu.paging, cpu.cr3, Add32(cpu.segment[DS].base, v), 6, pa)
      modifies this`cpu
      ensures Valid() && ram[..] == old(ram[..])
      ensures SameButTlb(old(cpu).(gdtLimit := Half(image(pa), image(pa + 1)),
                                   gdtBase := Join(image(pa + 2), image(pa + 3), image(pa + 4), image(pa + 5))), cpu)
    {
      Churn();
      var lin := Add32(cpu.segment[DS].base, v);
      FetchBytes(lin, 6, pa);
      var limit := Half(Fetch(lin), Fetch(lin + 1));
      var base := Join(Fetch(lin + 2), Fetch(lin + 3), Fetch(lin + 4), Fetch(lin + 5));
      cpu := cpu.(gdtLimit := limit, gdtBase := base);
    }

    method FetchDescriptor(lin: U32, ghost pa: U32) returns (d: Descriptor)
      requires Valid() && Bytes(ram[..], cpu.paging, cpu.cr3, lin, 8, pa)
      ensures d == DescriptorAt(image, pa)
    {
      FetchBytes(lin, 8, pa);
      d := Descriptor(Fetch(lin), Fetch(lin + 1), Fetch(lin + 2), Fetch(lin + 3),
                      Fetch(lin + 4), Fetch(lin + 5), Fetch(lin + 6), Fetch(lin + 7));
    }

    /** The register takes the descriptor just fetched, and its accessed bit is set in memory. */
    method Install(r: SegReg, d: Descriptor, lin: U32, ghost pa: U32)
      requires Valid() && Bytes(ram[..], cpu.paging, cpu.cr3, lin, 8, pa) && d == DescriptorAt(image, pa)
      requires cpu.paging ==> WalksKept(ram[..], PutByte(ram[..], pa + 5, Accessed(image(pa + 5))), cpu.cr3)
      modifies this, ram
      ensures Valid() && cpu == old(cpu).(segment := old(cpu).segment[r := Decode(d)])
      ensures ram[..] == PutByte(old(ram[..]), pa + 5, Accessed(old(image)(pa + 5)))
      ensures forall q: U32 :: image(q) == if q == pa + 5 then Accessed(old(image)(q)) else old(image)(q)
    {
      assert Translate(ram[..], cpu.paging, cpu.cr3, lin + 5) == Some(pa + 5);
      SetByte(lin + 5, Accessed(d.b5), pa + 5);
      cpu := cpu.(segment := cpu.segment[r := Decode(d)]);
    }

    /** A load of segment register r, at privilege 0, from a selector other than null for the GDT.
        A selector beyond the table's limit, or of a descriptor that is not present or of a kind that
        the register does not take, faults.  Otherwise the descriptor is fetched from the linear
        address in GDTR, not through a segment, and section 3.4.5.1 has its accessed bit set in
        memory. */
    method LoadSegment(r: SegReg, selector: U16, ghost pa: U32) returns (ok: bool)
      requires Valid() && selector % 8 == 0 && selector != 0
      requires Fetchable(cpu, selector) ==>
                 && cpu.gdtBase + selector < 0x1_0000_0000
                 && Bytes(ram[..], cpu.paging, cpu.cr3, cpu.gdtBase + selector, 8, pa)
                 && (cpu.paging ==> WalksKept(ram[..], PutByte(ram[..], pa + 5, Accessed(image(pa + 5))), cpu.cr3))
      modifies this, ram
      ensures Valid()
      ensures ok <==> Fetchable(old(cpu), selector) && Admits(r, DescriptorAt(old(image), pa).b5)
      ensures ok ==> SameButTlb(old(cpu).(segment := old(cpu).segment[r := Decode(DescriptorAt(old(image), pa))]), cpu)
      ensures ok ==> ram[..] == PutByte(old(ram[..]), pa + 5, Accessed(old(image)(pa + 5)))
      ensures ok ==> forall q: U32 :: image(q) == if q == pa + 5 then Accessed(old(image)(q)) else old(image)(q)
      ensures !ok ==> SameButTlb(old(cpu), cpu) && ram[..] == old(ram[..]) && image == old(image)
    {
      Churn();
      if selector + 7 > cpu.gdtLimit { return false; }
      var lin := cpu.gdtBase + selector;
      var d := FetchDescriptor(lin, pa);
      if !Admits(r, d.b5) { return false; }
      Install(r, d, lin, pa);
      return true;
    }

    /** mov cr3 drops the whole TLB (no entry is global), and setting CR0.PG turns paging on. */
    method EnablePaging(table: U32)
      requires Valid()
      modifies this`cpu
      ensures Valid() && ram[..] == old(ram[..])
      ensures cpu == old(cpu).(paging := true, cr3 := table, tlb := map[])
    {
      cpu := cpu.(cr3 := table, tlb := map[]);
      cpu := cpu.(paging := true);
    }

    method Invlpg(lin: U32)
      requires Valid()
      modifies this`cpu
      ensures Valid() && SameButTlb(old(cpu), cpu) && lin / 0x1000 !in cpu.tlb
    {
      cpu := cpu.(tlb := cpu.tlb - {lin / 0x1000});
    }
  }
}
