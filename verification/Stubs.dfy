/** The interrupt stubs of isr.s, instruction by instruction, on a machine stack. */
module Stubs {
  import opened Bits

  /** The entry points that the assembler macros make. */
  datatype Symbol = Isr(n: nat) | Irq(n: nat) | IrqApic(n: nat)

  predicate Exists(s: Symbol) {
    match s
    case Isr(n) => n < 32
    case Irq(n) => n < 16
    case IrqApic(n) => n < 16
  }

  /** The vectors built with ISR_ERRORCODE: their stub expects an error code on the stack. */
  predicate ExpectsErrorCode(s: Symbol) {
    s.Isr? && s.n in {8, 10, 11, 12, 13, 14}
  }

  /** The number a stub pushes: the vector for exceptions, the second macro argument for IRQs. */
  function Id(s: Symbol): nat
    requires Exists(s)
  {
    match s
    case Isr(n) => n
    case Irq(n) => 32 + n
    case IrqApic(n) => 32 + n
  }

  /** Table 6-1 of the Intel SDM, Volume 3A: the vectors below 32 for which the processor pushes an
      error code. */
  predicate ProcessorPushesErrorCode(vector: nat) {
    vector in {8, 10, 11, 12, 13, 14, 17, 21}
  }

  /** The stub class agrees with the processor for every exception but alignment check and control
      protection. */
  lemma StubMatchesProcessorIff(vector: nat)
    requires vector < 32
    ensures ExpectsErrorCode(Isr(vector)) == ProcessorPushesErrorCode(vector) <==> vector != 17 && vector != 21
  {
  }

  datatype Regs = Regs(eax: U32, ecx: U32, edx: U32, ebx: U32, ebp: U32, esi: U32, edi: U32)

  /** What a C function may leave behind: the caller-saved registers, and the 16 words of its
      argument isr_args_t, which by the calling convention are its own. */
  datatype Effect = Effect(eax: U32, ecx: U32, edx: U32, args: seq<U32>)

  /** `movw h, low half of r`. */
  function WithLow(r: U32, h: U16): U32 { r / 0x1_0000 * 0x1_0000 + h }

  lemma LowOfWithLow(r: U32, h: U16)
    ensures WithLow(r, h) % 0x1_0000 == h
  {
  }

  /** What the processor pushes: eip on top, or an error code above it. */
  function ProcessorFrame(pushesCode: bool, code: U32, eip: U32, cs: U32, eflags: U32): seq<U32> {
    (if pushesCode then [code] else []) + [eip, cs, eflags]
  }

  /** The first nine words of isr_args_t: ds (with the upper half of eax) and the registers of
      pusha.  The number, the error code and what the processor pushed follow. */
  function Saved(r: Regs, esp: U32, ds: U16): seq<U32> {
    [WithLow(r.eax, ds), r.edi, r.esi, r.ebp, esp, r.ebx, r.edx, r.ecx, r.eax]
  }

  /** The registers and ds that the stub loads back from the argument. */
  function LoadedRegs(a: seq<U32>): Regs
    requires |a| == 16
  {
    Regs(a[8], a[7], a[6], a[5], a[3], a[2], a[1])
  }

  /** The handler left every word of its argument that the stub goes on to use: all but the stored
      esp, the number, the error code and the upper half of ds. */
  predicate Keeps(seen: seq<U32>, args: seq<U32>)
    requires |seen| == |args| == 16
  {
    && args[0] % 0x1_0000 == seen[0] % 0x1_0000
    && args[1] == seen[1] && args[2] == seen[2] && args[3] == seen[3]
    && args[5] == seen[5] && args[6] == seen[6] && args[7] == seen[7] && args[8] == seen[8]
    && args[11..] == seen[11..]
  }

  /** Five words on top of the interrupted stack: the argument shows them, and what the stub loads
      and leaves is the interrupted state exactly when the argument was kept. */
  lemma MatchedFrame(r: Regs, esp: U32, ds: U16, pushed: seq<U32>, frame: seq<U32>, below: seq<U32>, a: seq<U32>)
    requires |pushed| == 2 && |frame| == 3 && |below| >= 2 && |a| == 16
    ensures var s := pushed + frame + below;
            var seen := Saved(r, esp, ds) + s[..7];
            && seen == Saved(r, esp, ds) + (pushed + frame) + below[..2]
            && (Keeps(seen, a) <==> a[11..] + s[7..] == frame + below && LoadedRegs(a) == r && a[0] % 0x1_0000 == ds)
  {
    var s := pushed + frame + below;
    assert s[..7] == pushed + frame + below[..2];
    assert s[7..] == below[2..];
    var seen := Saved(r, esp, ds) + s[..7];
    LowOfWithLow(r.eax, ds);
    assert seen[11..] == frame + below[..2];
    assert frame + below == (frame + below[..2]) + below[2..];
    assert (a[11..] + below[2..])[..5] == a[11..];
    assert (frame + below)[..5] == frame + below[..2];
  }

  lemma MismatchedFrame(saved: seq<U32>, pushed: seq<U32>, frame: seq<U32>, below: seq<U32>)
    requires |saved| == 9 && |pushed| == 2 && |frame| == 4 && |below| >= 3
    ensures var s := pushed + frame + below;
            (saved + s[..7])[11..] + s[7..] == frame + below
  {
    var s := pushed + frame + below;
    assert (saved + s[..7])[11..] == s[2..7];
    assert s[2..7] + s[7..] == s[2..];
  }

  /** The words on the stack when the stub jumps to the common part. */
  function StubWords(s: Symbol, pushesCode: bool, code: U32, eip: U32, cs: U32, eflags: U32): seq<U32>
    requires Exists(s)
  {
    [Id(s)] + (if ExpectsErrorCode(s) then [] else [0]) + ProcessorFrame(pushesCode, code, eip, cs, eflags)
  }

  lemma StubOutcome(s: Symbol, pushesCode: bool, code: U32, eip: U32, cs: U32, eflags: U32,
                    r: Regs, esp: U32, ds: U16, below: seq<U32>, a: seq<U32>)
    requires Exists(s) && |below| >= 3 && |a| == 16
    ensures var s1 := StubWords(s, pushesCode, code, eip, cs, eflags) + below;
            var seen := Saved(r, esp, ds) + s1[..7];
            var atIret := a[11..] + s1[7..];
            && (|atIret| == 3 + |below| <==> pushesCode == ExpectsErrorCode(s))
            && (pushesCode == ExpectsErrorCode(s) ==>
                  && seen == Saved(r, esp, ds) + [Id(s), if pushesCode then code else 0, eip, cs, eflags] + below[..2]
                  && (Keeps(seen, a)
                      <==> atIret == [eip, cs, eflags] + below && LoadedRegs(a) == r && a[0] % 0x1_0000 == ds))
            && (pushesCode && !ExpectsErrorCode(s) && a == seen ==> atIret == [code, eip, cs, eflags] + below)
  {
    var s1 := StubWords(s, pushesCode, code, eip, cs, eflags) + below;
    if pushesCode == ExpectsErrorCode(s) {
      var shown := if pushesCode then code else 0;
      assert s1 == [Id(s), shown] + [eip, cs, eflags] + below;
      MatchedFrame(r, esp, ds, [Id(s), shown], [eip, cs, eflags], below, a);
      assert [Id(s), shown] + [eip, cs, eflags] == [Id(s), shown, eip, cs, eflags];
    } else if pushesCode {
      assert s1 == [Id(s), 0] + [code, eip, cs, eflags] + below;
      MismatchedFrame(Saved(r, esp, ds), [Id(s), 0], [code, eip, cs, eflags], below);
    }
  }

  /** isr_args_t by field; pusha puts eax highest, so arg1 to arg4 are eax, ebx, ecx and edx,
      in this order. */
  datatype IsrArgs = IsrArgs(ds: U32, edi: U32, esi: U32, ebp: U32, esp: U32, arg2: U32, arg4: U32, arg3: U32,
                             arg1: U32, interruptId: U32, errorCode: U32, eip: U32, cs: U32, eflags: U32,
                             useresp: U32, ss: U32)

  function ArgsAt(a: seq<U32>): IsrArgs
    requires |a| == 16
  {
    IsrArgs(a[0], a[1], a[2], a[3], a[4], a[5], a[6], a[7], a[8], a[9], a[10], a[11], a[12], a[13], a[14], a[15])
  }

  /** Every field of the argument holds what its name says.  The last two belong to the interrupted
      code, as the privilege level does not change. */
  lemma ArgsNamed(r: Regs, esp: U32, ds: U16, id: U32, code: U32, eip: U32, cs: U32, eflags: U32, below: seq<U32>)
    requires |below| == 2
    ensures var a := ArgsAt(Saved(r, esp, ds) + [id, code, eip, cs, eflags] + below);
            && a.ds % 0x1_0000 == ds && a.esp == esp && a.ebp == r.ebp && a.edi == r.edi && a.esi == r.esi
            && a.arg1 == r.eax && a.arg2 == r.ebx && a.arg3 == r.ecx && a.arg4 == r.edx
            && a.interruptId == id && a.errorCode == code && a.eip == eip && a.cs == cs && a.eflags == eflags
            && [a.useresp, a.ss] == below
  {
    LowOfWithLow(r.eax, ds);
  }

  /** The selector that the handlers' data segments hold. */
  const KERNEL_DATA: U16 := 0x10

  /** What a C function finds when it is called: its argument, the data segments and IF. */
  datatype Call = Call(args: seq<U32>, ds: U16, es: U16, fs: U16, gs: U16, ifFlag: bool)

  class Core {
    /** The address just above the stack. */
    const top: U32

    var r: Regs

    /** The words of the stack, from esp up. */
    var stack: seq<U32>

    var ds: U16
    var es: U16
    var fs: U16
    var gs: U16
    var ifFlag: bool

    /** esp when the stack has n words. */
    function EspOver(n: nat): U32 { (top - 4 * n) % 0x1_0000_0000 }

    function Esp(): U32
      reads this`stack
    {
      EspOver(|stack|)
    }

    method Push(w: U32)
      modifies this`stack
      ensures stack == [w] + old(stack)
    {
      stack := [w] + stack;
    }

    method Pop() returns (w: U32)
      requires stack != []
      modifies this`stack
      ensures w == old(stack)[0] && stack == old(stack)[1..]
    {
      w, stack := stack[0], stack[1..];
    }

    method Pusha()
      modifies this`stack
      ensures stack == [r.edi, r.esi, r.ebp, old(Esp()), r.ebx, r.edx, r.ecx, r.eax] + old(stack)
    {
      var esp := Esp();
      Push(r.eax);
      Push(r.ecx);
      Push(r.edx);
      Push(r.ebx);
      Push(esp);
      Push(r.ebp);
      Push(r.esi);
      Push(r.edi);
    }

    /** popa reads all eight words and throws the stored esp away. */
    method Popa()
      requires |stack| >= 8
      modifies this`stack, this`r
      ensures var s := old(stack);
              r == Regs(s[7], s[6], s[5], s[4], s[2], s[1], s[0]) && stack == s[8..]
    {
      var edi := Pop();
      var esi := Pop();
      var ebp := Pop();
      var _ := Pop();
      var ebx := Pop();
      var edx := Pop();
      var ecx := Pop();
      var eax := Pop();
      r := Regs(eax, ecx, edx, ebx, ebp, esi, edi);
    }

    /** The processor's part, at the same privilege level: an interrupt gate clears IF. */
    method Enter(frame: seq<U32>)
      modifies this`stack, this`ifFlag
      ensures stack == frame + old(stack) && !ifFlag
    {
      stack := frame + stack;
      ifFlag := false;
    }

    /** The macro of the entry point. */
    method Stub(s: Symbol)
      requires Exists(s)
      modifies this`stack, this`ifFlag
      ensures stack == [Id(s)] + (if ExpectsErrorCode(s) then [] else [0]) + old(stack) && !ifFlag
    {
      ifFlag := false;
      if !ExpectsErrorCode(s) {
        Push(0);
      }
      Push(Id(s));
    }

    /** The call of isr_handler, irq_handler_pic or irq_handler_apic. */
    method CallHandler(effect: Effect) returns (ghost call: Call)
      requires |stack| >= 16 && |effect.args| == 16
      modifies this`stack, this`r
      ensures call == Call(old(stack)[..16], ds, es, fs, gs, ifFlag)
      ensures stack == effect.args + old(stack)[16..]
      ensures r == old(r).(eax := effect.eax, ecx := effect.ecx, edx := effect.edx)
    {
      call := Call(stack[..16], ds, es, fs, gs, ifFlag);
      stack := effect.args + stack[16..];
      r := r.(eax := effect.eax, ecx := effect.ecx, edx := effect.edx);
    }

    method LoadDataSegments(ax: U16)
      modifies this`ds, this`es, this`fs, this`gs
      ensures ds == es == fs == gs == ax
    {
      ds, es, fs, gs := ax, ax, ax, ax;
    }

    /** The common part up to its call: registers and ds saved, and the kernel's data segments. */
    method SaveContext()
      modifies this`stack, this`r, this`ds, this`es, this`fs, this`gs
      ensures stack == Saved(old(r), old(Esp()), old(ds)) + old(stack)
      ensures ds == es == fs == gs == KERNEL_DATA
    {
      ghost var saved, below := Saved(r, Esp(), ds), stack;
      Pusha();
      r := r.(eax := WithLow(r.eax, ds));
      Push(r.eax);
      assert stack == saved + below;

      LowOfWithLow(r.eax, 0x10);
      r := r.(eax := WithLow(r.eax, 0x10));
      LoadDataSegments(r.eax % 0x1_0000);
    }

    /** The common part after its call, up to the iret. */
    method RestoreContext()
      requires |stack| >= 16
      modifies this`stack, this`r, this`ds, this`es, this`fs, this`gs
      ensures r == LoadedRegs(old(stack)[..16]) && ds == es == fs == gs == old(stack)[0] % 0x1_0000
      ensures stack == old(stack)[11..]
    {
      var eax := Pop();
      r := r.(eax := eax);
      LoadDataSegments(r.eax % 0x1_0000);

      Popa();
      stack := stack[2..];
    }

    /** isr_common, irq_common_pic and irq_common_apic, which differ in the function they call, up to
        the iret.  The function runs with the kernel's data segments, whatever they were. */
    method Common(effect: Effect) returns (ghost call: Call)
      requires |stack| >= 7 && |effect.args| == 16
      modifies this`stack, this`r, this`ds, this`es, this`fs, this`gs
      ensures call.args == Saved(old(r), old(Esp()), old(ds)) + old(stack)[..7]
      ensures call.ds == call.es == call.fs == call.gs == KERNEL_DATA && call.ifFlag == ifFlag
      ensures r == LoadedRegs(effect.args) && ds == es == fs == gs == effect.args[0] % 0x1_0000
      ensures stack == effect.args[11..] + old(stack)[7..]
    {
      ghost var saved, below := Saved(r, Esp(), ds), stack;
      SaveContext();
      call := CallHandler(effect);
      assert call.args == saved + below[..7] && stack == effect.args + below[7..];
      assert stack[..16] == effect.args;
      RestoreContext();
    }

    /** An interrupt or exception, from the processor's entry to the iret; call is what the handler
        finds, and atIret the stack that iret pops from. */
    method Interrupt(s: Symbol, pushesCode: bool, code: U32, eip: U32, cs: U32, eflags: U32, effect: Effect)
      returns (ghost call: Call, ghost atIret: seq<U32>)
      requires Exists(s) && |stack| >= 3 && |effect.args| == 16
      modifies this`stack, this`r, this`ds, this`es, this`fs, this`gs, this`ifFlag
      // the handler runs with the kernel's data segments and interrupts off
      ensures call.ds == call.es == call.fs == call.gs == KERNEL_DATA && !call.ifFlag && |call.args| == 16
      // esp points at the pushed eip exactly when the stub expects what the processor pushed
      ensures |atIret| == 3 + |old(stack)| <==> pushesCode == ExpectsErrorCode(s)
      ensures pushesCode == ExpectsErrorCode(s) ==>
                call.args == Saved(old(r), EspOver(|old(stack)| + 5), old(ds))
                             + [Id(s), if pushesCode then code else 0, eip, cs, eflags] + old(stack)[..2]
      // and then everything comes back exactly when the handler kept its argument
      ensures pushesCode == ExpectsErrorCode(s) ==>
                (Keeps(call.args, effect.args)
                 <==> atIret == [eip, cs, eflags] + old(stack) && r == old(r) && ds == old(ds))
      ensures ds == es == fs == gs
      // a stub that does not know about the error code returns to it
      ensures pushesCode && !ExpectsErrorCode(s) && effect.args == call.args ==>
                atIret == [code, eip, cs, eflags] + old(stack)
      ensures |atIret| >= 3 && stack == atIret[3..] && (ifFlag <==> atIret[2] / 0x200 % 2 == 1)
    {
      StubOutcome(s, pushesCode, code, eip, cs, eflags, r,
                  EspOver(|stack| + |StubWords(s, pushesCode, code, eip, cs, eflags)|), ds, stack, effect.args);
      ghost var s0 := stack;
      Enter(ProcessorFrame(pushesCode, code, eip, cs, eflags));
      Stub(s);
      assert stack == StubWords(s, pushesCode, code, eip, cs, eflags) + s0;
      ghost var s1 := stack;
      call := Common(effect);
      assert stack == effect.args[11..] + s1[7..];
      atIret := stack;
      // sti takes effect after the next instruction, which is iret
      ifFlag := stack[2] / 0x200 % 2 == 1;
      stack := stack[3..];
    }
  }
}
