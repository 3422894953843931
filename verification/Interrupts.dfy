/** Runs of the whole interrupt path: lines rise and fall, the processor acknowledges, the stub and
    irq_handler_pic work step by step, faults nest, and the rest of the kernel moves masks and
    handlers. */
module Interrupts {
  import opened Bits
  import opened X86
  import opened Pic
  import opened Stubs
  import opened Idt
  import opened Irq
  import Boot
  import Machine

  // ---------- the fixed part: the tables in memory and the entry points ----------

  /** The descriptors that GDTR's limit covers, the interrupt descriptor table, and the linear
      addresses of the entry points. */
  datatype Config = Config(gdt: seq<Descriptor>, idt: seq<U8>, addr: Addresses)

  ghost predicate Distinct(addr: Addresses) {
    forall s, t | Exists(s) && Exists(t) && addr(s) == addr(t) :: s == t
  }

  /** gdt_init has run, then idt_init without an APIC, and no two entry points share an address. */
  ghost predicate Configured(c: Config) {
    && |c.gdt| == 3 && (forall i: nat | i < 3 :: Boot.KernelGate(c.gdt[i], i))
    && LeadsToStubs(c.idt, c.addr, false, 0x08) && Distinct(c.addr)
  }

  /** The descriptors within a limit, read from memory. */
  function GdtWithin(im: Machine.Image, pa: nat, limit: U16): seq<Descriptor>
    requires pa + 8 * ((limit + 1) / 8) <= 0x1_0000_0000
  {
    seq((limit + 1) / 8, i requires 0 <= i < (limit + 1) / 8 => Machine.DescriptorAt(im, pa + 8 * i))
  }

  /** What gdt_init and idt_init leave is such a configuration. */
  lemma InitsConfigure(im: Machine.Image, pa: nat, idt: seq<U8>, addr: Addresses)
    requires pa + 40 <= 0x1_0000_0000 && Boot.KernelGates(im, pa)
    requires LeadsToStubs(idt, addr, false, 0x08) && Distinct(addr)
    ensures Configured(Config(GdtWithin(im, pa, 23), idt, addr))
  {
    var gdt := GdtWithin(im, pa, 23);
    forall i: nat | i < 3
      ensures Boot.KernelGate(gdt[i], i)
    {
      assert Boot.KernelGate(Machine.DescriptorAt(im, pa + 8 * i), i);
    }
  }

  /** The selector that the stubs load for their handlers is within gdt_init's limit, admitted by
      all four registers, and gives them all of linear memory. */
  lemma HandlerSegmentsFlat(c: Config, r: SegReg)
    requires Configured(c) && r in {DS, ES, FS, GS}
    ensures KERNEL_DATA % 8 == 0 && 0 < KERNEL_DATA / 8 < |c.gdt|
    ensures var d := c.gdt[KERNEL_DATA / 8];
            Admits(r, d.b5) && KindOf(d.b5) == DataSegment(false, true) && Decode(d) == Boot.FLAT
  {
    assert Boot.KernelGate(c.gdt[2], 2);
  }

  /** The entry point at an address. */
  ghost function StubAt(addr: Addresses, a: U32): Option<Symbol> {
    if exists s :: Exists(s) && addr(s) == a then
      var s :| Exists(s) && addr(s) == a; Some(s)
    else None
  }

  /** Vector v has an interrupt gate, and its selector can be loaded into cs. */
  predicate Enterable(c: Config, v: nat)
    requires |c.idt| == 2048 && v < 256
  {
    var g := GateAt(c.idt, v);
    && IsInterruptGate(g) && g.selector % 8 == 0 && 0 < g.selector / 8 < |c.gdt|
    && Admits(CS, c.gdt[g.selector / 8].b5)
  }

  /** The linear address at which the processor enters. */
  function EntryPoint(c: Config, v: nat): U32
    requires |c.idt| == 2048 && v < 256 && Enterable(c, v)
  {
    var g := GateAt(c.idt, v);
    Add32(Decode(c.gdt[g.selector / 8]).base, g.offset)
  }

  /** The number that the stub behind vector v pushes, if the processor gets there. */
  ghost function IdThrough(c: Config, v: nat): Option<nat>
    requires |c.idt| == 2048 && v < 256
  {
    if !Enterable(c, v) then None
    else
      match StubAt(c.addr, EntryPoint(c, v))
      case Some(s) => if Exists(s) then Some(Id(s)) else None
      case None => None
  }

  lemma CodeAdmitted(c: Config)
    requires Configured(c)
    ensures Admits(CS, c.gdt[1].b5) && Decode(c.gdt[1]).base == 0
  {
    assert Boot.KernelGate(c.gdt[1], 1);
  }

  lemma ZeroBase(base: U32, offset: U32)
    requires base == 0
    ensures Add32(base, offset) == offset
  {
  }

  lemma EnteredAt(c: Config, v: nat, g: Gate, d: Descriptor)
    requires |c.idt| == 2048 && v < 256 && |c.gdt| == 3 && g == GateAt(c.idt, v) && d == c.gdt[1]
    requires IsInterruptGate(g) && g.selector == 0x08 && Admits(CS, d.b5) && Decode(d).base == 0
    ensures Enterable(c, v) && EntryPoint(c, v) == g.offset
  {
    ZeroBase(Decode(d).base, g.offset);
    assert g.selector / 8 == 1;
  }

  lemma GateEntered(c: Config, v: nat)
    requires Configured(c) && v < 48
    ensures Enterable(c, v) && EntryPoint(c, v) == c.addr(StubOf(v, false))
  {
    CodeAdmitted(c);
    assert LeadsToStub(GateAt(c.idt, v), c.addr, false, 0x08, v);
    EnteredAt(c, v, GateAt(c.idt, v), c.gdt[1]);
  }

  lemma StubFound(addr: Addresses, s: Symbol)
    requires Distinct(addr) && Exists(s)
    ensures StubAt(addr, addr(s)) == Some(s)
  {
  }

  /** Gate, stub and number agree: the processor can enter by vector v, in the kernel's code segment,
      and reaches the stub that pushes v. */
  lemma IdThroughIsVector(c: Config, v: nat)
    requires Configured(c) && v < 48
    ensures Enterable(c, v) && IdThrough(c, v) == Some(v)
  {
    GateEntered(c, v);
    StubFound(c.addr, StubOf(v, false));
  }

  // ---------- the moving part ----------

  /** How far irq_handler_pic has come. */
  datatype Stage = Entered | SlaveDone | Ended | Handled

  /** An interrupt or fault being served, with the IF that iret will restore. */
  datatype Frame =
    | Fault(savedIf: bool)
    | Line(id: nat, taken: Taken, stage: Stage, savedIf: bool)

  datatype Dispatch = Dispatch(taken: Taken, called: Called)

  datatype System = System(pics: Pics, ifFlag: bool, frames: seq<Frame>, handlers: seq<Option<nat>>,
                           accepted: seq<Taken>, trace: seq<Dispatch>)

  datatype Step =
    | Raise(line: nat)                   // a device asks, or line 2 of the master glitches
    | Withdraw(line: nat)                // the request goes away unserved
    | Accept                             // acknowledge, gate, stub
    | Eoi                                // the next outb of irq_handler_pic
    | Handle                             // its call of the handler
    | Return                             // sti; iret, with the eflags that were saved
    | Trap                               // a fault enters isr_common, by a stub that fits its vector
    | SetFlag(on: bool)                  // sti or cli outside handlers
    | CallLine(call: LineCall)           // pic_enable_line or pic_disable_line, in handlers too
    | SetMasks(master: bv8, slave: bv8)  // any other mask write
    | SetHandler(num: U8, handler: Option<nat>)

  function Top(s: System): Frame
    requires s.frames != []
  {
    s.frames[|s.frames| - 1]
  }

  function WithTop(s: System, f: Frame): System
    requires s.frames != []
  {
    s.(frames := s.frames[|s.frames| - 1 := f])
  }

  function VectorOf(p: Pics): nat { AcknowledgePair(p).1 as nat }

  ghost predicate Enabled(c: Config, s: System, step: Step) {
    match step
    case Raise(line) => line < 16
    case Withdraw(line) => line < 16
    case Accept => s.ifFlag && |c.idt| == 2048 && IdThrough(c, VectorOf(s.pics)).Some?
    case Eoi => s.frames != [] && Top(s).Line? && (Top(s).stage == Entered || Top(s).stage == SlaveDone)
    case Handle => s.frames != [] && Top(s).Line? && Top(s).stage == Ended && Top(s).id < 256 && |s.handlers| == 256
    case Return => s.frames != [] && (Top(s).Fault? || Top(s).stage == Handled)
    case Trap => true
    case SetFlag(_) => s.frames == []
    case CallLine(call) =>
      call.num < 39 && s.pics.master.expecting == Ready && s.pics.slave.expecting == Ready
    case SetMasks(_, _) => s.pics.master.expecting == Ready && s.pics.slave.expecting == Ready
    case SetHandler(num, _) => |s.handlers| == 256
  }

  /** What the step itself does. */
  ghost function Act(c: Config, s: System, step: Step): System
    requires Enabled(c, s, step)
  {
    match step
    case Raise(line) => s.(pics := WithRequest(s.pics, line, true))
    case Withdraw(line) => s.(pics := WithRequest(s.pics, line, false))
    case Accept =>
      var (pics, vector, taken) := AcknowledgePair(s.pics);
      var id := IdThrough(c, VectorOf(s.pics)).value;
      s.(pics := pics, ifFlag := false, accepted := s.accepted + [taken],
         frames := s.frames + [Line(id, taken, Entered, s.ifFlag)])
    case Eoi =>
      var f := Top(s);
      if f.stage == Entered && f.id >= 40 then
        WithTop(s, f.(stage := SlaveDone)).(pics := PortWrite(s.pics, PIC2_CMD, 0x20))
      else
        WithTop(s, f.(stage := Ended)).(pics := PortWrite(s.pics, PIC1_CMD, 0x20))
    case Handle =>
      var f := Top(s);
      WithTop(s, f.(stage := Handled)).(trace := s.trace + [Dispatch(f.taken, Target(s.handlers, f.id))])
    case Return => s.(ifFlag := Top(s).savedIf, frames := s.frames[..|s.frames| - 1])
    case Trap => s.(ifFlag := false, frames := s.frames + [Fault(s.ifFlag)])
    case SetFlag(on) => s.(ifFlag := on)
    case CallLine(call) => s.(pics := AfterCall(s.pics, call))
    case SetMasks(master, slave) =>
      s.(pics := PortWrite(PortWrite(s.pics, PIC1_DATA, master), PIC2_DATA, slave))
    case SetHandler(num, handler) => s.(handlers := s.handlers[num := handler])
  }

  /** The step, and then the wire: the slave's output reaches line 2 of the master. */
  ghost function Next(c: Config, s: System, step: Step): System
    requires Enabled(c, s, step)
  {
    var s' := Act(c, s, step);
    s'.(pics := Settled(s'.pics))
  }

  // ---------- what every state keeps ----------

  /** The vector that answers a request. */
  function Number(t: Taken): nat {
    match t
    case MasterLine(n) => 32 + n
    case MasterSpurious => 39
    case SlaveLine(m) => 40 + m
    case SlaveSpurious => 47
  }

  predicate Possible(t: Taken) {
    match t
    case MasterLine(n) => n < 8 && n != 2
    case SlaveLine(m) => m < 8
    case _ => true
  }

  /** The in-service bits that the acknowledge cycle sets: none for a spurious line 7, and only the
      cascade bit for a spurious line 15. */
  function MasterBits(t: Taken): bv8
    requires Possible(t)
  {
    match t
    case MasterLine(n) => Bit(n)
    case MasterSpurious => 0
    case _ => Bit(2)
  }

  function SlaveBits(t: Taken): bv8
    requires Possible(t)
  {
    match t
    case SlaveLine(m) => Bit(m)
    case _ => 0
  }

  ghost predicate InService(p: Pics, master: bv8, slave: bv8) {
    p.master.isr == master && p.slave.isr == slave
  }

  /** Each end of interrupt clears exactly the bits of its own chip that this interrupt set. */
  ghost predicate LineOk(p: Pics, f: Frame)
    requires f.Line?
  {
    && Possible(f.taken) && f.id == Number(f.taken)
    && match f.stage
       case Entered => InService(p, MasterBits(f.taken), SlaveBits(f.taken))
       case SlaveDone => f.id >= 40 && InService(p, MasterBits(f.taken), 0)
       case Ended => InService(p, 0, 0)
       case Handled => InService(p, 0, 0)
  }

  function Takens(trace: seq<Dispatch>): seq<Taken> {
    if trace == [] then [] else Takens(trace[..|trace| - 1]) + [trace[|trace| - 1].taken]
  }

  /** The interrupt that was accepted and not yet dispatched, if any. */
  function Pending(frames: seq<Frame>): seq<Taken> {
    if frames != [] && frames[0].Line? && frames[0].stage != Handled then [frames[0].taken] else []
  }

  ghost predicate Consistent(c: Config, s: System) {
    && Configured(c) && Initialised(s.pics) && |s.handlers| == 256
    && (s.ifFlag ==> s.frames == [])
    && (forall i | 0 < i < |s.frames| :: s.frames[i] == Fault(false))
    && (if s.frames != [] && s.frames[0].Line? then LineOk(s.pics, s.frames[0]) else InService(s.pics, 0, 0))
    && s.accepted == Takens(s.trace) + Pending(s.frames)
  }

  ghost predicate Inv(c: Config, s: System) { Consistent(c, s) && Wired(s.pics) }

  lemma NothingOr(b: bv8)
    ensures 0 | b == b
  {
  }

  /** With nothing in service, the acknowledge cycle gives the vector of the line and sets its bits. */
  lemma AcknowledgeFits(p: Pics)
    requires Initialised(p) && InService(p, 0, 0)
    ensures var (q, vector, taken) := AcknowledgePair(p);
            && Initialised(q) && Possible(taken) && vector as nat == Number(taken)
            && InService(q, MasterBits(taken), SlaveBits(taken))
  {
    var (_, n, _) := Acknowledge(p.master);
    var (_, m, _) := Acknowledge(p.slave);
    CodeValue(n);
    CodeValue(m);
    NothingOr(Bit(n));
    NothingOr(Bit(m));
  }

  /** The non-specific end of interrupt on a chip with at most one line in service. */
  lemma EoiClears(c: Chip)
    requires c.isr == 0 || exists n: nat :: n < 8 && c.isr == Bit(n)
    ensures WriteCommand(c, 0x20) == c.(isr := 0)
  {
    if c.isr != 0 {
      var n: nat :| n < 8 && c.isr == Bit(n);
      FirstOfBit(n);
      Same(Bit(n), Bit(n));
    }
  }

  lemma EoiKeeps(c: Config, s: System)
    requires Consistent(c, s) && Enabled(c, s, Eoi)
    ensures Consistent(c, Act(c, s, Eoi))
  {
    assert |s.frames| == 1;
    var f := Top(s);
    if f.stage == Entered { EoiClears(s.pics.slave); }
    EoiClears(s.pics.master);
  }

  lemma AcceptKeeps(c: Config, s: System)
    requires Consistent(c, s) && s.ifFlag
    ensures Enabled(c, s, Accept) && Consistent(c, Act(c, s, Accept))
    ensures var taken := AcknowledgePair(s.pics).2;
            Act(c, s, Accept).frames == [Line(Number(taken), taken, Entered, true)]
  {
    var (pics, vector, taken) := AcknowledgePair(s.pics);
    AcknowledgeFits(s.pics);
    IdThroughIsVector(c, VectorOf(s.pics));
    assert s.frames == [];
    var s' := Act(c, s, Accept);
    assert s'.frames == [Line(Number(taken), taken, Entered, true)];
    assert LineOk(s'.pics, s'.frames[0]);
    assert s'.accepted == Takens(s'.trace) + Pending(s'.frames);
  }

  lemma ServiceKept(c: Config, s: System, p: Pics)
    requires Consistent(c, s) && SameService(s.pics, p)
    ensures Consistent(c, s.(pics := p))
  {
  }

  /** The steps that touch the chips only, and leave their initialisation and services alone. */
  lemma ChipsKeep(c: Config, s: System, step: Step)
    requires Consistent(c, s) && Enabled(c, s, step)
    requires step.Raise? || step.Withdraw? || step.CallLine? || step.SetMasks?
    ensures Consistent(c, Act(c, s, step))
  {
    match step {
      case Raise(line) => RequestKeeps(s.pics, line, true);
      case Withdraw(line) => RequestKeeps(s.pics, line, false);
      case CallLine(call) => CallKeeps(s.pics, call);
      case SetMasks(master, slave) => MaskWritesKeep(s.pics, master, slave);
    }
    ServiceKept(c, s, Act(c, s, step).pics);
  }

  lemma TrapKeeps(c: Config, s: System)
    requires Consistent(c, s)
    ensures Consistent(c, Act(c, s, Trap))
  {
    var s' := Act(c, s, Trap);
    assert s.frames == [] || s'.frames[0] == s.frames[0];
  }

  lemma HandleKeeps(c: Config, s: System)
    requires Consistent(c, s) && Enabled(c, s, Handle)
    ensures Consistent(c, Act(c, s, Handle))
  {
    assert |s.frames| == 1;
    var s' := Act(c, s, Handle);
    assert s'.trace[..|s'.trace| - 1] == s.trace;
  }

  lemma ReturnKeeps(c: Config, s: System)
    requires Consistent(c, s) && Enabled(c, s, Return)
    ensures Consistent(c, Act(c, s, Return))
  {
    var s' := Act(c, s, Return);
    if |s.frames| > 1 {
      assert Top(s) == Fault(false);
      assert s'.frames[0] == s.frames[0];
    }
  }

  lemma ActKeeps(c: Config, s: System, step: Step)
    requires Consistent(c, s) && Enabled(c, s, step)
    ensures Consistent(c, Act(c, s, step))
  {
    match step {
      case Accept => AcceptKeeps(c, s);
      case Eoi => EoiKeeps(c, s);
      case Handle => HandleKeeps(c, s);
      case Return => ReturnKeeps(c, s);
      case Trap => TrapKeeps(c, s);
      case SetFlag(_) =>
      case SetHandler(_, _) =>
      case _ => ChipsKeep(c, s, step);
    }
  }

  /** The wire changes a request only. */
  lemma SettleKeeps(c: Config, s: System)
    requires Consistent(c, s)
    ensures Inv(c, s.(pics := Settled(s.pics)))
  {
    SettledKeeps(s.pics);
    SettledIsWired(s.pics);
    ServiceKept(c, s, Settled(s.pics));
  }

  lemma StepKeepsInv(c: Config, s: System, step: Step)
    requires Inv(c, s) && Enabled(c, s, step)
    ensures Inv(c, Next(c, s, step))
  {
    ActKeeps(c, s, step);
    SettleKeeps(c, Act(c, s, step));
  }

  lemma AcceptKeepsInv(c: Config, s: System)
    requires Inv(c, s) && s.ifFlag
    ensures Enabled(c, s, Accept) && Inv(c, Next(c, s, Accept))
    ensures var taken := AcknowledgePair(s.pics).2;
            Next(c, s, Accept).frames == [Line(Number(taken), taken, Entered, true)]
  {
    AcceptKeeps(c, s);
    StepKeepsInv(c, s, Accept);
  }

  // ---------- every run ----------

  ghost predicate RunEnabled(c: Config, s: System, steps: seq<Step>)
    decreases |steps|
  {
    steps == [] || (Enabled(c, s, steps[0]) && RunEnabled(c, Next(c, s, steps[0]), steps[1..]))
  }

  ghost function Run(c: Config, s: System, steps: seq<Step>): System
    requires RunEnabled(c, s, steps)
    decreases |steps|
  {
    if steps == [] then s else Run(c, Next(c, s, steps[0]), steps[1..])
  }

  lemma {:induction false} RunKeepsInv(c: Config, s: System, steps: seq<Step>)
    requires Inv(c, s) && RunEnabled(c, s, steps)
    ensures Inv(c, Run(c, s, steps))
    decreases |steps|
  {
    if steps != [] {
      StepKeepsInv(c, s, steps[0]);
      RunKeepsInv(c, Next(c, s, steps[0]), steps[1..]);
    }
  }

  // ---------- which handler a run calls ----------

  /** The calls of isr_set_handler in a run, and those of pic_enable_line and pic_disable_line. */
  function SetCalls(steps: seq<Step>): seq<SetCall> {
    if steps == [] then []
    else (if steps[0].SetHandler? then [SetCall(steps[0].num, steps[0].handler)] else []) + SetCalls(steps[1..])
  }

  function LineCalls(steps: seq<Step>): seq<LineCall> {
    if steps == [] then []
    else (if steps[0].CallLine? then [steps[0].call] else []) + LineCalls(steps[1..])
  }

  /** How many dispatches a run makes. */
  function Handles(steps: seq<Step>): nat {
    if steps == [] then 0 else (if steps[0].Handle? then 1 else 0) + Handles(steps[1..])
  }

  /** The table is what these calls of isr_set_handler leave. */
  ghost predicate TableIs(table: seq<Option<nat>>, calls: seq<SetCall>) {
    |table| == 256 && forall id: nat | id < 256 :: Target(table, id) == LastSet(calls, id)
  }

  lemma TableStep(table: seq<Option<nat>>, calls: seq<SetCall>, call: SetCall)
    requires TableIs(table, calls)
    ensures TableIs(table[call.num := call.handler], calls + [call])
  {
    assert (calls + [call])[..|calls|] == calls;
    forall id: nat | id < 256
      ensures Target(table[call.num := call.handler], id) == LastSet(calls + [call], id)
    {
      assert Target(table, id) == LastSet(calls, id);
    }
  }

  /** Step i of the run is its dispatch number n. */
  predicate IsHandle(steps: seq<Step>, i: nat, n: nat) {
    i < |steps| && steps[i] == Handle && Handles(steps[..i]) == n
  }

  /** A dispatch at step i calls the handler set last for its number, by the calls before the run
      and those of the run up to then. */
  predicate CalledRight(d: Dispatch, before: seq<SetCall>, steps: seq<Step>, i: nat)
    requires i <= |steps| && Possible(d.taken)
  {
    d.called == LastSet(before + SetCalls(steps[..i]), Number(d.taken))
  }

  /** Entry n of the trace beyond the run's start. */
  ghost predicate Routed(d: Dispatch, before: seq<SetCall>, steps: seq<Step>, n: nat) {
    Possible(d.taken) && exists i: nat :: IsHandle(steps, i, n) && CalledRight(d, before, steps, i)
  }

  /** Every entry of the trace from the given place on. */
  ghost predicate AllRouted(trace: seq<Dispatch>, start: nat, before: seq<SetCall>, steps: seq<Step>) {
    forall k: nat | start <= k < |trace| :: Routed(trace[k], before, steps, k - start)
  }

  /** What was routed in the rest of a run was routed in the run. */
  lemma RoutedLater(d: Dispatch, before: seq<SetCall>, steps: seq<Step>, n: nat)
    requires steps != []
    requires Routed(d, before + SetCalls(steps[..1]), steps[1..], n)
    ensures Routed(d, before, steps, n + Handles(steps[..1]))
  {
    var rest := steps[1..];
    var i: nat :| IsHandle(rest, i, n) && CalledRight(d, before + SetCalls(steps[..1]), rest, i);
    var prefix := steps[..i + 1];
    assert prefix[1..] == rest[..i] && prefix[0] == steps[0];
    assert steps[..1][1..] == [] && steps[..1][0] == steps[0];
    assert before + SetCalls(steps[..1]) + SetCalls(rest[..i]) == before + SetCalls(prefix);
    assert IsHandle(steps, i + 1, n + Handles(steps[..1]));
  }

  lemma FirstCalls(steps: seq<Step>)
    requires steps != []
    ensures SetCalls(steps[..1]) == if steps[0].SetHandler? then [SetCall(steps[0].num, steps[0].handler)] else []
    ensures Handles(steps[..1]) == if steps[0].Handle? then 1 else 0
    ensures SetCalls(steps) == SetCalls(steps[..1]) + SetCalls(steps[1..])
    ensures Handles(steps) == Handles(steps[..1]) + Handles(steps[1..])
  {
    assert steps[..1][1..] == [] && steps[..1][0] == steps[0];
  }

  lemma StepTable(c: Config, s: System, steps: seq<Step>, before: seq<SetCall>)
    requires Inv(c, s) && steps != [] && Enabled(c, s, steps[0]) && TableIs(s.handlers, before)
    ensures TableIs(Next(c, s, steps[0]).handlers, before + SetCalls(steps[..1]))
  {
    FirstCalls(steps);
    if steps[0].SetHandler? {
      TableStep(s.handlers, before, SetCall(steps[0].num, steps[0].handler));
    } else {
      assert before + [] == before;
    }
  }

  /** A Handle step adds one dispatch, of the handler set last. */
  lemma StepTrace(c: Config, s: System, steps: seq<Step>, before: seq<SetCall>)
    requires Inv(c, s) && steps != [] && Enabled(c, s, steps[0]) && TableIs(s.handlers, before)
    ensures var t := Next(c, s, steps[0]).trace;
            if steps[0].Handle? then |t| == |s.trace| + 1 && s.trace <= t && Routed(t[|s.trace|], before, steps, 0)
            else t == s.trace
  {
    if steps[0].Handle? {
      assert |s.frames| == 1;
      var f := Top(s);
      var d := Dispatch(f.taken, Target(s.handlers, f.id));
      assert steps[..0] == [] && before + SetCalls([]) == before;
      assert IsHandle(steps, 0, 0) && CalledRight(d, before, steps, 0);
    }
  }

  lemma AllRoutedLater(trace: seq<Dispatch>, start: nat, next: nat, before: seq<SetCall>, steps: seq<Step>)
    requires steps != [] && next == start + Handles(steps[..1]) <= |trace|
    requires AllRouted(trace, next, before + SetCalls(steps[..1]), steps[1..])
    requires start < next ==> Routed(trace[start], before, steps, 0)
    ensures AllRouted(trace, start, before, steps)
  {
    FirstCalls(steps);
    forall k: nat | start <= k < |trace|
      ensures Routed(trace[k], before, steps, k - start)
    {
      if k >= next { RoutedLater(trace[k], before, steps, k - next); }
    }
  }

  /** The first step in front of a run that routed right. */
  lemma RoutesExtend(c: Config, s: System, steps: seq<Step>, before: seq<SetCall>, trace: seq<Dispatch>)
    requires Inv(c, s) && steps != [] && Enabled(c, s, steps[0]) && TableIs(s.handlers, before)
    requires var t := Next(c, s, steps[0]).trace;
             && t <= trace && |trace| == |t| + Handles(steps[1..])
             && AllRouted(trace, |t|, before + SetCalls(steps[..1]), steps[1..])
    ensures s.trace <= trace && |trace| == |s.trace| + Handles(steps)
    ensures AllRouted(trace, |s.trace|, before, steps)
  {
    var t := Next(c, s, steps[0]).trace;
    FirstCalls(steps);
    StepTrace(c, s, steps, before);
    assert |s.trace| < |t| ==> trace[|s.trace|] == t[|s.trace|];
    AllRoutedLater(trace, |s.trace|, |t|, before, steps);
  }

  lemma SetCallsSplit(before: seq<SetCall>, steps: seq<Step>)
    requires steps != []
    ensures before + SetCalls(steps[..1]) + SetCalls(steps[1..]) == before + SetCalls(steps)
  {
    FirstCalls(steps);
  }

  lemma {:induction false} RunTable(c: Config, s: System, steps: seq<Step>, before: seq<SetCall>)
    requires Inv(c, s) && RunEnabled(c, s, steps) && TableIs(s.handlers, before)
    ensures TableIs(Run(c, s, steps).handlers, before + SetCalls(steps))
    decreases |steps|
  {
    if steps == [] {
      assert before + SetCalls(steps) == before;
    } else {
      StepKeepsInv(c, s, steps[0]);
      StepTable(c, s, steps, before);
      RunTable(c, Next(c, s, steps[0]), steps[1..], before + SetCalls(steps[..1]));
      SetCallsSplit(before, steps);
    }
  }

  /** In every run every dispatch calls the handler set last for the line's number: entry n of the
      trace is made by the run's Handle step number n, and by no other. */
  lemma {:induction false} RunRoutes(c: Config, s: System, steps: seq<Step>, before: seq<SetCall>)
    requires Inv(c, s) && RunEnabled(c, s, steps) && TableIs(s.handlers, before)
    ensures var s' := Run(c, s, steps);
            && s.trace <= s'.trace && |s'.trace| == |s.trace| + Handles(steps)
            && AllRouted(s'.trace, |s.trace|, before, steps)
    decreases |steps|
  {
    if steps != [] {
      StepKeepsInv(c, s, steps[0]);
      StepTable(c, s, steps, before);
      RunRoutes(c, Next(c, s, steps[0]), steps[1..], before + SetCalls(steps[..1]));
      RoutesExtend(c, s, steps, before, Run(c, s, steps).trace);
    }
  }

  lemma FirstLineCalls(steps: seq<Step>)
    requires steps != []
    ensures LineCalls(steps[..1]) == if steps[0].CallLine? then [steps[0].call] else []
    ensures LineCalls(steps) == LineCalls(steps[..1]) + LineCalls(steps[1..])
  {
    assert steps[..1][1..] == [] && steps[..1][0] == steps[0];
  }

  lemma LineCallsSplit(before: seq<LineCall>, steps: seq<Step>)
    requires steps != []
    ensures before + LineCalls(steps[..1]) + LineCalls(steps[1..]) == before + LineCalls(steps)
  {
    FirstLineCalls(steps);
  }

  lemma SameMasksWanted(p: Pics, p': Pics, calls: seq<LineCall>)
    requires MasksWanted(p, calls) && SameMasks(p, p')
    ensures MasksWanted(p', calls)
  {
    forall line: nat | line < 16
      ensures Masked(p', line) <==> !Wanted(calls, line)
    {
      assert Masked(p, line) == Masked(p', line);
    }
  }

  lemma StepKeepsMasks(c: Config, s: System, step: Step)
    requires Inv(c, s) && Enabled(c, s, step) && !step.SetMasks? && !step.CallLine?
    ensures SameMasks(s.pics, Next(c, s, step).pics)
  {
    SettledKeeps(Act(c, s, step).pics);
    match step {
      case Raise(line) => RequestKeeps(s.pics, line, true);
      case Withdraw(line) => RequestKeeps(s.pics, line, false);
      case Accept => AcknowledgeKeepsMasks(s.pics);
      case Eoi =>
        EoiKeepsMasks(s.pics, PIC1_CMD);
        EoiKeepsMasks(s.pics, PIC2_CMD);
      case _ =>
    }
  }

  lemma StepMasks(c: Config, s: System, steps: seq<Step>, before: seq<LineCall>)
    requires Inv(c, s) && steps != [] && Enabled(c, s, steps[0]) && !steps[0].SetMasks? && MasksWanted(s.pics, before)
    ensures MasksWanted(Next(c, s, steps[0]).pics, before + LineCalls(steps[..1]))
  {
    FirstLineCalls(steps);
    var p' := Next(c, s, steps[0]).pics;
    if steps[0].CallLine? {
      AfterCallDone(s.pics, steps[0].call);
      var called := AfterCall(s.pics, steps[0].call);
      CallWanted(s.pics, before, steps[0].call, called);
      SettledKeeps(called);
      SameMasksWanted(called, p', before + [steps[0].call]);
    } else {
      StepKeepsMasks(c, s, steps[0]);
      SameMasksWanted(s.pics, p', before);
      assert before + [] == before;
    }
  }

  /** As long as only pic_enable_line and pic_disable_line write the masks, these are what the
      calls ask for. */
  lemma {:induction false} RunMasks(c: Config, s: System, steps: seq<Step>, before: seq<LineCall>)
    requires Inv(c, s) && RunEnabled(c, s, steps) && MasksWanted(s.pics, before)
    requires forall i | 0 <= i < |steps| :: !steps[i].SetMasks?
    ensures MasksWanted(Run(c, s, steps).pics, before + LineCalls(steps))
    decreases |steps|
  {
    if steps == [] {
      assert before + LineCalls(steps) == before;
    } else {
      var rest, later := steps[1..], before + LineCalls(steps[..1]);
      StepKeepsInv(c, s, steps[0]);
      StepMasks(c, s, steps, before);
      RunMasks(c, Next(c, s, steps[0]), rest, later);
      LineCallsSplit(before, steps);
    }
  }

  // ---------- which lines ask ----------

  /** Whether a line asks after a step, by what the step is and what it took if it is an Accept. */
  predicate AsksNext(step: Step, taken: Taken, line: nat, asked: bool) {
    match step
    case Raise(n) => asked || n == line
    case Withdraw(n) => asked && n != line
    case Accept => asked && taken != TakenBy(line)
    case _ => asked
  }

  function Accepts(steps: seq<Step>): nat {
    if steps == [] then 0 else (if steps[0].Accept? then 1 else 0) + Accepts(steps[1..])
  }

  /** Whether a line asks after a run: its last raise was neither withdrawn nor accepted.  takens are
      the interrupts that the run's Accept steps took. */
  predicate AsksAfter(steps: seq<Step>, takens: seq<Taken>, line: nat, asked: bool)
    requires |takens| == Accepts(steps)
    decreases |steps|
  {
    if steps == [] then asked
    else if steps[0].Accept? then AsksAfter(steps[1..], takens[1..], line, asked && takens[0] != TakenBy(line))
    else AsksAfter(steps[1..], takens, line, AsksNext(steps[0], MasterSpurious, line, asked))
  }

  /** What this step accepted. */
  function AcceptedBy(s: System, step: Step): seq<Taken> {
    if step.Accept? then [AcknowledgePair(s.pics).2] else []
  }

  lemma OtherRequests(c: Config, s: System, step: Step)
    requires Inv(c, s) && Enabled(c, s, step) && !step.Raise? && !step.Withdraw? && !step.Accept?
    ensures SameRequests(s.pics, Act(c, s, step).pics)
  {
    if step.Eoi? {
      EoiSameRequests(s.pics, PIC1_CMD);
      EoiSameRequests(s.pics, PIC2_CMD);
    }
  }

  lemma ActRequests(c: Config, s: System, step: Step, line: nat)
    requires Inv(c, s) && Enabled(c, s, step) && line < 16 && line != 2
    ensures Requested(Act(c, s, step).pics, line)
            <==> AsksNext(step, AcknowledgePair(s.pics).2, line, Requested(s.pics, line))
  {
    match step {
      case Raise(n) => RequestSet(s.pics, n, true, line);
      case Withdraw(n) => RequestSet(s.pics, n, false, line);
      case Accept => AcknowledgeRequests(s.pics, line);
      case _ => OtherRequests(c, s, step);
    }
  }

  /** A line asks after a step exactly when the step raises it, or it asked before and the step
      neither withdraws nor takes it; nothing else that happens starts or ends a request. */
  lemma StepRequests(c: Config, s: System, step: Step, line: nat)
    requires Inv(c, s) && Enabled(c, s, step) && line < 16 && line != 2
    ensures Next(c, s, step).accepted == s.accepted + AcceptedBy(s, step)
    ensures Requested(Next(c, s, step).pics, line)
            <==> AsksNext(step, AcknowledgePair(s.pics).2, line, Requested(s.pics, line))
  {
    ActRequests(c, s, step, line);
    if Deliverable(Act(c, s, step).pics.slave) { RequestSet(Act(c, s, step).pics, 2, true, line); }
  }

  lemma AsksFirst(s: System, steps: seq<Step>, accepted: seq<Taken>, line: nat, asked: bool)
    requires steps != [] && s.accepted + AcceptedBy(s, steps[0]) <= accepted
    requires |accepted| == |s.accepted| + Accepts(steps)
    ensures var n := |s.accepted + AcceptedBy(s, steps[0])|;
            && |accepted| == n + Accepts(steps[1..])
            && (AsksAfter(steps, accepted[|s.accepted|..], line, asked)
                <==> AsksAfter(steps[1..], accepted[n..], line,
                               AsksNext(steps[0], AcknowledgePair(s.pics).2, line, asked)))
  {
    if steps[0].Accept? {
      assert accepted[|s.accepted|] == AcknowledgePair(s.pics).2;
      assert accepted[|s.accepted|..][1..] == accepted[|s.accepted| + 1..];
    }
  }

  /** Over every run, a line asks exactly when its raises, withdrawals and acceptances say so. */
  lemma {:induction false} RunRequests(c: Config, s: System, steps: seq<Step>, line: nat)
    requires Inv(c, s) && RunEnabled(c, s, steps) && line < 16 && line != 2
    ensures var s' := Run(c, s, steps);
            && s.accepted <= s'.accepted && |s'.accepted| == |s.accepted| + Accepts(steps)
            && (Requested(s'.pics, line)
                <==> AsksAfter(steps, s'.accepted[|s.accepted|..], line, Requested(s.pics, line)))
    decreases |steps|
  {
    if steps != [] {
      var s1 := Next(c, s, steps[0]);
      StepKeepsInv(c, s, steps[0]);
      StepRequests(c, s, steps[0], line);
      RunRequests(c, s1, steps[1..], line);
      AsksFirst(s, steps, Run(c, s, steps).accepted, line, Requested(s.pics, line));
    }
  }

  // ---------- from pic_init and isr_init on ----------

  /** Interrupts off, nothing being served, and no interrupt accepted yet. */
  function Quiet(p: Pics, handlers: seq<Option<nat>>): System { System(p, false, [], handlers, [], []) }

  /** What pic_init and isr_init leave is a state the run theorems start from exactly when firmware
      left nothing in service; pic_init does not clear that.  The wire is at rest unless a request
      came in already. */
  lemma StartIff(c: Config, p: Pics, handlers: seq<Option<nat>>)
    requires Configured(c) && JustInitialised(p) && |handlers| == 256
    ensures Inv(c, Quiet(Settled(p), handlers)) <==> InService(p, 0, 0)
    ensures p.slave.irr == 0 ==> Settled(p) == p
  {
    SettledKeeps(p);
    SettledIsWired(p);
    assert 0 & !p.slave.imr == 0 && First(0) == 8;
  }

  /** What arch_entry leaves: chips and table initialised, no handler set. */
  ghost predicate Initial(c: Config, s: System) {
    && Configured(c) && JustInitialised(s.pics) && InService(s.pics, 0, 0) && Wired(s.pics)
    && |s.handlers| == 256 && (forall id | 0 <= id < 256 :: s.handlers[id] == None)
    && s == Quiet(s.pics, s.handlers)
  }

  lemma InitialFacts(c: Config, s: System)
    requires Initial(c, s)
    ensures Inv(c, s) && TableIs(s.handlers, []) && MasksWanted(s.pics, [])
  {
  }

  lemma OpenState(c: Config, s: System, steps: seq<Step>)
    requires Inv(c, s) && RunEnabled(c, s, steps) && Run(c, s, steps).ifFlag
    ensures var s' := Run(c, s, steps);
            && Inv(c, s') && InService(s'.pics, 0, 0)
            && (Deliverable(s'.pics.master) <==> s'.pics.master.irr & !s'.pics.master.imr != 0)
            && (Deliverable(s'.pics.slave) <==> s'.pics.slave.irr & !s'.pics.slave.imr != 0)
            && s'.accepted == Takens(s'.trace)
            && Enabled(c, s', Accept)
  {
    RunKeepsInv(c, s, steps);
    AcceptKeepsInv(c, Run(c, s, steps));
    assert First(0) == 8;
  }

  /** In every run from there, whenever the processor can accept an interrupt: nothing is in service
      on either chip, so an open request is never held back; every interrupt accepted so far was
      dispatched, once and in order, each to the handler set last for its number at that time; and
      accepting the next one finds its gate and stub. */
  lemma ReadyWhenOpen(c: Config, s: System, steps: seq<Step>)
    requires Initial(c, s) && RunEnabled(c, s, steps) && Run(c, s, steps).ifFlag
    ensures var s' := Run(c, s, steps);
            && InService(s'.pics, 0, 0)
            && (Deliverable(s'.pics.master) <==> s'.pics.master.irr & !s'.pics.master.imr != 0)
            && (Deliverable(s'.pics.slave) <==> s'.pics.slave.irr & !s'.pics.slave.imr != 0)
            && s'.accepted == Takens(s'.trace)
            && |s'.trace| == Handles(steps)
            && AllRouted(s'.trace, 0, [], steps)
            && Enabled(c, s', Accept)
  {
    InitialFacts(c, s);
    RunRoutes(c, s, steps, []);
    OpenState(c, s, steps);
  }

  /** The Eoi steps are irq_handler_pic's port writes, in its order, and the wire. */
  lemma EoisAreHandlers(c: Config, s: System)
    requires Inv(c, s) && Enabled(c, s, Eoi) && Top(s).stage == Entered
    ensures var s1 := Next(c, s, Eoi);
            if Top(s).id < 40 then Top(s1).stage == Ended && s1.pics == Settled(AfterEoi(s.pics, Top(s).id))
            else && Enabled(c, s1, Eoi)
                 && Top(Next(c, s1, Eoi)).stage == Ended
                 && Next(c, s1, Eoi).pics == Settled(AfterEoi(s.pics, Top(s).id))
  {
    var p := PortWrite(s.pics, PIC2_CMD, 0x20);
    EoiSettled(p, Settled(p), PortWrite(p, PIC1_CMD, 0x20), PortWrite(Settled(p), PIC1_CMD, 0x20));
  }

  // ---------- one line, end to end ----------

  /** The service of a line: acknowledge, one or two ends of interrupt, the handler, iret. */
  function Service(line: nat): seq<Step> {
    if line < 8 then [Accept, Eoi, Handle, Return] else [Accept, Eoi, Eoi, Handle, Return]
  }

  lemma RunFirst(c: Config, s: System, step: Step, rest: seq<Step>)
    requires Enabled(c, s, step) && RunEnabled(c, Next(c, s, step), rest)
    ensures RunEnabled(c, s, [step] + rest) && Run(c, s, [step] + rest) == Run(c, Next(c, s, step), rest)
  {
    assert ([step] + rest)[1..] == rest;
  }

  /** The run ends with interrupts on, nothing in service and this one dispatch. */
  ghost predicate Serves(c: Config, s: System, steps: seq<Step>, taken: Taken) {
    && |s.handlers| == 256 && Number(taken) < 256 && RunEnabled(c, s, steps)
    && var s' := Run(c, s, steps);
       && s'.ifFlag && s'.frames == [] && InService(s'.pics, 0, 0)
       && s'.trace == s.trace + [Dispatch(taken, Target(s.handlers, Number(taken)))]
  }

  lemma ServeEnded(c: Config, s: System, taken: Taken)
    requires Inv(c, s) && s.frames == [Line(Number(taken), taken, Ended, true)] && Possible(taken)
    ensures Serves(c, s, [Handle, Return], taken)
  {
    StepKeepsInv(c, s, Handle);
    var s1 := Next(c, s, Handle);
    StepKeepsInv(c, s1, Return);
    RunFirst(c, s1, Return, []);
    RunFirst(c, s, Handle, [Return]);
    assert [Return] + [] == [Return] && [Handle] + [Return] == [Handle, Return];
  }

  lemma ServeSlaveDone(c: Config, s: System, taken: Taken)
    requires Inv(c, s) && s.frames == [Line(Number(taken), taken, SlaveDone, true)] && Possible(taken)
    ensures Serves(c, s, [Eoi, Handle, Return], taken)
  {
    StepKeepsInv(c, s, Eoi);
    ServeEnded(c, Next(c, s, Eoi), taken);
    RunFirst(c, s, Eoi, [Handle, Return]);
    assert [Eoi] + [Handle, Return] == [Eoi, Handle, Return];
  }

  /** From the stub's entry on, whatever was taken. */
  lemma ServeEntered(c: Config, s: System, taken: Taken)
    requires Inv(c, s) && s.frames == [Line(Number(taken), taken, Entered, true)] && Possible(taken)
    ensures Serves(c, s, if Number(taken) < 40 then [Eoi, Handle, Return] else [Eoi, Eoi, Handle, Return], taken)
  {
    StepKeepsInv(c, s, Eoi);
    var s1 := Next(c, s, Eoi);
    if Number(taken) < 40 {
      ServeEnded(c, s1, taken);
      RunFirst(c, s, Eoi, [Handle, Return]);
      assert [Eoi] + [Handle, Return] == [Eoi, Handle, Return];
    } else {
      ServeSlaveDone(c, s1, taken);
      RunFirst(c, s, Eoi, [Eoi, Handle, Return]);
      assert [Eoi] + [Eoi, Handle, Return] == [Eoi, Eoi, Handle, Return];
    }
  }

  function AfterAccept(line: nat): seq<Step> {
    if line < 8 then [Eoi, Handle, Return] else [Eoi, Eoi, Handle, Return]
  }

  lemma AcceptFirst(line: nat)
    ensures [Accept] + AfterAccept(line) == Service(line)
  {
  }

  lemma ServesLater(c: Config, s: System, step: Step, rest: seq<Step>, taken: Taken)
    requires Enabled(c, s, step) && Next(c, s, step).trace == s.trace && Next(c, s, step).handlers == s.handlers
    requires Serves(c, Next(c, s, step), rest, taken)
    ensures Serves(c, s, [step] + rest, taken)
  {
    RunFirst(c, s, step, rest);
  }

  lemma TakenServed(c: Config, s: System, line: nat)
    requires Inv(c, s) && s.ifFlag && line < 16 && line != 2 && AcknowledgePair(s.pics).2 == TakenBy(line)
    ensures Serves(c, s, Service(line), TakenBy(line))
  {
    AcceptKeepsInv(c, s);
    ServeEntered(c, Next(c, s, Accept), TakenBy(line));
    AcceptFirst(line);
    ServesLater(c, s, Accept, AfterAccept(line), TakenBy(line));
  }

  /** The foremost line, and no other, is accepted next; it is served under the number 32 + line. */
  lemma LineServed(c: Config, s: System, line: nat)
    requires Inv(c, s) && s.ifFlag && line < 16 && line != 2
    ensures AcknowledgePair(s.pics).2 == TakenBy(line) <==> Foremost(s.pics, line)
    ensures Number(TakenBy(line)) == 32 + line
    ensures Foremost(s.pics, line) ==> Serves(c, s, Service(line), TakenBy(line))
  {
    LineTakenIff(s.pics, line);
    if Foremost(s.pics, line) { TakenServed(c, s, line); }
  }

  /** End to end.  Any run from the initial state in which the masks are written by pic_enable_line
      and pic_disable_line only, and the handlers by isr_set_handler: once interrupts are on, a line
      is accepted next if and only if it asks, its last call enabled it, and no line before it on its
      chip does both; for a line of the slave, the cascade line must be enabled, and lines 0 and 1
      come before it too.  It then runs the handler set last for 32 + line, or unhandled_interrupt,
      and afterwards interrupts are on again and nothing is in service. */
  lemma LineRunsLastHandler(c: Config, s: System, steps: seq<Step>, line: nat)
    requires Initial(c, s) && RunEnabled(c, s, steps) && Run(c, s, steps).ifFlag
    requires forall i | 0 <= i < |steps| :: !steps[i].SetMasks?
    requires line < 16 && line != 2
    ensures var s' := Run(c, s, steps);
            var wanted := ForemostWanted(s'.pics, LineCalls(steps), line);
            && (AcknowledgePair(s'.pics).2 == TakenBy(line) <==> wanted)
            && (wanted ==>
                  && Serves(c, s', Service(line), TakenBy(line))
                  && Run(c, s', Service(line)).trace
                       == s'.trace + [Dispatch(TakenBy(line), LastSet(SetCalls(steps), 32 + line))])
  {
    var s' := Run(c, s, steps);
    InitialFacts(c, s);
    OpenState(c, s, steps);
    RunMasks(c, s, steps, []);
    RunTable(c, s, steps, []);
    assert [] + LineCalls(steps) == LineCalls(steps) && [] + SetCalls(steps) == SetCalls(steps);
    ForemostIsWanted(s'.pics, LineCalls(steps), line);
    LineServed(c, s', line);
    assert Target(s'.handlers, 32 + line) == LastSet(SetCalls(steps), 32 + line);
  }

  /** For a slave line, with the cascade line never named. */
  lemma SlaveLineNext(c: Config, s: System, steps: seq<Step>, m: nat)
    requires Initial(c, s) && RunEnabled(c, s, steps) && Run(c, s, steps).ifFlag
    requires forall i | 0 <= i < |steps| :: !steps[i].SetMasks?
    requires m < 8 && forall call | call in LineCalls(steps) :: call.num != 2
    ensures var p, calls := Run(c, s, steps).pics, LineCalls(steps);
            AcknowledgePair(p).2 == SlaveLine(m)
            <==> LeadsWanted(p, calls, 8, 8 + m) && !Asks(p, calls, 0) && !Asks(p, calls, 1)
  {
    LineRunsLastHandler(c, s, steps, 8 + m);
    CascadeStaysOpen(LineCalls(steps));
  }

  /** A line asks and is enabled, by the history of a run alone. */
  predicate WantsService(steps: seq<Step>, takens: seq<Taken>, line: nat, asked: bool)
    requires |takens| == Accepts(steps)
  {
    AsksAfter(steps, takens, line, asked) && Wanted(LineCalls(steps), line)
  }

  lemma WantsIsAsks(c: Config, s: System, steps: seq<Step>, line: nat)
    requires Inv(c, s) && RunEnabled(c, s, steps) && s.accepted == [] && line < 16 && line != 2
    ensures var s' := Run(c, s, steps);
            && |s'.accepted| == Accepts(steps)
            && (Asks(s'.pics, LineCalls(steps), line)
                <==> WantsService(steps, s'.accepted, line, Requested(s.pics, line)))
  {
    RunRequests(c, s, steps, line);
    var accepted := Run(c, s, steps).accepted;
    assert accepted[0..] == accepted;
  }

  /** By requests at the start and the history of the run alone, with the cascade line never named: a
      slave line is accepted next if and only if it wants service, and neither do the slave's lines
      before it nor lines 0 and 1. */
  lemma SlaveLineByHistory(c: Config, s: System, steps: seq<Step>, m: nat)
    requires Initial(c, s) && RunEnabled(c, s, steps) && Run(c, s, steps).ifFlag
    requires forall i | 0 <= i < |steps| :: !steps[i].SetMasks?
    requires m < 8 && forall call | call in LineCalls(steps) :: call.num != 2
    ensures var s' := Run(c, s, steps);
            && |s'.accepted| == Accepts(steps)
            && (AcknowledgePair(s'.pics).2 == SlaveLine(m)
                <==> && WantsService(steps, s'.accepted, 8 + m, Requested(s.pics, 8 + m))
                     && (forall k: nat | 8 <= k < 8 + m :: !WantsService(steps, s'.accepted, k, Requested(s.pics, k)))
                     && !WantsService(steps, s'.accepted, 0, Requested(s.pics, 0))
                     && !WantsService(steps, s'.accepted, 1, Requested(s.pics, 1)))
  {
    SlaveLineNext(c, s, steps, m);
    forall k: nat | k < 16 && k != 2
      ensures var s' := Run(c, s, steps);
              && |s'.accepted| == Accepts(steps)
              && (Asks(s'.pics, LineCalls(steps), k) <==> WantsService(steps, s'.accepted, k, Requested(s.pics, k)))
    {
      InitialFacts(c, s);
      WantsIsAsks(c, s, steps, k);
    }
  }
}
