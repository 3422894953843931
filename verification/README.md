# DuckyOS, verified

DuckyOS is a small kernel for 32-bit x86. Nearly everything it does is a conversation with hardware:
page tables that the processor walks, descriptors it decodes, two interrupt controllers, a keyboard
controller, PCI configuration space, and text memory. This project models that hardware as explicit
state next to the kernel code that drives it, and proves what the code achieves on it, for all
placements, runs, schedules, device behaviours and texts.

| file | what it models |
|---|---|
| `Bits.dfy` | machine integers and the C operator `\|` |
| `X86.dfy` | physical memory, the two-level page walk, accessed and dirty bits, a TLB, descriptors, segments |
| `Paging.dfy` | the three tables of paging.c, the translation they stand for, every run of `paging_map`, the processor and other stores |
| `Machine.dfy` | a processor whose every access goes through a segment and, with paging, through a TLB that drops and fills entries at will |
| `Boot.dfy` | entry.s, `paging_init`, `gdt_init` and `paging_map` on that machine |
| `Pic.dfy` | a pair of cascaded 8259A chips and pic.c |
| `Stubs.dfy` | the stubs of isr.s, instruction by instruction |
| `Idt.dfy`, `Irq.dfy` | the interrupt descriptor table; the handler table and its dispatchers |
| `Interrupts.dfy` | runs of the whole interrupt path |
| `Terminal.dfy` | the wrapping text window of terminal.c |
| `Keyboard.dfy` | keycodes, modifiers and key maps of keyboard.c |
| `I8042.dfy` | the keyboard interrupt: bytes to keycodes to text |
| `I8042Setup.dfy` | `i8042_init` against an arbitrary controller |
| `Pci.dfy` | the PCI scan and its listing |

## Main results

* **Boot.** For every placement of the tables (page aligned, distinct, in the first 4 MiB), every
  address from 0xC0000000 to 0xC03FFFFF reaches the same physical byte in all three boot phases. The
  segment bases come from decoding descriptor bytes that are fetched through GDTR in memory, where
  the loads set accessed bits, and a load faults unless the descriptor is of a kind that its register
  takes; the tables are written by stores that go through the segment; each phase's memory and
  registers are tied to those of the phase before; and `paging_map`'s store through the kernel's
  address lands in the word that the walk reads (`Boot.Kernel.Boot`, `Boot.Kernel.PagingMap`).
* **Paging runs.** In every run of TLB fills and evictions, accessed and dirty bits, stores outside
  the tables, and up to 1024 calls, cached translations always agree with the walk (without relying
  on the `invlpg`), results stay valid for ever and disjoint, and an address translates if and only
  if it lies in one of three ranges (`Paging.RunKeepsInv`, `Paging.ResultsStayValid`,
  `Paging.TranslatesIff`).
* **Interrupts.** In every run from the state that `pic_init` and `isr_init` leave, nothing is in
  service whenever the processor can accept an interrupt, also after spurious lines 7 and 15, and
  every accepted interrupt was dispatched once, in order, to the handler set last for its number at
  that moment (`Interrupts.ReadyWhenOpen`, `Interrupts.RunRoutes`). Whatever else asks, masked or
  not, a line is accepted next if and only if it asks, its last call enabled it, and no line before it
  on its chip does both; for a slave line the cascade line must be enabled, and lines 0 and 1 come
  first. It then runs the handler set last (`Interrupts.LineRunsLastHandler`, `Interrupts.SlaveLineNext`).
  Which lines ask is itself a function of the run (`Interrupts.RunRequests`), so that for slave lines
  the statement needs no register at all (`Interrupts.SlaveLineByHistory`). The processor enters only
  by a present interrupt gate whose selector it can load into cs. The stubs call every handler with
  the kernel's data segments and interrupts off, and restore the interrupted state exactly when stub class and processor agree on the error
  code and the handler kept its argument (`Stubs.Core.Interrupt`).
* **Keyboard to screen.** Framing and serialising are inverse; a schedule of arrivals and interrupts
  is faithful if and only if no interrupt finds a prefix standing alone; then the screen shows the
  text of the byte stream. For every complete stream there is such a schedule: the bytes arrive, and
  as many interrupts as there are keycodes run (`I8042.FaithfulIff`, `I8042.Type`,
  `I8042.TypeStream`). The key maps are the layout given by strings, so each row of keys can be
  followed from its bytes to its characters, with each modifier held and released
  (`Keyboard.KeymapIsLegend`, `Keyboard.ShiftedRowText`, `I8042.TypeRow`).
* **Controller start-up.** Against every controller `i8042_init` polls at most 8 * 0x2000 times,
  follows one script, waits before every write but two, and prints what belongs to the place where it
  stops. Every controller that obeys commands by their numbers is left with both channels on after a
  finished run, off on every exit from the flush to the self-test, and with its own configuration
  byte (`I8042Setup.Controller.Init`, `I8042Setup.RunOutcome`, `I8042Setup.OrderlyIsDisciplined`).
* **PCI.** The scan prints, for every device of buses 0 to 254 and for no other, exactly the entries of
  its own scan, ascending, and lists a device right if and only if it has no function from 4 on and
  header bit 7 in all functions but the last (`Pci.Scanner.PciInit`, `Pci.AllReportsComplete`,
  `Pci.FaithfulIff`).

## Where the code falls short

Each of these is a proved statement.

* `paging_map` masks nothing off its flags: from bit 12 up they spill into the page number. A pointer
  is right if and only if every flag bit from 12 up is also a bit of the address
  (`Paging.PointerReachesIff`), and flags 0x1002 map 0xFEE00000 one page too high
  (`Paging.LargeFlagsMissTarget`). `PAGING_USERLAND` never grants user access, because directory entry 1023 is a supervisor entry (`Paging.CallMapping`).
* `nMiscIndex` is unbounded: a call gets a fresh page if and only if it is among the first 1024
  (`Paging.FreshPageIff`), and call number 1024 stores past the table: with the directory next in memory, into its
  entry 0, so that the requested page becomes the table of the first 4 MiB
  (`Paging.LateCallHitsDirectory`).
* `gdt_init` announces five gates, but the limit it stores covers three, so selectors 0x18 and 0x20
  are out of reach (`Boot.Kernel.GdtInit`, `Boot.ReachableSelectors`).
* `pic_init` does not clear what firmware left in service: the interrupt invariant holds from the
  start if and only if nothing was (`Interrupts.StartIff`).
* Vectors 17 and 21 have stubs that do not expect the error code the processor pushes; they return to
  the error code (`Stubs.StubMatchesProcessorIff`, `Stubs.Core.Interrupt`). The stubs bring es, fs
  and gs back as ds.
* `i8042_irq` reads the byte after 0xE0 without waiting; read too early, the right-hand `/` of a
  numeric pad prints a slash that the whole keycode does not print (`I8042.TornSlash`).
* `i8042_init` does not wait before its first write, nor before enabling port B
  (`I8042Setup.OrderlyIsDisciplined`).
* `read_pci_config` keeps two of three function bits, so a scan of functions 0 to 7 looks at 0 to 3
  twice (`Pci.AddressAliases`, `Pci.ListedTwice`), and it trusts header bit 7 of the function it
  happens to be at.
* A char from 0x80 up overrides the colour with ones (`Terminal.VgaEntryDecodes`).

## Reading the model

Addresses and memory words are integers with explicit bounds, and every wrap-around and truncation is
written out. C's `&` with a mask of low ones is `%`, a right shift is `/`, and `|` is the function
`Or`, whose uses in the code are proved equal to the sums in the specifications. Functions of the C
code that do many things in a row are split into methods (`FillTables`, `StoreGate`,
`InstallFaults`, `ReadConfig`, `PutLine` and the like). The manuals named in the comments are the
Intel SDM Volume 3A (sections 3.4.5, 3.4.5.1, 4.3, 4.10, 5.4 and 6.11, Table 6-1), the Intel 8259A
data sheet, and the PCI Local Bus Specification 3.0 (sections 3.2.2.3.2 and 6.1).

What the theorems assume, where the code cannot know: the boot loader hands over flat segments and
the loaded image; the tables, `gdt` and `p_gdt` do not overlap; entry points have distinct addresses;
firmware left nothing in service on either chip; handlers never set IF, and faults and interrupts do
not change privilege; ICW1 leaves the in-service register alone, as the data sheet's list suggests.
Every step of the runs ends with the wire from the slave's output to line 2 of the master, so its
request there is never a hypothesis. The processor may acknowledge whenever IF is set, requested or
not, which covers spurious interrupts. In the runs a fault enters by a stub that fits its vector (17
and 21 do not, see above), and a return restores the IF that was saved: a handler leaves the eflags
in its argument alone.

## Model

| member | source | states |
|---|---|---|
| Paging.EntryExpression | src/sys/arch/i686/paging.c:43-45 | the entry stored by paging_map, `\|` by `\|`, has the page (with what spills from the flags), the low flags, and present |
| Paging.PointerExpression | src/sys/arch/i686/paging.c:46 | the returned pointer is page n mod 1024 of the window of entry 1023, with the requested offset |
| Paging.KernelEntryExpression | src/sys/arch/i686/paging.c:25-32 | `p \| 0x3` is a present, writable entry for p |
| Paging.ViewOfEntry | src/sys/arch/i686/paging.c:45 | the processor reads back from the stored entry the page and flags asked for |
| Paging.WalkIsExpected | src/sys/arch/i686/paging.c:24-32 | the two-level walk over the tables gives, for every page, exactly two windows onto the first 4 MiB and one page for each call |
| Paging.FreshPageIff | src/sys/arch/i686/paging.c:11-48 | a call returns a page no earlier call returned if and only if it is among the first 1024 |
| Paging.SpillsIff | src/sys/arch/i686/paging.c:43-45 | the entry gets a page number of its own if and only if some flag bit from 12 up is not set in the address |
| Paging.PointerReachesIff | src/sys/arch/i686/paging.c:43-51 | the pointer reaches the requested physical address, offset included, if and only if every flag bit from 12 up is set in the address too |
| Paging.LargeFlagsMissTarget | src/sys/arch/i686/paging.c:45 | flags with bit 12 set map the wrong page |
| Paging.CallMapping | src/sys/arch/i686/paging.c:41-45 | without spilling the mapping is the page and flags asked for, never with user access |
| Paging.LateCallHitsDirectory | src/sys/arch/i686/paging.c:45-48 | after call number 1024, with the directory next in memory, every walk of the first 4 MiB reads the requested page as its table, and the tables are out of order unless that is the low table |
| Paging.StaysCoherent | src/sys/arch/i686/paging.c:45-50 | adding calls never makes a cached translation stale |
| Paging.TablesKept | src/sys/arch/i686/paging.c:3-6 | a store outside the tables, or one that keeps an entry's view, keeps the tables |
| Paging.UseKeepsTables | src/sys/arch/i686/paging.c:24-32 | the processor's accessed and dirty bits keep the tables |
| Paging.MapKeepsTables | src/sys/arch/i686/paging.c:45-48 | the entry stored is the next of the third table, and nothing else changes |
| Paging.StepKeepsInv | src/sys/arch/i686/paging.c:41-53 | every step (TLB fill, eviction, table use, other store, call) keeps tables, coherence and results |
| Paging.RunKeepsInv | src/sys/arch/i686/paging.c:12-53 | in every run the TLB agrees with the walk at every point and no call is forgotten |
| Paging.LookupIsExpected | src/sys/arch/i686/paging.c:24-48 | cached or not, the processor's translation is the expected one |
| Paging.ResultServes | src/sys/arch/i686/paging.c:41-52 | each result translates to the requested page with the requested rights, at the requested offset |
| Paging.ResultsDisjoint | src/sys/arch/i686/paging.c:46-48 | results of different calls lie in different pages |
| Paging.ResultsStayValid | src/sys/arch/i686/paging.c:41-52 | whatever happens later, a result still serves its request and shares its page with no other |
| Paging.TranslatesIff | src/sys/arch/i686/paging.c:24-48 | after n calls an address translates if and only if it lies in one of three ranges; two are aliases of the first 4 MiB |
| Machine.Machine.StoreWord | src/sys/arch/i686/paging.c:25-32 | a 32-bit store through a segment, and through TLB or tables, changes exactly the word its address translates to |
| Machine.Machine.Lgdt | src/sys/arch/i686/entry.s:88 | GDTR gets the limit and base stored at the operand's physical bytes |
| Machine.Machine.LoadSegment | src/sys/arch/i686/entry.s:90-97 | a selector beyond the limit, or a descriptor that is not present or not of the kind the register takes, faults, and nothing else does; otherwise the register gets the decoded descriptor at the linear address in GDTR, and its accessed bit is set in memory |
| Machine.AccessedKeeps | src/sys/arch/i686/entry.s:90-97 | the accessed bits that the loads leave in memory change neither kind nor privilege nor presence of a segment |
| Machine.Machine.Invlpg | src/sys/arch/i686/paging.c:50 | the page is not cached afterwards |
| Boot.LinearTranslates | src/sys/arch/i686/paging.c:30-31 | entry 0 maps the first 4 MiB to itself, entry 768 the kernel's addresses there |
| Boot.KernelTranslates | src/sys/arch/i686/entry.s:164-165 | with the fake base, or flat with paging, a kernel address translates to its physical address |
| Boot.FakeUnpagedReaches | src/sys/arch/i686/entry.s:156-167 | phase 1: every kernel address reaches its own byte through every segment register |
| Boot.PagedReaches | src/sys/arch/i686/paging.c:24-38 | phases 2 and 3: the same with the tables in use, under fake or flat segments and whatever the TLB holds |
| Boot.DecodeGate | src/sys/arch/i686/tables.c:47-58 | the processor decodes from a gate's bytes the base, limit, unit and default size given to gdt_set_gate |
| Boot.SetupDescriptors | src/sys/arch/i686/entry.s:156-167 | the bytes of .setup give limit, base and twice a 32-bit segment with base 0x40000000, loadable as code for selector 8 and as a stack for selector 16 |
| Boot.FlatGatesStored | src/sys/arch/i686/tables.c:66-70 | the stored gates give flat 32-bit segments, loadable into cs for selector 8 and into ss for selector 16 |
| Boot.LoadedGatesMean | src/sys/arch/i686/tables.c:66-70 | read by the rules of section 3.4.5, accessed bits and all: gate 0 is null, 1 and 3 are flat readable code, 2 and 4 flat writable data, at privilege 0 and then 3 |
| Boot.ReachableSelectors | src/sys/arch/i686/tables.c:61-70 | with the limit that gdt_init stores, a segment load finds selectors 0, 8 and 16 and faults on all others |
| Boot.DirectoryStep | src/sys/arch/i686/paging.c:30-32 | after the loop and the three directory stores the tables stand for no calls yet |
| Boot.ReloadSegments | src/sys/arch/i686/entry.s:90-97 | with code for selector 8 and writable data for selector 16, the moves and the far jump put the selected segment into all six registers |
| Boot.Kernel.GdtSetGate | src/sys/arch/i686/tables.c:47-58 | the gate's eight bytes are set, and no other byte changes |
| Boot.Kernel.GdtFlush | src/sys/arch/i686/entry.s:137-149 | under fake segments and paging, all segments become flat, GDTR points at gdt, and memory changes in two accessed bits only |
| Boot.Kernel.GdtInit | src/sys/arch/i686/tables.c:61-73 | five gates in memory, decoded as null, kernel code and data, user code and data, the two in use marked accessed; limit 23, flat segments, every kernel address still reached, no byte outside gdt and p_gdt changed |
| Boot.Kernel.StoreSlot | src/sys/arch/i686/paging.c:45 | the store through a kernel address hits the word that the walk reads for the next page of entry 1023, and no other |
| Boot.Kernel.PagingMap | src/sys/arch/i686/paging.c:41-53 | one more call: memory changes in that word only, registers not at all, the returned page is not cached, and the state stays one that all run results apply to |
| Boot.Kernel.RunningInv | src/sys/arch/i686/paging.c:41-53 | the state between calls satisfies the invariant of Paging's runs |
| Boot.Kernel.Start | src/sys/arch/i686/entry.s:87-97 | from the boot loader's state to the fake segments, by reading .setup and marking two of its descriptors accessed |
| Boot.Kernel.FillTables | src/sys/arch/i686/paging.c:24-28 | the loop fills the low table, clears the others, and touches nothing else |
| Boot.Kernel.FillDirectory | src/sys/arch/i686/paging.c:30-32 | the three directory entries complete the tables |
| Boot.Kernel.PagingInit | src/sys/arch/i686/paging.c:12-39 | paging is on with the tables in order, memory outside them unchanged, every kernel address reached |
| Boot.Kernel.Boot | src/sys/arch/i686/arch.c:9-11 | in all three phases every kernel address reaches the same physical byte; phase by phase what memory and registers changed and that nothing else did; at the end paging_map can run |
| Pic.Driver.PicInit | src/sys/arch/i686/pic.c:12-34 | from any chip state, the interleaved writes leave bases 32 and 40, edge triggers, 8086 mode with ends of interrupt by command, and only the cascade line open |
| Pic.Driver.PicEnableLine | src/sys/arch/i686/pic.c:36-42 | opens the line named and changes nothing else; from number 39 up, where the C shift is undefined, only the slave's mask may change |
| Pic.Driver.PicDisableLine | src/sys/arch/i686/pic.c:45-51 | closes the line named and changes nothing else; from number 39 up only the slave's mask may change |
| Pic.MasksAreLastCalls | src/sys/arch/i686/pic.c:30-51 | after any calls a line is open if and only if the last call naming it enabled it (the cascade line from the start) |
| Pic.SlaveLineTakenIff | src/sys/arch/i686/pic.c:23-24 | whatever else asks, a slave line is taken, with vector 40 + m, if and only if it is the first open line of the slave and the cascade line the first of the master |
| Pic.MasterLineTakenIff | src/sys/arch/i686/pic.c:18-32 | whatever else asks, a master line is taken, with vector 32 + n, if and only if it is the first open line |
| Pic.LineTakenIff | src/sys/arch/i686/pic.c:18-32 | the foremost line and no other is taken, with vector 32 + line |
| Pic.WiredForemost | src/sys/arch/i686/pic.c:21-24 | with the slave's output wired to line 2, a slave line is foremost if and only if it is the slave's first, line 2 is open and lines 0 and 1 do not ask |
| Pic.SlaveLineTakenIffWanted | src/sys/arch/i686/pic.c:30-51 | if line 2 is never named, a slave line is taken if and only if it asks, its last call enabled it, and no line before it does both |
| Pic.AfterCallDone | src/sys/arch/i686/pic.c:36-51 | the step of a run that stands for a call changes the mask of the line it names and nothing else |
| Pic.AcknowledgeRequests | src/sys/arch/i686/pic.c:17-28 | an acknowledge cycle takes away the request it serves and no other |
| Stubs.StubMatchesProcessorIff | src/sys/arch/i686/isr.s:35-41 | stub class and processor agree on the error code for every exception but 17 and 21 |
| Stubs.MatchedFrame | src/sys/arch/i686/isr.h:26-31 | what the stub loads and leaves is the interrupted state if and only if the handler kept its argument |
| Stubs.ArgsNamed | src/sys/arch/i686/isr.h:26-31 | every field of isr_args_t holds what it is named for; arg1 to arg4 are eax, ebx, ecx, edx |
| Stubs.StubOutcome | src/sys/arch/i686/isr.s:2-25 | for every stub, whether it and the processor agree or not, the words the handler sees and iret finds |
| Stubs.Core.Common | src/sys/arch/i686/isr.s:68-90 | isr_common: for any effect of the handler and any interrupted ds, it is called with the kernel data selector in ds, es, fs and gs, on the argument seen; then registers loaded, stack left |
| Stubs.Core.Interrupt | src/sys/arch/i686/isr.s:92-114 | from entry to iret: the handler runs with the kernel data selector in all four registers and IF clear; esp at the pushed eip if and only if the classes agree, and then everything restored if and only if the argument was kept |
| Idt.Table.IdtSetGate | src/sys/arch/i686/tables.c:158-165 | the processor reads back this gate as given, and all others as before |
| Idt.Table.IdtInit | src/sys/arch/i686/tables.c:77-156 | the processor finds, for vectors 0 to 47 and no others, a present 32-bit interrupt gate of privilege 0 with selector 8 and the address of the stub, of the APIC path if there is one; lidt has loaded base and limit of all 256 |
| Idt.InstalledLeads | src/sys/arch/i686/tables.c:84-150 | flags 0x8E read as present, S clear, type 14, privilege 0; 0 reads as not present |
| Irq.Dispatcher.IsrInit | src/sys/arch/i686/irq.c:8-12 | no handler is set |
| Irq.Dispatcher.IsrHandler | src/sys/arch/i686/irq.c:18-24 | calls the handler set, or unhandled_interrupt |
| Irq.Dispatcher.IrqHandlerPic | src/sys/arch/i686/irq.c:27-38 | ends of interrupt first, the slave's before the master's, then the handler |
| Irq.TableHoldsLastSet | src/sys/arch/i686/irq.c:8-24 | after any calls a number runs the handler set last for it, or unhandled_interrupt |
| Interrupts.IdThroughIsVector | src/sys/arch/i686/isr.s:43-58 | gate, selector, code segment, stub and pushed number agree for all 48 vectors: the processor can enter, and gets to the stub that pushes the vector |
| Interrupts.InitsConfigure | src/sys/arch/i686/arch.c:10-12 | what gdt_init and idt_init leave in memory is a configuration for the runs |
| Interrupts.HandlerSegmentsFlat | src/sys/arch/i686/isr.s:73-77 | the selector the stubs load for the handlers is within gdt_init's limit, admitted by ds, es, fs and gs, and gives flat writable data |
| Interrupts.AcknowledgeFits | src/sys/arch/i686/pic.c:17-28 | with nothing in service, the vector is the line's number and its bits are set, spurious ones included |
| Interrupts.EoiClears | src/sys/arch/i686/irq.c:28-31 | the non-specific command clears the one line in service |
| Interrupts.EoisAreHandlers | src/sys/arch/i686/irq.c:27-31 | the run's end-of-interrupt steps are the handler's port writes in order, followed by the wire |
| Interrupts.AcceptKeepsInv | src/sys/arch/i686/isr.s:19-25 | accepting finds a present interrupt gate for the code segment and a stub, under the number of what was taken |
| Interrupts.StepKeepsInv | src/sys/arch/i686/irq.c:27-38 | every step keeps the in-service bits equal to those of the interrupt being served, and the slave's output on line 2 |
| Interrupts.RunKeepsInv | src/sys/arch/i686/irq.c:27-38 | the same for every run |
| Interrupts.StartIff | src/sys/arch/i686/pic.c:12-34 | what pic_init and isr_init leave satisfies the invariant if and only if firmware left nothing in service |
| Interrupts.TableStep | src/sys/arch/i686/irq.c:14-16 | one more call of isr_set_handler: the table still holds the handler set last for every number |
| Interrupts.StepTrace | src/sys/arch/i686/irq.c:33-37 | only the dispatch step calls a handler, and it is the one set last for the number |
| Interrupts.RunTable | src/sys/arch/i686/irq.c:8-16 | over every run the table holds the handler set last for every number |
| Interrupts.RunRoutes | src/sys/arch/i686/irq.c:8-38 | over every run, with faults, requests, mask and handler calls in between: dispatch n is made by the run's dispatch step n and calls the handler set last by the calls up to then |
| Interrupts.RunMasks | src/sys/arch/i686/pic.c:36-51 | over every run the masks are those the calls of pic_enable_line and pic_disable_line ask for |
| Interrupts.StepRequests | src/sys/arch/i686/irq.c:27-31 | a line asks after a step if and only if the step raises it, or it asked before and the step neither withdraws nor accepts it |
| Interrupts.RunRequests | src/sys/arch/i686/irq.c:27-31 | over every run a line asks exactly as its raises, withdrawals and acceptances say |
| Interrupts.ReadyWhenOpen | src/sys/arch/i686/isr.s:92-114 | in every run from the initial state, whenever IF is set nothing is in service, open requests are deliverable, and all accepted interrupts were dispatched in order, each to the handler set last for its number |
| Interrupts.LineServed | src/sys/arch/i686/irq.c:27-38 | a line is accepted next if and only if it is foremost; then it is ended, dispatched under 32 + line and returned from |
| Interrupts.LineRunsLastHandler | src/sys/arch/i686/irq.c:8-38 | after every run from the initial state, a line is accepted next if and only if it asks, its last call enabled it and no line before it on its chip does both, for a slave line with the cascade line enabled and lines 0 and 1 quiet; it then runs the handler set last for 32 + line, or unhandled_interrupt |
| Interrupts.SlaveLineNext | src/sys/arch/i686/pic.c:21-51 | if no call of the run names line 2, requests and last calls of the slave lines and of lines 0 and 1 alone decide whether a slave line is accepted next |
| Interrupts.SlaveLineByHistory | src/sys/arch/i686/pic.c:21-51 | the same without any register: a slave line is accepted next exactly by what was raised, withdrawn, accepted, enabled and disabled up to then |
| Terminal.VgaEntryExpression | src/sys/terminal.c:12-17 | the cell value, with a signed char extended into the colour |
| Terminal.VgaEntryDecodes | src/sys/terminal.c:12-17 | the low byte is the character; the high byte is the colour if and only if the character has 7 bits or the colour is all ones |
| Terminal.Put | src/sys/terminal.c:54-70 | cursor and window stay in range for every character |
| Terminal.RenderConcat | src/sys/terminal.c:72-76 | writing two texts is writing their concatenation |
| Terminal.CellShowsLastHit | src/sys/terminal.c:54-76 | every cell shows the last character whose cursor position hit it |
| Terminal.CellWithoutHit | src/sys/terminal.c:54-76 | a cell that no character hit shows what it showed before |
| Terminal.CursorWithoutNewline | src/sys/terminal.c:61-69 | without newlines the cursor ends at (p + n) mod 1920 |
| Terminal.CellsWithoutNewline | src/sys/terminal.c:54-76 | closed form of every cell for texts of any length without newlines |
| Terminal.BeyondWindowKept | src/sys/terminal.c:48-70 | memory past the window is never written |
| Terminal.ShortTextShown | src/sys/terminal.c:72-76 | up to 1920 characters are all shown, each in the next cell, and no other cell changes |
| Terminal.TextReadBack | src/sys/terminal.c:72-76 | reading the cells from the old cursor on gives the text back |
| Terminal.HexRoundTrip | src/sys/terminal.c:78-99 | parsing the eight upper-case digits gives the value back |
| Terminal.HexShown | src/sys/terminal.c:94-99 | the digits of a value read back from the screen parse to it, in the current colour, and the cursor is eight on |
| Terminal.AdvanceByRow | src/sys/terminal.c:56-69 | counting by row and column is counting positions modulo 1920 |
| Terminal.Terminal.Initialize | src/sys/terminal.c:27-41 | the window is blank in light grey on black, the cursor at its start |
| Terminal.Terminal.PutChar | src/sys/terminal.c:54-70 | the screen becomes the old one with this character put |
| Terminal.Terminal.WriteString | src/sys/terminal.c:72-76 | the screen becomes the old one with the characters up to the zero rendered |
| Terminal.Terminal.WriteHexDigits | src/sys/terminal.c:78-92 | renders the two digits of a byte |
| Terminal.Terminal.WriteHex | src/sys/terminal.c:94-99 | renders the eight digits of a value |
| Keyboard.HeldStep | src/sys/keyboard.c:66-81 | a flag is the last event of its key: set by a press, cleared by a release, left by anything else |
| Keyboard.PrintsIff | src/sys/keyboard.c:48-65 | which keycodes print: never modifiers, releases or prefixed codes, and independently of the modifiers |
| Keyboard.TextWithoutPrefixed | src/sys/keyboard.c:49-50 | dropping all two-byte keycodes from a history changes no text |
| Keyboard.KeymapIsLegend | src/sys/keyboard.c:7-41 | both maps are the layout given by four pairs of strings and five keys; all other codes are blank |
| Keyboard.LegendPrinted | src/sys/keyboard.c:54-64 | after any history a code prints what its key shows, the upper character exactly while a shift or caps lock is held |
| Keyboard.OtherKeys | src/sys/keyboard.c:8-22 | escape, backspace, tab, enter and space print codes 27, 8, 9, 10 and 32, shifted or not |
| Keyboard.TextConcat | src/sys/keyboard.c:48-82 | the text of two stretches of keycodes is the text of the first and that of the second after it |
| Keyboard.RowText | src/sys/keyboard.c:7-41 | typing a row after any history shows its string, upper or lower |
| Keyboard.ShiftedRowText | src/sys/keyboard.c:66-81 | a row after a press of 0x2A, 0x36 or 0x3A shows the upper string, and again after the release the lower one |
| Keyboard.Driver.Handle | src/sys/keyboard.c:48-82 | flags equal the history's, and the screen gets exactly what the code prints after that history |
| I8042.DecodeSerialize | src/sys/arch/i686/drv/i8042.c:65-73 | every sequence of keycodes survives serialising and framing |
| I8042.SerializeDecode | src/sys/arch/i686/drv/i8042.c:65-73 | every complete byte stream survives framing and serialising |
| I8042.InterruptFrames | src/sys/arch/i686/drv/i8042.c:63-77 | one interrupt reads exactly the keycode it hands over, unless a prefix stands alone |
| I8042.BytesConserved | src/sys/arch/i686/drv/i8042.c:58-78 | over every schedule, bytes delivered and pending are the bytes arrived, plus one for each torn keycode |
| I8042.FaithfulIff | src/sys/arch/i686/drv/i8042.c:67-73 | delivered and pending bytes are the arrived ones if and only if no interrupt finds a lone prefix |
| I8042.DrainedRunDecodes | src/sys/arch/i686/drv/i8042.c:58-78 | a faithful run that reads everything delivers the keycodes of the stream |
| I8042.TornSlash | src/sys/arch/i686/drv/i8042.c:67-73 | a torn 0xE0 0x35 prints a slash that the whole keycode does not |
| I8042.Handler.Irq | src/sys/arch/i686/drv/i8042.c:58-78 | keycode handed over, bytes left, text put on the screen |
| I8042.Handler.Serve | src/sys/arch/i686/drv/i8042.c:58-78 | any schedule leaves the abstract run's bytes and keycodes, and their text on the screen |
| I8042.Type | src/sys/arch/i686/drv/i8042.c:58-78 | from the wire to the screen: the text of the byte stream, for every faithful schedule |
| I8042.StreamDelivered | src/sys/arch/i686/drv/i8042.c:58-78 | for every complete stream, its arrival and as many interrupts as keycodes, or more, deliver exactly its keycodes and tear none |
| I8042.InterruptsDrain | src/sys/arch/i686/drv/i8042.c:58-78 | the same from any state with complete keycodes pending |
| I8042.CodesDelivered | src/sys/arch/i686/drv/i8042.c:58-78 | interrupts over the serialised bytes of any keycodes deliver exactly these keycodes |
| I8042.TypeStream | src/sys/arch/i686/drv/i8042.c:58-78 | from the wire to the screen with conditions on the byte stream alone |
| I8042.TypeRow | src/sys/arch/i686/drv/i8042.c:58-78 | from the wire to the screen by strings: each row, with each modifier pressed and released, shows its upper and then its lower characters |
| I8042Setup.OrderlyIsDisciplined | src/sys/arch/i686/drv/i8042.c:90-142 | every write follows a status read with the input buffer clear and no write between, except exactly the first and the last |
| I8042Setup.ClearNowIff | src/sys/arch/i686/drv/i8042.c:34-43 | the running form of that condition is the one over the whole log |
| I8042Setup.PartFollows | src/sys/arch/i686/drv/i8042.c:90-142 | each early exit leaves a proper prefix of the script |
| I8042Setup.EndFollows | src/sys/arch/i686/drv/i8042.c:139-142 | after the self-test the script has only its closing left |
| I8042Setup.CopyStays | src/sys/arch/i686/drv/i8042.c:103-118 | later accesses do not undo that the configuration was copied |
| I8042Setup.AfterTraffic | src/sys/arch/i686/drv/i8042.c:34-54 | polls do nothing to a controller |
| I8042Setup.RunOutcome | src/sys/arch/i686/drv/i8042.c:20-23 | what each way out leaves of a controller that obeys commands by number: both channels on after a finished run, both off from the flush to the self-test, the configuration byte as told, no data write to a device |
| I8042Setup.Controller.WaitTx | src/sys/arch/i686/drv/i8042.c:34-43 | at most 0x2000 status reads; true ends with one that is clear, false after 0x2000 in vain |
| I8042Setup.Controller.WaitRx | src/sys/arch/i686/drv/i8042.c:45-54 | the same for the output buffer |
| I8042Setup.Controller.CopyConfig | src/sys/arch/i686/drv/i8042.c:103-121 | the configuration byte, read with the output buffer full, is written back with the input buffer clear |
| I8042Setup.Controller.SelfTest | src/sys/arch/i686/drv/i8042.c:126-132 | goes on only after the answer 0x55 |
| I8042Setup.Controller.Init | src/sys/arch/i686/drv/i8042.c:83-144 | handler 33 set and line 1 opened; at most 8 * 0x2000 status reads; all other accesses are a prefix of one script, the whole of it if and only if it finishes; past the copy the byte is as it was; each exit has its place in the script, its reason in the log, its effect on every controller and its text on the screen |
| Pci.AddressExpression | src/sys/arch/i686/drv/pci/pci.c:7-11 | the address written, `\|` by `\|`, is the sum of its fields |
| Pci.AddressSelects | src/sys/arch/i686/drv/pci/pci.c:6-14 | the bridge decodes bus, device, function modulo 4 and aligned offset |
| Pci.AddressInjective | src/sys/arch/i686/drv/pci/pci.c:7-11 | registers of functions 0 to 3 have addresses of their own |
| Pci.AddressAliases | src/sys/arch/i686/drv/pci/pci.c:10 | two functions share their addresses if and only if they agree modulo 4 |
| Pci.FaithfulIff | src/sys/arch/i686/drv/pci/pci.c:39-97 | the scan lists exactly the functions there are, each once, if and only if none is numbered 4 or more and exactly the last has bit 7 clear |
| Pci.ListedTwice | src/sys/arch/i686/drv/pci/pci.c:39-97 | with bit 7 set in each of the first four functions, the scan lists them twice over |
| Pci.TwoFunctionDevice | src/sys/arch/i686/drv/pci/pci.c:39-97 | functions 0 and 1 with bit 7 set are listed as 0, 1, 0, 1 |
| Pci.ReportsAreReal | src/sys/arch/i686/drv/pci/pci.c:40-59 | every entry describes a function that is there |
| Pci.OrderlyDeviceReports | src/sys/arch/i686/drv/pci/pci.c:39-97 | an orderly device's entries are its functions in order |
| Pci.ReportFields | src/sys/arch/i686/drv/pci/pci.c:40-59 | the fields of an entry are the bytes of the header at their offsets |
| Pci.SlotFields | src/sys/arch/i686/drv/pci/pci.c:42-48 | a function is there unless both vendor bytes read as ones, and its bit 7 is that of the header type |
| Pci.AllReportsComplete | src/sys/arch/i686/drv/pci/pci.c:29-110 | for every device below 32 on buses 0 to 254 the listing has exactly the entries of its own scan, for bus 255 none, ascending by bus and device |
| Pci.LineColumns | src/sys/arch/i686/drv/pci/pci.c:61-82 | a printed line has 46 characters and a line feed, with label and hexadecimal value of each field in its columns |
| Pci.EntryShown | src/sys/arch/i686/drv/pci/pci.c:61-91 | an entry is its line, and after it the remark exactly if the bytes at 0x0B and 0x0A are 6 and 4 |
| Pci.LineInjective | src/sys/arch/i686/drv/pci/pci.c:61-82 | a printed line determines bus, device, identifiers, classes and header type |
| Pci.Scanner.ReadPciConfig | src/sys/arch/i686/drv/pci/pci.c:6-16 | returns the register that the decoded address names |
| Pci.Scanner.ScanFunction | src/sys/arch/i686/drv/pci/pci.c:40-95 | prints the function's entry if it is there, and stops the device if bit 7 is clear |
| Pci.Scanner.ScanDevice | src/sys/arch/i686/drv/pci/pci.c:38-98 | prints the entries of the listed functions in order |
| Pci.Scanner.ScanPciBus | src/sys/arch/i686/drv/pci/pci.c:29-103 | prints the entries of devices 0 to 31 in order |
| Pci.Scanner.PciInit | src/sys/arch/i686/drv/pci/pci.c:105-110 | prints the headings, then the listing of a sequence that is complete: buses 0 to 254, each device once, in order |

## Left out

- The work of the APIC path (`apic.c`, and dispatch through `irq_handler_apic`): register pokes, off by default. Its stubs and gates are modelled.
- PIT set-up, `udelay`, `mdelay`, CPUID and MSR wrappers: single computations or timing.
- Bodies of handlers other than `i8042_irq`, and exception handlers that print and hang: the interrupt runs call handlers by number, with any effect that leaves IF clear.
- Idt.Table: `idts` is an array of its own and `lidt` copies p_idt; unlike the GDT, its bytes are not fetched through IDTR and translation.
- Instruction fetch, write-protection and segment limit checks, and anything that runs at a privilege level other than 0.
- Machine.Machine.LoadSegment: not for the null selector, which no code here loads; ds, es, fs and gs would take it and fault on use.
- A keyboard controller that resets its configuration byte on the self-test, or that ties its clock bits to anything but the four channel commands and writes of the byte.
- 8259A features the kernel does not use: specific and rotating ends of interrupt, polling, special masks, OCW3 reads. Read-modify-write of a mask is one step between others in `Interrupts`.
- C locals and `nMiscIndex` are fields, not words of the modelled memory.
- Accessed and dirty bits are part of the runs in `Paging`, not of the straight-line boot code in `Boot`; they do not change what a walk yields (`X86.UsedKeepsView`).
- `paging_map` before the flat GDT: nothing calls it there.
- Keyboard interrupts that arrive during the conversation of `i8042_init`.
- The keyboard controller's second channel, parity and timeout bits: the interrupt ignores them.
- `terminal_setcolor`, banner text, `test.cpp`, `write_pci_config` (never called), and descriptor fields that are never filled.
- Boot.Kernel.PagingMap: requires a free slot, because the C array has 1024 entries and a later store is past its end; what the code does then is in Paging.FreshPageIff and Paging.LateCallHitsDirectory.
- Boot.Kernel.StoreSlot: requires a free slot, for the same reason.
- Pic.Driver.PicEnableLine: from 39 up the byte written to the slave's mask is arbitrary, since the C shift is undefined there.
- Pic.Driver.PicDisableLine: the same.
