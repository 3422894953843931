/** The handler table of irq.c and its two dispatchers. */
module Irq {
  import opened Bits
  import opened X86
  import opened Pic

  /** What a dispatcher calls: a registered handler, named by a number, or unhandled_interrupt. */
  datatype Called = Handler(h: nat) | Unhandled

  function Target(table: seq<Option<nat>>, id: nat): Called
    requires |table| == 256 && id < 256
  {
    match table[id]
    case Some(h) => Handler(h)
    case None => Unhandled
  }

  /** irq_handler_pic's ends of interrupt: for a line of the slave, the slave first. */
  function AfterEoi(p: Pics, id: nat): Pics {
    var q := if id >= 40 then PortWrite(p, PIC2_CMD, 0x20) else p;
    PortWrite(q, PIC1_CMD, 0x20)
  }

  /** A call of isr_set_handler; a null handler is None. */
  datatype SetCall = SetCall(num: U8, handler: Option<nat>)

  /** The handler given last for a number, if any. */
  function LastSet(calls: seq<SetCall>, id: nat): Called {
    if calls == [] then Unhandled
    else
      var last := calls[|calls| - 1];
      if last.num == id then (match last.handler case Some(h) => Handler(h) case None => Unhandled)
      else LastSet(calls[..|calls| - 1], id)
  }

  /** After isr_init and any calls of isr_set_handler, a number runs the handler set last for it. */
  lemma {:induction false} TableHoldsLastSet(tables: seq<seq<Option<nat>>>, calls: seq<SetCall>, id: nat)
    requires |tables| == |calls| + 1 && id < 256
    requires forall i | 0 <= i < |tables| :: |tables[i]| == 256
    requires tables[0][id] == None
    requires forall i | 0 <= i < |calls| :: tables[i + 1] == tables[i][calls[i].num := calls[i].handler]
    ensures Target(tables[|calls|], id) == LastSet(calls, id)
    decreases |calls|
  {
    var n := |calls|;
    if n > 0 {
      TableHoldsLastSet(tables[..n], calls[..n - 1], id);
      assert tables[n - 1 + 1] == tables[n - 1][calls[n - 1].num := calls[n - 1].handler];
    }
  }

  class Dispatcher {
    const handlers: array<Option<nat>>
    const chips: Driver

    constructor (chips: Driver)
      ensures fresh(handlers) && handlers.Length == 256 && this.chips == chips
    {
      handlers := new Option<nat>[256](_ => None);
      this.chips := chips;
    }

    method IsrInit()
      requires handlers.Length == 256
      modifies handlers
      ensures forall i | 0 <= i < 256 :: handlers[i] == None
    {
      for i := 0 to 256
        invariant forall j | 0 <= j < i :: handlers[j] == None
      {
        handlers[i] := None;
      }
    }

    method IsrSetHandler(num: U8, handler: Option<nat>)
      requires handlers.Length == 256
      modifies handlers
      ensures handlers[..] == old(handlers[..])[num := handler]
    {
      handlers[num] := handler;
    }

    /** The number comes from a stub, so it is below 48; the code does not check it. */
    method IsrHandler(id: nat) returns (called: Called)
      requires handlers.Length == 256 && id < 256
      ensures called == Target(handlers[..], id)
    {
      if handlers[id].Some? {
        called := Handler(handlers[id].value);
      } else {
        called := Unhandled;
      }
    }

    method IrqHandlerPic(id: nat) returns (called: Called)
      requires handlers.Length == 256 && id < 256
      modifies chips
      ensures called == Target(handlers[..], id) && chips.pics == AfterEoi(old(chips.pics), id)
    {
      if id >= 40 {
        chips.Outb(PIC2_CMD, 0x20);
      }
      chips.Outb(PIC1_CMD, 0x20);

      if handlers[id].Some? {
        called := Handler(handlers[id].value);
      } else {
        called := Unhandled;
      }
    }
  }
}
