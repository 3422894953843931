/** The keyboard interrupt of i8042.c: bytes become keycodes, keycodes become text on the screen. */
module I8042 {
  import opened Terminal
  import opened Keyboard

  const PREFIX: bv8 := 0xE0

  // ---------- bytes and keycodes ----------

  predicate TwoByte(code: bv16) { code & 0xFF00 == 0xE000 }

  /** The keycodes a keyboard can send: one byte other than 0xE0, or 0xE0 and a byte. */
  predicate WellFormed(code: bv16) { TwoByte(code) || (code < 0x100 && code != 0xE0) }

  function Pair(low: bv8): bv16 { 0xE000 | (low as bv16) }

  function LowByte(code: bv16): bv8 { (code & 0xFF) as bv8 }

  function BytesOf(code: bv16): seq<bv8> {
    if TwoByte(code) then [PREFIX, LowByte(code)] else [LowByte(code)]
  }

  /** The images of a sequence, one after the other. */
  function FlatMap<A, B>(f: A -> seq<B>, xs: seq<A>): seq<B> {
    if xs == [] then [] else f(xs[0]) + FlatMap(f, xs[1..])
  }

  lemma FlatMapCons<A, B>(f: A -> seq<B>, x: A, xs: seq<A>)
    ensures FlatMap(f, [x] + xs) == f(x) + FlatMap(f, xs)
  {
    assert ([x] + xs)[1..] == xs;
  }

  lemma {:induction false} FlatMapOne<A, B>(f: A -> seq<B>, xs: seq<A>, x: A)
    ensures FlatMap(f, xs + [x]) == FlatMap(f, xs) + f(x)
    decreases |xs|
  {
    if xs == [] {
      assert xs + [x] == [x] + [];
      FlatMapCons(f, x, []);
    } else {
      FlatMapOne(f, xs[1..], x);
      assert xs + [x] == [xs[0]] + (xs[1..] + [x]);
      FlatMapCons(f, xs[0], xs[1..] + [x]);
    }
  }

  function Serialize(codes: seq<bv16>): seq<bv8> { FlatMap(BytesOf, codes) }

  /** No keycode of the stream is cut off. */
  predicate Complete(bytes: seq<bv8>) {
    bytes == []
    || (bytes[0] != PREFIX && Complete(bytes[1..]))
    || (bytes[0] == PREFIX && |bytes| >= 2 && Complete(bytes[2..]))
  }

  /** The keycodes in a stream; a prefix cut off at the end is dropped. */
  function Decode(bytes: seq<bv8>): seq<bv16> {
    if bytes == [] then []
    else if bytes[0] != PREFIX then [bytes[0] as bv16] + Decode(bytes[1..])
    else if |bytes| >= 2 then [Pair(bytes[1])] + Decode(bytes[2..])
    else []
  }

  lemma CodeRoundTrip(code: bv16)
    requires WellFormed(code)
    ensures TwoByte(code) ==> Pair(LowByte(code)) == code
    ensures !TwoByte(code) ==> LowByte(code) != PREFIX && LowByte(code) as bv16 == code
  {
  }

  lemma ByteRoundTrip(b: bv8)
    ensures TwoByte(Pair(b)) && LowByte(Pair(b)) == b
    ensures !TwoByte(b as bv16) && LowByte(b as bv16) == b
    ensures b != PREFIX ==> WellFormed(b as bv16)
  {
  }

  lemma PrefixTest(data: bv8)
    ensures data as bv16 == 0xE0 <==> data == PREFIX
    ensures (0xE0 as bv16) << 8 == 0xE000
  {
  }

  lemma DecodeTwo(b: bv8, rest: seq<bv8>)
    ensures Decode([PREFIX, b] + rest) == [Pair(b)] + Decode(rest) && Complete([PREFIX, b] + rest) == Complete(rest)
  {
    assert ([PREFIX, b] + rest)[2..] == rest;
  }

  lemma DecodeOne(b: bv8, rest: seq<bv8>)
    requires b != PREFIX
    ensures Decode([b] + rest) == [b as bv16] + Decode(rest) && Complete([b] + rest) == Complete(rest)
  {
    assert ([b] + rest)[1..] == rest;
  }

  lemma DecodeCode(code: bv16, rest: seq<bv8>)
    requires WellFormed(code)
    ensures Decode(BytesOf(code) + rest) == [code] + Decode(rest) && Complete(BytesOf(code) + rest) == Complete(rest)
  {
    CodeRoundTrip(code);
    if TwoByte(code) { DecodeTwo(LowByte(code), rest); } else { DecodeOne(LowByte(code), rest); }
  }

  lemma SerializeCons(code: bv16, codes: seq<bv16>)
    ensures Serialize([code] + codes) == BytesOf(code) + Serialize(codes)
  {
    FlatMapCons(BytesOf, code, codes);
  }

  lemma {:induction false} DecodeSerialize(codes: seq<bv16>)
    requires forall c | c in codes :: WellFormed(c)
    ensures Complete(Serialize(codes)) && Decode(Serialize(codes)) == codes
    decreases |codes|
  {
    if codes != [] {
      DecodeSerialize(codes[1..]);
      DecodeCode(codes[0], Serialize(codes[1..]));
      assert codes == [codes[0]] + codes[1..];
      SerializeCons(codes[0], codes[1..]);
    }
  }

  lemma {:induction false} SerializeDecode(bytes: seq<bv8>)
    requires Complete(bytes)
    ensures Serialize(Decode(bytes)) == bytes
    ensures forall c | c in Decode(bytes) :: WellFormed(c)
    decreases |bytes|
  {
    if bytes != [] {
      ByteRoundTrip(bytes[0]);
      if bytes[0] != PREFIX {
        SerializeDecode(bytes[1..]);
        SerializeCons(bytes[0] as bv16, Decode(bytes[1..]));
      } else {
        ByteRoundTrip(bytes[1]);
        SerializeDecode(bytes[2..]);
        SerializeCons(Pair(bytes[1]), Decode(bytes[2..]));
        assert bytes == [bytes[0], bytes[1]] + bytes[2..];
      }
    }
  }

  lemma SerializeOne(codes: seq<bv16>, code: bv16)
    ensures Serialize(codes + [code]) == Serialize(codes) + BytesOf(code)
  {
    FlatMapOne(BytesOf, codes, code);
  }

  // ---------- runs: bytes arrive, interrupts run ----------

  /** The keyboard's side and the kernel's: bytes not yet read, keycodes delivered so far. */
  datatype Link = Link(pending: seq<bv8>, delivered: seq<bv16>)

  /** A byte becomes ready, or one interrupt runs; `idle` is what the data port reads as if
      nothing is ready. */
  datatype Event = Arrive(byte: bv8) | Irq(idle: bv8)

  /** The keycode one interrupt hands over, if any, and the bytes it leaves. */
  function Handed(pending: seq<bv8>, idle: bv8): seq<bv16> {
    if pending == [] then []
    else if pending[0] != PREFIX then [pending[0] as bv16]
    else [Pair(if |pending| >= 2 then pending[1] else idle)]
  }

  function Left(pending: seq<bv8>): seq<bv8> {
    if pending == [] then []
    else if pending[0] != PREFIX || |pending| == 1 then pending[1..]
    else pending[2..]
  }

  function After(l: Link, e: Event): Link {
    match e
    case Arrive(b) => Link(l.pending + [b], l.delivered)
    case Irq(idle) => Link(Left(l.pending), l.delivered + Handed(l.pending, idle))
  }

  const START := Link([], [])

  function Run(events: seq<Event>): Link {
    if events == [] then START else After(Run(events[..|events| - 1]), events[|events| - 1])
  }

  function Arrived(events: seq<Event>): seq<bv8> {
    if events == [] then []
    else
      var before, e := Arrived(events[..|events| - 1]), events[|events| - 1];
      if e.Arrive? then before + [e.byte] else before
  }

  /** The interrupts that found a prefix and nothing behind it. */
  function Torn(events: seq<Event>): nat {
    if events == [] then 0
    else
      var before, e := events[..|events| - 1], events[|events| - 1];
      Torn(before) + if e.Irq? && Run(before).pending == [PREFIX] then 1 else 0
  }

  lemma SerializeSingle(b: bv8)
    ensures Serialize([Pair(b)]) == [PREFIX, b] && WellFormed(Pair(b))
    ensures b != PREFIX ==> Serialize([b as bv16]) == [b] && WellFormed(b as bv16)
  {
    ByteRoundTrip(b);
    SerializeOne([], Pair(b));
    SerializeOne([], b as bv16);
    assert [] + [Pair(b)] == [Pair(b)] && [] + [b as bv16] == [b as bv16];
  }

  /** One interrupt reads exactly the keycode it hands over, unless the prefix stands alone. */
  lemma InterruptFrames(pending: seq<bv8>, idle: bv8)
    ensures pending != [PREFIX] ==> Serialize(Handed(pending, idle)) + Left(pending) == pending
    ensures pending == [PREFIX] ==> Serialize(Handed(pending, idle)) == [PREFIX, idle] && Left(pending) == []
    ensures forall c | c in Handed(pending, idle) :: WellFormed(c)
  {
    if pending != [] {
      if pending[0] != PREFIX {
        SerializeSingle(pending[0]);
      } else {
        SerializeSingle(if |pending| >= 2 then pending[1] else idle);
      }
    }
  }

  lemma SerializeAppend(codes: seq<bv16>, more: seq<bv16>)
    requires |more| <= 1
    ensures Serialize(codes + more) == Serialize(codes) + Serialize(more)
  {
    if more == [] {
      assert codes + more == codes;
    } else {
      assert more == [more[0]] && [] + more == more;
      SerializeOne(codes, more[0]);
      SerializeOne([], more[0]);
    }
  }

  lemma DeliverFrames(delivered: seq<bv16>, pending: seq<bv8>, idle: bv8)
    ensures Serialize(delivered + Handed(pending, idle)) + Left(pending)
              == Serialize(delivered) + if pending == [PREFIX] then [PREFIX, idle] else pending
  {
    var read := if pending == [PREFIX] then [PREFIX, idle] else pending;
    var handed, left := Handed(pending, idle), Left(pending);
    SerializeAppend(delivered, handed);
    assert Serialize(handed) + left == read by { InterruptFrames(pending, idle); }
    assert (Serialize(delivered) + Serialize(handed)) + left == Serialize(delivered) + (Serialize(handed) + left);
  }

  /** Conservation: with every torn interrupt one byte too many appears, and with none the bytes
      delivered and the bytes pending are the bytes that arrived. */
  lemma {:induction false} BytesConserved(events: seq<Event>)
    ensures var l := Run(events);
            && |Serialize(l.delivered)| + |l.pending| == |Arrived(events)| + Torn(events)
            && (Torn(events) == 0 ==> Serialize(l.delivered) + l.pending == Arrived(events))
            && forall c | c in l.delivered :: WellFormed(c)
    decreases |events|
  {
    if events != [] {
      var before, e := events[..|events| - 1], events[|events| - 1];
      BytesConserved(before);
      var l := Run(before);
      match e
      case Arrive(b) =>
        assert Serialize(l.delivered) + (l.pending + [b]) == (Serialize(l.delivered) + l.pending) + [b];
      case Irq(idle) =>
        DeliverFrames(l.delivered, l.pending, idle);
        InterruptFrames(l.pending, idle);
    }
  }

  /** The schedule is faithful exactly when no interrupt finds a prefix standing alone. */
  lemma FaithfulIff(events: seq<Event>)
    ensures Serialize(Run(events).delivered) + Run(events).pending == Arrived(events) <==> Torn(events) == 0
  {
    BytesConserved(events);
  }

  /** Once everything has been read, the kernel has seen the keycodes of the byte stream. */
  lemma DrainedRunDecodes(events: seq<Event>)
    requires Torn(events) == 0 && Run(events).pending == []
    ensures Complete(Arrived(events)) && Run(events).delivered == Decode(Arrived(events))
  {
    BytesConserved(events);
    var l := Run(events);
    assert Serialize(l.delivered) + [] == Serialize(l.delivered);
    DecodeSerialize(l.delivered);
  }

  // ---------- a schedule that works for every stream ----------

  /** The bytes arrive; interrupts run. */
  function Arrivals(bytes: seq<bv8>): seq<Event> {
    if bytes == [] then [] else Arrivals(bytes[..|bytes| - 1]) + [Arrive(bytes[|bytes| - 1])]
  }

  function Irqs(idles: seq<bv8>): seq<Event> {
    if idles == [] then [] else [Irq(idles[0])] + Irqs(idles[1..])
  }

  lemma RunOne(events: seq<Event>, e: Event)
    ensures Run(events + [e]) == After(Run(events), e)
    ensures Arrived(events + [e]) == Arrived(events) + if e.Arrive? then [e.byte] else []
    ensures Torn(events + [e]) == Torn(events) + if e.Irq? && Run(events).pending == [PREFIX] then 1 else 0
  {
    assert (events + [e])[..|events|] == events;
  }

  lemma {:induction false} ArrivalsPend(bytes: seq<bv8>)
    ensures Run(Arrivals(bytes)) == Link(bytes, []) && Torn(Arrivals(bytes)) == 0 && Arrived(Arrivals(bytes)) == bytes
    decreases |bytes|
  {
    if bytes != [] {
      var before, b := bytes[..|bytes| - 1], bytes[|bytes| - 1];
      ArrivalsPend(before);
      RunOne(Arrivals(before), Arrive(b));
      assert before + [b] == bytes;
    }
  }

  /** From complete pending bytes an interrupt takes the first keycode, and leaves complete bytes. */
  lemma FirstInterrupt(pending: seq<bv8>, idle: bv8)
    requires Complete(pending)
    ensures Complete(Left(pending)) && Decode(pending) == Handed(pending, idle) + Decode(Left(pending))
    ensures pending != [PREFIX] && |Handed(pending, idle)| == (if pending == [] then 0 else 1)
    ensures pending != [] ==> |Left(pending)| < |pending|
  {
  }

  lemma NothingLeft(pending: seq<bv8>)
    requires Complete(pending) && |Decode(pending)| == 0
    ensures pending == []
  {
    if pending != [] { FirstInterrupt(pending, 0); }
  }

  lemma InterruptDrains(events: seq<Event>, idle: bv8)
    requires Complete(Run(events).pending)
    ensures var l, l' := Run(events), Run(events + [Irq(idle)]);
            && Complete(l'.pending)
            && l'.delivered + Decode(l'.pending) == l.delivered + Decode(l.pending)
            && (|Decode(l.pending)| > 0 ==> |Decode(l'.pending)| < |Decode(l.pending)|)
            && (|Decode(l.pending)| == 0 ==> |Decode(l'.pending)| == 0)
    ensures Torn(events + [Irq(idle)]) == Torn(events) && Arrived(events + [Irq(idle)]) == Arrived(events)
  {
    var l := Run(events);
    var handed, left := Handed(l.pending, idle), Left(l.pending);
    RunOne(events, Irq(idle));
    FirstInterrupt(l.pending, idle);
    assert l.delivered + handed + Decode(left) == l.delivered + (handed + Decode(left));
  }

  /** The longer schedule delivers all that was pending, tears nothing more and adds no byte. */
  predicate Drained(events: seq<Event>, all: seq<Event>) {
    && Run(all) == Link([], Run(events).delivered + Decode(Run(events).pending))
    && Torn(all) == Torn(events) && Arrived(all) == Arrived(events)
  }

  lemma NothingDrains(events: seq<Event>)
    requires Complete(Run(events).pending) && |Decode(Run(events).pending)| == 0
    ensures Drained(events, events)
  {
    NothingLeft(Run(events).pending);
    assert Run(events).delivered + [] == Run(events).delivered;
  }

  lemma DrainedFirst(events: seq<Event>, idle: bv8, all: seq<Event>)
    requires Complete(Run(events).pending) && Drained(events + [Irq(idle)], all)
    ensures Drained(events, all)
  {
    InterruptDrains(events, idle);
  }

  lemma FirstIrq(events: seq<Event>, idles: seq<bv8>)
    requires idles != []
    ensures events + Irqs(idles) == events + [Irq(idles[0])] + Irqs(idles[1..])
  {
  }

  /** Whatever ran before: once complete keycodes are pending, as many interrupts as there are
      keycodes, or more, deliver them all and tear none. */
  lemma {:induction false} InterruptsDrain(events: seq<Event>, idles: seq<bv8>, all: seq<Event>)
    requires Complete(Run(events).pending) && |idles| >= |Decode(Run(events).pending)|
    requires all == events + Irqs(idles)
    ensures Drained(events, all)
    decreases |idles|
  {
    if idles == [] {
      assert all == events;
      NothingDrains(events);
    } else {
      var next := events + [Irq(idles[0])];
      InterruptDrains(events, idles[0]);
      FirstIrq(events, idles);
      InterruptsDrain(next, idles[1..], all);
      DrainedFirst(events, idles[0], all);
    }
  }

  /** Every complete stream: its bytes arrive, its interrupts run, and exactly its keycodes are
      delivered. */
  lemma StreamDelivered(bytes: seq<bv8>, idles: seq<bv8>)
    requires Complete(bytes) && |idles| >= |Decode(bytes)|
    ensures var events := Arrivals(bytes) + Irqs(idles);
            Run(events) == Link([], Decode(bytes)) && Torn(events) == 0 && Arrived(events) == bytes
  {
    ArrivalsPend(bytes);
    InterruptsDrain(Arrivals(bytes), idles, Arrivals(bytes) + Irqs(idles));
    assert [] + Decode(bytes) == Decode(bytes);
  }

  /** Every sequence of keycodes: interrupts over its serialised bytes deliver exactly it. */
  lemma CodesDelivered(codes: seq<bv16>, idles: seq<bv8>)
    requires (forall c | c in codes :: WellFormed(c)) && |idles| >= |codes|
    ensures Run(Arrivals(Serialize(codes)) + Irqs(idles)) == Link([], codes)
  {
    DecodeSerialize(codes);
    StreamDelivered(Serialize(codes), idles);
  }

  lemma TornText(idle: bv8)
    ensures Text([], [Pair(idle), 0x35]) == [47]
  {
    PrintsIff([], Pair(idle));
    TextOfOne([], Pair(idle));
    assert [Pair(idle)] + [0x35] == [Pair(idle), 0x35] && [] + [Pair(idle)] == [Pair(idle)];
    TextOne([], [Pair(idle)], 0x35);
    assert CapOf(0x35).lower == 47;
    assert !AnyHeld([Pair(idle)]);
  }

  lemma TornPair(idle: bv8)
    ensures var events := [Arrive(0xE0), Irq(idle)];
            Run(events) == Link([], [Pair(idle)]) && Torn(events) == 1 && Arrived(events) == [0xE0]
  {
    var e1, e2 := Arrive(0xE0), Irq(idle);
    assert [] + [e1] == [e1] && [e1] + [e2] == [e1, e2];
    RunOne([], e1);
    assert Run([e1]) == Link([0xE0], []) && Arrived([e1]) == [0xE0] && Torn([e1]) == 0;
    RunOne([e1], e2);
  }

  lemma TornRun(idle: bv8)
    ensures var events := [Arrive(0xE0), Irq(idle), Arrive(0x35), Irq(idle)];
            && Torn(events) == 1 && Arrived(events) == [0xE0, 0x35]
            && Run(events).delivered == [Pair(idle), 0x35]
  {
    var first, e3, e4 := [Arrive(0xE0), Irq(idle)], Arrive(0x35), Irq(idle);
    TornPair(idle);
    RunOne(first, e3);
    var second := first + [e3];
    assert Run(second) == Link([0x35], [Pair(idle)]) && Arrived(second) == [0xE0, 0x35] && Torn(second) == 1;
    RunOne(second, e4);
    assert second + [e4] == [Arrive(0xE0), Irq(idle), e3, e4];
  }

  /** Why the condition is needed: the right-hand `/` of a numeric pad is 0xE0 0x35 and prints
      nothing, but read apart its second byte prints a slash. */
  lemma TornSlash(idle: bv8)
    ensures var events := [Arrive(0xE0), Irq(idle), Arrive(0x35), Irq(idle)];
            && Torn(events) == 1
            && Text([], Decode(Arrived(events))) == []
            && Text([], Run(events).delivered) == [47]
  {
    TornRun(idle);
    TornText(idle);
    assert Decode([0xE0, 0x35]) == [Pair(0x35)] + Decode([]);
    PrintsIff([], Pair(0x35));
    TextOfOne([], Pair(0x35));
  }

  lemma ScreenGrows(s: Screen, history: seq<bv16>, codes: seq<bv16>)
    requires Ok(s) && |codes| <= 1
    ensures Render(Render(s, Text([], history)), Text(history, codes)) == Render(s, Text([], history + codes))
  {
    RenderConcat(s, Text([], history), Text(history, codes));
    if codes == [] {
      assert history + codes == history;
    } else {
      assert codes == [codes[0]];
      TextOfOne(history, codes[0]);
      TextOne([], history, codes[0]);
      assert [] + history == history;
    }
  }

  // ---------- the code ----------

  /** The controller as the interrupt sees it; both ports are its status and data registers. */
  class Controller {
    var pending: seq<bv8>
    var idle: bv8      // what the data port reads as with nothing pending
    var flags: bv8     // the other bits of the status register

    constructor ()
      ensures pending == []
    {
      pending := [];
      idle, flags := 0, 0;
    }

    method ReadStatus() returns (status: bv8)
      ensures status & 1 != 0 <==> pending != []
    {
      status := (flags & 0xFE) | (if pending != [] then 1 else 0);
    }

    method ReadData() returns (data: bv8)
      modifies this`pending
      ensures old(pending) != [] ==> data == old(pending)[0] && pending == old(pending)[1..]
      ensures old(pending) == [] ==> data == idle && pending == []
    {
      if pending == [] { return idle; }
      data, pending := pending[0], pending[1..];
    }
  }

  class Handler {
    const controller: Controller
    const keyboard: Keyboard.Driver

    constructor (controller: Controller, keyboard: Keyboard.Driver)
      ensures this.controller == controller && this.keyboard == keyboard
    {
      this.controller, this.keyboard := controller, keyboard;
    }

    method ReadKeycode() returns (keycode: bv16)
      requires controller.pending != []
      modifies controller`pending
      ensures controller.pending == Left(old(controller.pending))
      ensures [keycode] == Handed(old(controller.pending), controller.idle)
    {
      var data := controller.ReadData();
      keycode := data as bv16;
      PrefixTest(data);
      if keycode == 0xE0 {
        keycode := keycode << 8;
        var more := controller.ReadData();
        keycode := keycode | (more as bv16);
        assert keycode == Pair(more);
      }
    }

    /** What the interrupt does when data is incoming. */
    method Deliver()
      requires keyboard.Valid() && controller.pending != []
      modifies controller`pending, keyboard
      modifies keyboard.terminal`row, keyboard.terminal`column, keyboard.terminal.buffer
      ensures keyboard.Valid()
      ensures controller.pending == Left(old(controller.pending))
      ensures var codes := Handed(old(controller.pending), controller.idle);
              && keyboard.history == old(keyboard.history) + codes
              && keyboard.terminal.Now() == Render(old(keyboard.terminal.Now()), Text(old(keyboard.history), codes))
    {
      var keycode := ReadKeycode();
      TextOfOne(keyboard.history, keycode);
      keyboard.Handle(keycode);
    }

    method Irq()
      requires keyboard.Valid()
      modifies controller`pending, keyboard
      modifies keyboard.terminal`row, keyboard.terminal`column, keyboard.terminal.buffer
      ensures keyboard.Valid()
      ensures controller.pending == Left(old(controller.pending))
      ensures var codes := Handed(old(controller.pending), controller.idle);
              && keyboard.history == old(keyboard.history) + codes
              && keyboard.terminal.Now() == Render(old(keyboard.terminal.Now()), Text(old(keyboard.history), codes))
    {
      var status := controller.ReadStatus();
      if status & 1 != 0 {
        Deliver();
      }
    }

    /** The screen is s with the text of all keycodes so far written on it. */
    ghost predicate Shows(s: Screen)
      reads keyboard, keyboard.terminal, keyboard.terminal.buffer
    {
      && keyboard.Valid()
      && Ok(s)
      && keyboard.terminal.Now() == Render(s, Text([], keyboard.history))
    }

    method StepIrq(idle: bv8, ghost s: Screen)
      requires Shows(s)
      modifies controller, keyboard
      modifies keyboard.terminal`row, keyboard.terminal`column, keyboard.terminal.buffer
      ensures Shows(s)
      ensures controller.pending == Left(old(controller.pending))
      ensures keyboard.history == old(keyboard.history) + Handed(old(controller.pending), idle)
    {
      ghost var history, codes := keyboard.history, Handed(controller.pending, idle);
      controller.idle := idle;
      Irq();
      assert |codes| <= 1;
      ScreenGrows(s, history, codes);
    }

    method Step(e: Event, ghost s: Screen)
      requires Shows(s)
      modifies controller, keyboard
      modifies keyboard.terminal`row, keyboard.terminal`column, keyboard.terminal.buffer
      ensures Shows(s)
      ensures Link(controller.pending, keyboard.history) == After(old(Link(controller.pending, keyboard.history)), e)
    {
      match e
      case Arrive(b) => controller.pending := controller.pending + [b];
      case Irq(idle) => StepIrq(idle, s);
    }

    /** Bytes arrive and interrupts run, one at a time, from the first keystroke on. */
    method Serve(events: seq<Event>)
      requires keyboard.Valid() && keyboard.history == [] && controller.pending == []
      modifies controller, keyboard
      modifies keyboard.terminal`row, keyboard.terminal`column, keyboard.terminal.buffer
      ensures Shows(old(keyboard.terminal.Now()))
      ensures Link(controller.pending, keyboard.history) == Run(events)
    {
      ghost var before := keyboard.terminal.Now();
      for i := 0 to |events|
        invariant Shows(before)
        invariant Link(controller.pending, keyboard.history) == Run(events[..i])
      {
        assert events[..i + 1] == events[..i] + [events[i]];
        RunOne(events[..i], events[i]);
        Step(events[i], before);
      }
      assert events[..|events|] == events;
    }
  }

  /** From the wire to the screen: whatever the order in which bytes arrive and interrupts run, if
      no interrupt tears a keycode and all bytes are read, the screen shows the text of the byte
      stream, by the framing and the key maps alone. */
  method Type(handler: Handler, events: seq<Event>)
    requires handler.keyboard.Valid() && handler.keyboard.history == [] && handler.controller.pending == []
    requires Torn(events) == 0 && Run(events).pending == []
    modifies handler.controller, handler.keyboard
    modifies handler.keyboard.terminal`row, handler.keyboard.terminal`column, handler.keyboard.terminal.buffer
    ensures handler.keyboard.Valid()
    ensures handler.keyboard.terminal.Now()
              == Render(old(handler.keyboard.terminal.Now()), Text([], Decode(Arrived(events))))
  {
    DrainedRunDecodes(events);
    handler.Serve(events);
  }

  /** For every complete byte stream: its bytes arrive, at least one interrupt for each keycode
      runs, and the screen shows its text. */
  method TypeStream(handler: Handler, bytes: seq<bv8>, idles: seq<bv8>)
    requires handler.keyboard.Valid() && handler.keyboard.history == [] && handler.controller.pending == []
    requires Complete(bytes) && |idles| >= |Decode(bytes)|
    modifies handler.controller, handler.keyboard
    modifies handler.keyboard.terminal`row, handler.keyboard.terminal`column, handler.keyboard.terminal.buffer
    ensures handler.keyboard.Valid() && handler.keyboard.history == Decode(bytes) && handler.controller.pending == []
    ensures handler.keyboard.terminal.Now() == Render(old(handler.keyboard.terminal.Now()), Text([], Decode(bytes)))
  {
    StreamDelivered(bytes, idles);
    handler.Serve(Arrivals(bytes) + Irqs(idles));
  }

  lemma PlainWellFormed(code: bv16)
    requires code < 0x100 && code != 0xE0
    ensures WellFormed(code)
  {
  }

  lemma RowWellFormed(r: Row)
    requires IsRow(r)
    ensures forall c | c in RowCodes(r) :: WellFormed(c)
  {
    forall c | c in RowCodes(r)
      ensures WellFormed(c)
    {
      var i: nat :| i < |RowCodes(r)| && c == RowCodes(r)[i];
      RowLegend(r, r.first + i);
      CodeOfBound(r.first + i);
      PlainWellFormed(c);
    }
  }

  lemma ShiftedRowWellFormed(r: Row, key: bv16)
    requires IsRow(r) && (key == 0x2A || key == 0x36 || key == 0x3A)
    ensures forall c | c in ShiftedRow(r, key) :: WellFormed(c)
  {
    RowWellFormed(r);
    PlainWellFormed(key);
    PlainWellFormed(key | 0x80);
  }

  /** A row of keys from the wire to the screen: with shift or caps lock down, and after its release,
      the screen shows the upper and then the lower characters of the row. */
  method TypeRow(handler: Handler, r: Row, key: bv16, idles: seq<bv8>)
    requires handler.keyboard.Valid() && handler.keyboard.history == [] && handler.controller.pending == []
    requires IsRow(r) && (key == 0x2A || key == 0x36 || key == 0x3A) && |idles| >= |ShiftedRow(r, key)|
    modifies handler.controller, handler.keyboard
    modifies handler.keyboard.terminal`row, handler.keyboard.terminal`column, handler.keyboard.terminal.buffer
    ensures handler.keyboard.Valid() && handler.controller.pending == []
    ensures handler.keyboard.terminal.Now()
              == Render(old(handler.keyboard.terminal.Now()), Ascii(r.upper) + Ascii(r.lower))
  {
    ShiftedRowWellFormed(r, key);
    DecodeSerialize(ShiftedRow(r, key));
    ShiftedRowText([], r, key);
    TypeStream(handler, Serialize(ShiftedRow(r, key)), idles);
  }
}
