/** The start-up conversation of i8042_init with an arbitrary keyboard controller. */
module I8042Setup {
  import opened Bits
  import opened Terminal
  import Irq
  import Pic
  import X86

  type Port = U16

  /** One access to a port of the controller, as the processor sees it. */
  datatype Access = In(port: Port, value: bv8) | Out(port: Port, value: bv8)

  /** Any controller: what it answers may depend on everything that happened to it before. */
  type Device = (seq<Access>, Port) -> bv8

  ghost predicate Honest(device: Device, log: seq<Access>) {
    log == [] ||
    var before, a := log[..|log| - 1], log[|log| - 1];
    Honest(device, before) && (a.In? ==> a.value == device(before, a.port))
  }

  const DATA: U16 := 0x60
  const COMMAND: U16 := 0x64
  const OUTBUF: bv8 := 1
  const INBUF: bv8 := 2
  const TEST: bv8 := 0xAA
  const TEST_OKAY: bv8 := 0x55
  const DISABLE_A: bv8 := 0xAD
  const DISABLE_B: bv8 := 0xA7
  const ENABLE_A: bv8 := 0xAE
  const ENABLE_B: bv8 := 0xA8
  const READ0: bv8 := 0x20
  const WRITE0: bv8 := 0x60
  const POLLS: nat := 0x2000

  predicate Status(a: Access) { a.In? && a.port == 0x64 }

  /** A status read that lets the processor write, or one that promises it data. */
  predicate Ready(a: Access) { Status(a) && a.value & 0x02 == 0 }

  predicate Full(a: Access) { Status(a) && a.value & 0x01 != 0 }

  function StatusReads(log: seq<Access>): nat {
    if log == [] then 0
    else StatusReads(log[..|log| - 1]) + if Status(log[|log| - 1]) then 1 else 0
  }

  /** The log without the status reads. */
  function Traffic(log: seq<Access>): seq<Access> {
    if log == [] then []
    else
      var before, a := Traffic(log[..|log| - 1]), log[|log| - 1];
      if Status(a) then before else before + [a]
  }

  // ---------- the script ----------

  function Reads(values: seq<bv8>): seq<Access> { seq(|values|, i requires 0 <= i < |values| => In(0x60, values[i])) }

  function Opening(flushed: seq<bv8>): seq<Access> {
    [Out(0x64, 0xAD), Out(0x64, 0xA7)] + Reads(flushed)
  }

  function Copy(config: bv8): seq<Access> {
    [Out(0x64, 0x20), In(0x60, config), Out(0x64, 0x60), Out(0x60, config)]
  }

  function Test(answer: bv8): seq<Access> { [Out(0x64, 0xAA), In(0x60, answer)] }

  const CLOSING: seq<Access> := [Out(0x64, 0xAE), Out(0x64, 0xA8)]

  /** Everything but the polls, in a run that gets to the end. */
  function Script(flushed: seq<bv8>, config: bv8, answer: bv8): seq<Access> {
    Opening(flushed) + Copy(config) + Test(answer) + CLOSING
  }

  /** The traffic is a prefix of the script, all of it exactly if the run finished. */
  predicate Follows(traffic: seq<Access>, flushed: seq<bv8>, config: bv8, answer: bv8, finished: bool) {
    traffic <= Script(flushed, config, answer) && (finished <==> traffic == Script(flushed, config, answer))
  }

  lemma PartFollows(traffic: seq<Access>, flushed: seq<bv8>, config: bv8, answer: bv8)
    requires
      || traffic <= Opening(flushed)
      || traffic <= Opening(flushed) + Copy(config)
      || traffic <= Opening(flushed) + Copy(config) + Test(answer)
    ensures Follows(traffic, flushed, config, answer, false)
  {
    var script := Script(flushed, config, answer);
    if traffic <= Opening(flushed) {
      assert script == Opening(flushed) + (Copy(config) + Test(answer) + CLOSING);
    } else if traffic <= Opening(flushed) + Copy(config) {
      assert script == (Opening(flushed) + Copy(config)) + (Test(answer) + CLOSING);
    }
    assert script[..|traffic|] == traffic;
  }

  /** After the self-test there is only the closing. */
  lemma EndFollows(traffic: seq<Access>, flushed: seq<bv8>, config: bv8, answer: bv8, finished: bool)
    requires |flushed| == 256
    requires traffic == Opening(flushed) + Copy(config) + Test(answer) + if finished then CLOSING else []
    ensures Follows(traffic, flushed, config, answer, finished)
    ensures |traffic| == 258 + if finished then 8 else 6
  {
    if !finished {
      assert traffic == Opening(flushed) + Copy(config) + Test(answer);
      PartFollows(traffic, flushed, config, answer);
    }
  }

  // ---------- the write handshake ----------

  predicate NoWrite(log: seq<Access>, j: nat, i: nat)
    requires i <= |log|
  {
    forall k | j < k < i :: log[k].In?
  }

  /** A write at place i follows a status read with the input buffer clear, with no other write
      between. */
  predicate Clear(log: seq<Access>, i: nat)
    requires i <= |log|
  {
    exists j: nat | j < i :: Ready(log[j]) && NoWrite(log, j, i)
  }

  /** The two writes for which the code does not wait. */
  predicate Unguarded(a: Access) { a == Out(0x64, 0xAD) || a == Out(0x64, 0xA8) }

  /** Every write follows the handshake, except exactly the two. */
  predicate Disciplined(log: seq<Access>) {
    forall i: nat | i < |log| && log[i].Out? :: Clear(log, i) <==> !Unguarded(log[i])
  }

  /** The same, access by access. */
  predicate ClearNow(log: seq<Access>) {
    log != [] &&
    var before, a := log[..|log| - 1], log[|log| - 1];
    a.In? && (Ready(a) || ClearNow(before))
  }

  predicate Orderly(log: seq<Access>) {
    log == [] ||
    var before, a := log[..|log| - 1], log[|log| - 1];
    Orderly(before) && (a.Out? ==> (ClearNow(before) <==> !Unguarded(a)))
  }

  lemma {:induction false} ClearNowIff(log: seq<Access>, i: nat)
    requires i <= |log|
    ensures ClearNow(log[..i]) <==> Clear(log, i)
    decreases i
  {
    if i > 0 {
      var n := i - 1;
      assert log[..i][..n] == log[..n];
      ClearNowIff(log, n);
      if ClearNow(log[..i]) {
        if Ready(log[n]) {
          assert NoWrite(log, n, i);
        } else {
          var j: nat :| j < n && Ready(log[j]) && NoWrite(log, j, n);
          assert NoWrite(log, j, i);
        }
      }
      if Clear(log, i) {
        var j: nat :| j < i && Ready(log[j]) && NoWrite(log, j, i);
        if j < n {
          assert NoWrite(log, j, n);
        }
      }
    }
  }

  lemma {:induction false} OrderlyAt(log: seq<Access>, i: nat)
    requires Orderly(log) && i < |log| && log[i].Out?
    ensures Clear(log, i) <==> !Unguarded(log[i])
    decreases |log|
  {
    var n := |log| - 1;
    ClearNowIff(log, i);
    if i < n {
      var before := log[..n];
      OrderlyAt(before, i);
      ClearNowIff(before, i);
      assert before[..i] == log[..i];
    }
  }

  lemma OrderlyIsDisciplined(log: seq<Access>)
    requires Orderly(log)
    ensures Disciplined(log)
  {
    forall i: nat | i < |log| && log[i].Out?
      ensures Clear(log, i) <==> !Unguarded(log[i])
    {
      OrderlyAt(log, i);
    }
  }

  // ---------- the configuration byte ----------

  predicate OnlyPolls(log: seq<Access>, i: int, j: nat)
    requires -1 <= i && j <= |log|
  {
    forall k | i < k < j :: Status(log[k])
  }

  /** A command, polls until the output buffer is full, data read: the byte at r answers the command
      at c. */
  predicate Answered(log: seq<Access>, c: nat, r: nat)
    requires r < |log|
  {
    && c + 1 < r && log[c].Out? && log[c].port == 0x64
    && OnlyPolls(log, c, r) && Full(log[r - 1])
    && log[r].In? && log[r].port == 0x60
  }

  /** Polls until the input buffer is clear, then the write at w, with nothing else since i. */
  predicate Written(log: seq<Access>, i: nat, w: nat)
    requires w < |log|
  {
    i + 1 < w && OnlyPolls(log, i, w) && Ready(log[w - 1]) && log[w].Out?
  }

  predicate ConfigRead(log: seq<Access>, c: nat, r: nat, value: bv8) {
    c < r < |log| && log[c] == Out(0x64, 0x20) && Answered(log, c, r) && log[r].value == value
  }

  predicate ConfigWritten(log: seq<Access>, r: nat, v: nat, w: nat, value: bv8) {
    && r < v < w < |log|
    && Written(log, r, v) && log[v] == Out(0x64, 0x60)
    && Written(log, v, w) && log[w] == Out(0x60, value)
  }

  /** The configuration byte goes back as it came: read on command, then written on command, both
      with the handshake. */
  predicate ConfigKept(log: seq<Access>, c: nat, r: nat, v: nat, w: nat) {
    r < |log| && ConfigRead(log, c, r, log[r].value) && ConfigWritten(log, r, v, w, log[r].value)
  }

  /** A prefix of the log keeps what is known of it. */
  predicate Extends(log: seq<Access>, before: seq<Access>) {
    |before| <= |log| && log[..|before|] == before
  }

  lemma AnsweredStays(log: seq<Access>, before: seq<Access>, c: nat, r: nat)
    requires Extends(log, before) && r < |before| && Answered(before, c, r)
    ensures Answered(log, c, r) && log[c] == before[c] && log[r] == before[r]
  {
    forall k | 0 <= k <= r ensures log[k] == before[k] { assert log[..|before|][k] == before[k]; }
  }

  lemma WrittenStays(log: seq<Access>, before: seq<Access>, i: nat, w: nat)
    requires Extends(log, before) && w < |before| && Written(before, i, w)
    ensures Written(log, i, w) && log[w] == before[w]
  {
    forall k | 0 <= k <= w ensures log[k] == before[k] { assert log[..|before|][k] == before[k]; }
  }

  lemma ReadStays(log: seq<Access>, before: seq<Access>, c: nat, r: nat, value: bv8)
    requires Extends(log, before) && ConfigRead(before, c, r, value)
    ensures ConfigRead(log, c, r, value)
  {
    AnsweredStays(log, before, c, r);
  }

  lemma WriteStays(log: seq<Access>, before: seq<Access>, r: nat, v: nat, w: nat, value: bv8)
    requires Extends(log, before) && ConfigWritten(before, r, v, w, value)
    ensures ConfigWritten(log, r, v, w, value)
  {
    WrittenStays(log, before, r, v);
    WrittenStays(log, before, v, w);
  }

  ghost predicate WrittenBack(log: seq<Access>, r: nat, value: bv8) {
    exists v: nat, w: nat :: ConfigWritten(log, r, v, w, value)
  }

  ghost predicate ConfigCopied(log: seq<Access>) {
    exists c: nat, r: nat, v: nat, w: nat :: ConfigKept(log, c, r, v, w)
  }

  lemma CopyStays(log: seq<Access>, before: seq<Access>)
    requires Extends(log, before) && ConfigCopied(before)
    ensures ConfigCopied(log)
  {
    var c: nat, r: nat, v: nat, w: nat :| ConfigKept(before, c, r, v, w);
    var value := before[r].value;
    ReadStays(log, before, c, r, value);
    WriteStays(log, before, r, v, w, value);
    assert ConfigKept(log, c, r, v, w);
  }

  // ---------- how it ends ----------

  datatype Exit =
    | TimedOut        // the input buffer stayed full after either disable command
    | NoResponse      // no configuration byte
    | NotWritable     // the input buffer stayed full after it was read,
    | NotOrdered      // after the write command,
    | NotStored       // or after it was written back
    | NoAnswer        // no answer to the self-test
    | SelfTestFailed
    | NotEnabled      // the input buffer stayed full after the self-test
    | Finished

  predicate CopyFailed(exit: Exit) { exit in {NoResponse, NotWritable, NotOrdered, NotStored} }

  /** How many of its two writes the copy got to. */
  function Sent(exit: Exit): nat {
    match exit
    case NotWritable => 0
    case NotOrdered => 1
    case _ => 2
  }

  /** Where in the script a run ends: the number of accesses that are no polls. */
  predicate EndsAt(exit: Exit, n: nat) {
    match exit
    case TimedOut => n == 1 || n == 2
    case NoResponse => n == 258 + 1
    case NotWritable => n == 258 + 2
    case NotOrdered => n == 258 + 3
    case NotStored => n == 258 + 4
    case NoAnswer => n == 258 + 5
    case SelfTestFailed => n == 258 + 6
    case NotEnabled => n == 258 + 6
    case Finished => n == 258 + 8
  }

  /** The last 0x2000 accesses are status reads in vain. */
  predicate GaveUp(log: seq<Access>, forData: bool) {
    && |log| >= 0x2000
    && forall k | |log| - 0x2000 <= k < |log| ::
         Status(log[k]) && if forData then !Full(log[k]) else !Ready(log[k])
  }

  predicate TestAnswered(log: seq<Access>, t: nat, r: int) {
    t < r < |log| && log[t] == Out(0x64, 0xAA) && Answered(log, t, r) && log[r].value == 0x55
  }

  ghost predicate SelfTestPassed(log: seq<Access>) {
    exists t: nat, r: nat :: TestAnswered(log, t, r)
  }

  predicate RefusedFrom(log: seq<Access>, t: nat)
    requires |log| >= 1
  {
    var r := |log| - 1;
    t < r && log[t] == Out(0x64, 0xAA) && Answered(log, t, r) && log[r].value != 0x55
  }

  /** The last access is the wrong answer to the self-test. */
  predicate SelfTestRefused(log: seq<Access>) {
    |log| >= 1 && exists t: nat | t < |log| :: RefusedFrom(log, t)
  }

  /** Every way out shows in the log. */
  ghost predicate ExitExplained(log: seq<Access>, exit: Exit) {
    match exit
    case NoResponse => GaveUp(log, true)
    case NoAnswer => GaveUp(log, true)
    case SelfTestFailed => SelfTestRefused(log)
    case Finished => SelfTestPassed(log)
    case _ => GaveUp(log, false)
  }

  // ---------- what the conversation does to the controller ----------

  /** The controller's side.  Bits 4 and 5 of its configuration byte stop the clocks of channels A
      and B; toConfig says whether the next data write goes to that byte; asked is the last command
      whose answer has not been read.  The flags: it read out a configuration byte that it does not
      have, it said that it passed its self-test, and a data write went elsewhere, to a device. */
  datatype Chip = Chip(config: bv8, toConfig: bool, asked: bv8, lied: bool, passed: bool, strayed: bool)

  predicate AOn(c: Chip) { c.config & 0x10 == 0 }

  predicate BOn(c: Chip) { c.config & 0x20 == 0 }

  function Commanded(c: Chip, v: bv8): Chip {
    var c' := c.(asked := v, toConfig := v == 0x60);
    match v
    case 0xAD => c'.(config := c.config | 0x10)
    case 0xAE => c'.(config := c.config & !0x10)
    case 0xA7 => c'.(config := c.config | 0x20)
    case 0xA8 => c'.(config := c.config & !0x20)
    case _ => c'
  }

  function DataWritten(c: Chip, v: bv8): Chip {
    if c.toConfig then c.(config := v, toConfig := false) else c.(strayed := true)
  }

  function DataRead(c: Chip, v: bv8): Chip {
    match c.asked
    case 0x20 => c.(asked := 0, lied := c.lied || v != c.config)
    case 0xAA => c.(asked := 0, passed := v == 0x55)
    case _ => c
  }

  /** What an access does; reading the status does nothing. */
  function Effect(c: Chip, a: Access): Chip {
    match a
    case Out(port, v) => if port == 0x64 then Commanded(c, v) else if port == 0x60 then DataWritten(c, v) else c
    case In(port, v) => if port == 0x60 then DataRead(c, v) else c
  }

  function After(c: Chip, log: seq<Access>): Chip {
    if log == [] then c else Effect(After(c, log[..|log| - 1]), log[|log| - 1])
  }

  lemma AfterOne(c: Chip, log: seq<Access>, a: Access)
    ensures After(c, log + [a]) == Effect(After(c, log), a)
  {
    assert (log + [a])[..|log|] == log;
  }

  /** Polls do not matter. */
  lemma {:induction false} AfterTraffic(c: Chip, log: seq<Access>)
    ensures After(c, log) == After(c, Traffic(log))
    decreases |log|
  {
    if log != [] {
      var before, a := log[..|log| - 1], log[|log| - 1];
      AfterTraffic(c, before);
      if !Status(a) { AfterOne(c, Traffic(before), a); }
    }
  }

  /** Both channels off, and whatever is in the output buffer thrown away. */
  function Quieted(c: Chip): Chip { c.(config := c.config | 0x30, toConfig := false, asked := 0xA7) }

  lemma AfterDisabling(c: Chip)
    ensures After(c, [Out(0x64, 0xAD)]) == c.(config := c.config | 0x10, toConfig := false, asked := 0xAD)
    ensures After(c, [Out(0x64, 0xAD), Out(0x64, 0xA7)]) == Quieted(c)
  {
    AfterOne(c, [], Out(0x64, 0xAD));
    AfterOne(c, [Out(0x64, 0xAD)], Out(0x64, 0xA7));
    assert [] + [Out(0x64, 0xAD)] == [Out(0x64, 0xAD)];
    assert [Out(0x64, 0xAD)] + [Out(0x64, 0xA7)] == [Out(0x64, 0xAD), Out(0x64, 0xA7)];
  }

  lemma {:induction false} AfterOpening(c: Chip, flushed: seq<bv8>)
    ensures After(c, Opening(flushed)) == Quieted(c)
    decreases |flushed|
  {
    if flushed == [] {
      AfterDisabling(c);
      assert Opening(flushed) == [Out(0x64, 0xAD), Out(0x64, 0xA7)];
    } else {
      var n := |flushed| - 1;
      AfterOpening(c, flushed[..n]);
      AfterOne(c, Opening(flushed[..n]), In(0x60, flushed[n]));
      assert Opening(flushed) == Opening(flushed[..n]) + [In(0x60, flushed[n])];
    }
  }

  /** The script from the copy on. */
  function Rest(config: bv8, answer: bv8): seq<Access> { Copy(config) + Test(answer) + CLOSING }

  /** Where the controller is after k accesses of the rest. */
  function Stage(c: Chip, config: bv8, answer: bv8, k: nat): Chip {
    var read := c.(asked := 0, lied := c.lied || config != c.config);
    match k
    case 0 => c
    case 1 => c.(asked := 0x20)
    case 2 => read
    case 3 => read.(asked := 0x60, toConfig := true)
    case 4 => read.(asked := 0x60, config := config)
    case 5 => read.(asked := 0xAA, config := config)
    case 6 => read.(config := config, passed := answer == 0x55)
    case 7 => read.(asked := 0xAE, config := config & !0x10, passed := answer == 0x55)
    case _ => read.(asked := 0xA8, config := config & !0x10 & !0x20, passed := answer == 0x55)
  }

  function RestAt(config: bv8, answer: bv8, k: nat): Access {
    match k
    case 0 => Out(0x64, 0x20)
    case 1 => In(0x60, config)
    case 2 => Out(0x64, 0x60)
    case 3 => Out(0x60, config)
    case 4 => Out(0x64, 0xAA)
    case 5 => In(0x60, answer)
    case 6 => Out(0x64, 0xAE)
    case _ => Out(0x64, 0xA8)
  }

  lemma RestIs(config: bv8, answer: bv8, k: nat)
    requires k < 8
    ensures Rest(config, answer)[k] == RestAt(config, answer, k)
  {
  }

  lemma CopyStep(c: Chip, config: bv8, answer: bv8, k: nat)
    requires k < 4 && !c.toConfig
    ensures Effect(Stage(c, config, answer, k), RestAt(config, answer, k)) == Stage(c, config, answer, k + 1)
  {
  }

  lemma TestStep(c: Chip, config: bv8, answer: bv8, k: nat)
    requires 4 <= k < 6 && !c.toConfig
    ensures Effect(Stage(c, config, answer, k), RestAt(config, answer, k)) == Stage(c, config, answer, k + 1)
  {
  }

  lemma EnableAStep(c: Chip, config: bv8, answer: bv8)
    requires !c.toConfig
    ensures Commanded(Stage(c, config, answer, 6), 0xAE) == Stage(c, config, answer, 7)
  {
  }

  lemma EnableBStep(c: Chip, config: bv8, answer: bv8)
    requires !c.toConfig
    ensures Commanded(Stage(c, config, answer, 7), 0xA8) == Stage(c, config, answer, 8)
  {
  }

  lemma ClosingStep(c: Chip, config: bv8, answer: bv8, k: nat)
    requires (k == 6 || k == 7) && !c.toConfig
    ensures Effect(Stage(c, config, answer, k), RestAt(config, answer, k)) == Stage(c, config, answer, k + 1)
  {
    if k == 6 { EnableAStep(c, config, answer); } else { EnableBStep(c, config, answer); }
  }

  lemma StageStep(c: Chip, config: bv8, answer: bv8, k: nat)
    requires k < 8 && !c.toConfig
    ensures Effect(Stage(c, config, answer, k), RestAt(config, answer, k)) == Stage(c, config, answer, k + 1)
  {
    if k < 4 {
      CopyStep(c, config, answer, k);
    } else if k < 6 {
      TestStep(c, config, answer, k);
    } else {
      ClosingStep(c, config, answer, k);
    }
  }

  lemma {:induction false} AfterRest(c: Chip, log: seq<Access>, config: bv8, answer: bv8, k: nat)
    requires k <= 8 && !After(c, log).toConfig
    ensures After(c, log + Rest(config, answer)[..k]) == Stage(After(c, log), config, answer, k)
    decreases k
  {
    var rest := Rest(config, answer);
    if k == 0 {
      assert log + rest[..k] == log;
    } else {
      AfterRest(c, log, config, answer, k - 1);
      AfterOne(c, log + rest[..k - 1], rest[k - 1]);
      assert log + rest[..k] == log + rest[..k - 1] + [rest[k - 1]];
      RestIs(config, answer, k - 1);
      StageStep(After(c, log), config, answer, k - 1);
    }
  }

  /** Only the answer 0x55 gets past the self-test. */
  predicate Verdict(exit: Exit, answer: bv8) {
    && (exit == NotEnabled || exit == Finished ==> answer == 0x55)
    && (exit == SelfTestFailed ==> answer != 0x55)
  }

  predicate BothOff(c: Chip) { !AOn(c) && !BOn(c) }

  /** Nothing but the clock bits differs. */
  predicate SameBeside(start: Chip, end: Chip) { end.config & !0x30 == start.config & !0x30 }

  predicate ToldOutcome(start: Chip, end: Chip, told: bv8, config: bv8) {
    && end.config == config && (end.lied <==> start.lied || told != start.config | 0x30)
    && (!end.lied ==> SameBeside(start, end))
  }

  /** What became of a controller that read out `told` as its configuration byte.  No data write goes
      to a device.  Until the configuration byte is written only its clock bits change, and once the
      buffer is flushed both channels are off.  Then the byte is the one told, so that they stay off,
      and the other bits as they were, if the controller told the truth.  Finished means that both
      channels are on and the self-test was passed. */
  predicate Outcome(start: Chip, end: Chip, told: bv8, exit: Exit) {
    && end.strayed == start.strayed
    && match exit
       case TimedOut => !AOn(end) && SameBeside(start, end)
       case NoResponse => BothOff(end) && SameBeside(start, end)
       case NotWritable => BothOff(end) && SameBeside(start, end)
       case NotOrdered => BothOff(end) && SameBeside(start, end)
       case Finished => AOn(end) && BOn(end) && end.passed && ToldOutcome(start, end, told, told & !0x30)
       case _ => (!end.lied ==> BothOff(end)) && ToldOutcome(start, end, told, told)
  }

  lemma ClockBits(b: bv8)
    ensures (b | 0x30) & 0x10 != 0 && (b | 0x30) & 0x20 != 0 && (b | 0x30) & !0x30 == b & !0x30
    ensures b & !0x10 & !0x20 == b & !0x30 && (b & !0x30) & 0x10 == 0 && (b & !0x30) & 0x20 == 0
    ensures (b & !0x30) & !0x30 == b & !0x30
  {
  }

  lemma EarlyOutcome(start: Chip, config: bv8, answer: bv8, k: nat, exit: Exit)
    requires k <= 3 && EndsAt(exit, 258 + k)
    ensures Outcome(start, Stage(Quieted(start), config, answer, k), config, exit)
  {
    ClockBits(start.config);
  }

  lemma MiddleOutcome(start: Chip, config: bv8, answer: bv8, k: nat, exit: Exit)
    requires 4 <= k <= 6 && EndsAt(exit, 258 + k)
    ensures Outcome(start, Stage(Quieted(start), config, answer, k), config, exit)
  {
    ClockBits(start.config);
  }

  lemma LastOutcome(start: Chip, config: bv8, answer: bv8)
    requires answer == 0x55
    ensures Outcome(start, Stage(Quieted(start), config, answer, 8), config, Finished)
  {
    ClockBits(start.config);
    ClockBits(config);
  }

  lemma StageOutcome(start: Chip, config: bv8, answer: bv8, k: nat, exit: Exit)
    requires k <= 8 && EndsAt(exit, 258 + k) && Verdict(exit, answer)
    ensures Outcome(start, Stage(Quieted(start), config, answer, k), config, exit)
  {
    if k <= 3 {
      EarlyOutcome(start, config, answer, k, exit);
    } else if k <= 6 {
      MiddleOutcome(start, config, answer, k, exit);
    } else {
      assert k == 8 && exit == Finished;
      LastOutcome(start, config, answer);
    }
  }

  lemma FirstBits(b: bv8)
    ensures (b | 0x10) & 0x10 != 0 && (b | 0x10) & !0x30 == b & !0x30
    ensures (b | 0x10) | 0x20 == b | 0x30
  {
  }

  lemma TimedOutOutcome(start: Chip, traffic: seq<Access>, told: bv8)
    requires traffic == [Out(0x64, 0xAD)] || traffic == [Out(0x64, 0xAD), Out(0x64, 0xA7)]
    ensures Outcome(start, After(start, traffic), told, TimedOut)
  {
    AfterDisabling(start);
    FirstBits(start.config);
    ClockBits(start.config);
  }

  lemma PrefixSplit<T>(t: seq<T>, a: seq<T>, b: seq<T>)
    requires |a| <= |t| && t <= a + b
    ensures t == a + b[..|t| - |a|]
  {
    assert t == (a + b)[..|t|];
  }

  lemma ScriptParts(flushed: seq<bv8>, config: bv8, answer: bv8)
    ensures Script(flushed, config, answer) == Opening(flushed) + Rest(config, answer)
    ensures Script(flushed, config, answer)[..2] == [Out(0x64, 0xAD), Out(0x64, 0xA7)]
    ensures |Opening(flushed)| == 2 + |flushed| && |Rest(config, answer)| == 8
  {
  }

  lemma StartOf(traffic: seq<Access>, flushed: seq<bv8>, config: bv8, answer: bv8)
    requires traffic <= Script(flushed, config, answer) && 1 <= |traffic| <= 2
    ensures traffic == [Out(0x64, 0xAD)] || traffic == [Out(0x64, 0xAD), Out(0x64, 0xA7)]
  {
    ScriptParts(flushed, config, answer);
  }

  lemma RunStage(start: Chip, traffic: seq<Access>, flushed: seq<bv8>, config: bv8, answer: bv8)
    requires |flushed| == 256 && traffic <= Script(flushed, config, answer) && |traffic| >= 258
    ensures |traffic| <= 266 && After(start, traffic) == Stage(Quieted(start), config, answer, |traffic| - 258)
  {
    ScriptParts(flushed, config, answer);
    PrefixSplit(traffic, Opening(flushed), Rest(config, answer));
    AfterOpening(start, flushed);
    AfterRest(start, Opening(flushed), config, answer, |traffic| - 258);
  }

  /** Every run, for every controller: by where in the script it stops. */
  lemma RunOutcome(start: Chip, traffic: seq<Access>, flushed: seq<bv8>, config: bv8, answer: bv8, exit: Exit)
    requires traffic <= Script(flushed, config, answer) && EndsAt(exit, |traffic|) && Verdict(exit, answer)
    requires exit == TimedOut || |flushed| == 256
    ensures Outcome(start, After(start, traffic), config, exit)
  {
    if exit == TimedOut {
      StartOf(traffic, flushed, config, answer);
      TimedOutOutcome(start, traffic, config);
    } else {
      RunStage(start, traffic, flushed, config, answer);
      StageOutcome(start, config, answer, |traffic| - 258, exit);
    }
  }

  // ---------- what it prints ----------

  /** The C strings of i8042_init. */
  const BANNER: seq<U8> := Literal("i8042!\n")

  const TIMED_OUT: seq<U8> := Literal("i8042 controller timed out.\n")
  const NO_RESPONSE: seq<U8> := Literal("i8042 controller did not respond.\n")
  const NOT_WRITABLE: seq<U8> := Literal("i8042 controller is retarded.\n")
  const NOT_ORDERED: seq<U8> := Literal("Mweh.")
  const NOT_STORED: seq<U8> := Literal("Damn.")
  const SO_FAR: seq<U8> := Literal("So far so good for PS/2!\n")
  const NO_ANSWER: seq<U8> := Literal("Failed during the self-test!\n")
  const TEST_FAILED: seq<U8> := Literal("Self test failed!")
  const COMPLETED: seq<U8> := Literal("Selftest completed.\n")
  const DUAL_CHANNEL: seq<U8> := Literal("Dual channel controller.\n")
  const NOT_ENABLED: seq<U8> := Literal("Timeout occurred during PS/2 initialization.\n")

  ghost function Greeting(): seq<U8> { CString(BANNER) }

  ghost function SoFar(): seq<U8> { Greeting() + CString(SO_FAR) }

  ghost function AllTested(): seq<U8> { SoFar() + CString(COMPLETED) + CString(DUAL_CHANNEL) }

  /** All that a run prints, by how it ends. */
  ghost function Report(exit: Exit): seq<U8> {
    match exit
    case TimedOut => Greeting() + CString(TIMED_OUT)
    case NoResponse => Greeting() + CString(NO_RESPONSE)
    case NotWritable => Greeting() + CString(NOT_WRITABLE)
    case NotOrdered => Greeting() + CString(NOT_ORDERED)
    case NotStored => Greeting() + CString(NOT_STORED)
    case NoAnswer => SoFar() + CString(NO_ANSWER)
    case SelfTestFailed => SoFar() + CString(TEST_FAILED)
    case NotEnabled => AllTested() + CString(NOT_ENABLED)
    case Finished => AllTested()
  }

  // ---------- the code ----------

  lemma SelfTestStays(log: seq<Access>, before: seq<Access>)
    requires Extends(log, before) && SelfTestPassed(before)
    ensures SelfTestPassed(log)
  {
    var t: nat, r: nat :| TestAnswered(before, t, r);
    AnsweredStays(log, before, t, r);
    assert TestAnswered(log, t, r);
  }

  class Controller {
    const device: Device
    const terminal: Terminal
    var log: seq<Access>

    constructor (device: Device, terminal: Terminal)
      ensures this.device == device && this.terminal == terminal && log == []
    {
      this.device, this.terminal, log := device, terminal, [];
    }

    ghost predicate Valid()
      reads this
    {
      Honest(device, log) && Orderly(log)
    }

    method Outb(port: Port, value: bv8)
      requires Valid()
      requires ClearNow(log) <==> !Unguarded(Out(port, value))
      modifies this`log
      ensures Valid() && log == old(log) + [Out(port, value)]
      ensures Traffic(log) == old(Traffic(log)) + [Out(port, value)]
      ensures StatusReads(log) == old(StatusReads(log)) && !ClearNow(log)
    {
      assert (log + [Out(port, value)])[..|log|] == log;
      log := log + [Out(port, value)];
    }

    method Inb(port: Port) returns (value: bv8)
      requires Valid()
      modifies this`log
      ensures Valid() && log == old(log) + [In(port, value)]
      ensures Traffic(log) == old(Traffic(log)) + if port == 0x64 then [] else [In(port, value)]
      ensures StatusReads(log) == old(StatusReads(log)) + if port == 0x64 then 1 else 0
      ensures ClearNow(log) <==> Ready(In(port, value)) || old(ClearNow(log))
    {
      value := device(log, port);
      assert (log + [In(port, value)])[..|log|] == log;
      log := log + [In(port, value)];
    }

    method WaitTx() returns (ok: bool)
      requires Valid()
      modifies this`log
      ensures Valid() && Extends(log, old(log)) && OnlyPolls(log, |old(log)| - 1, |log|)
      ensures StatusReads(log) <= old(StatusReads(log)) + 0x2000 && Traffic(log) == old(Traffic(log))
      ensures ok ==> |log| > |old(log)| && Ready(log[|log| - 1]) && ClearNow(log)
      ensures !ok ==> GaveUp(log, false)
    {
      ghost var before := log;
      var cntr: nat := POLLS;
      while cntr != 0
        invariant cntr <= POLLS && Valid() && Extends(log, before) && |log| == |before| + POLLS - cntr
        invariant forall k | |before| <= k < |log| :: Status(log[k]) && !Ready(log[k])
        invariant StatusReads(log) <= StatusReads(before) + POLLS - cntr && Traffic(log) == Traffic(before)
        decreases cntr
      {
        cntr := cntr - 1;
        var status := Inb(COMMAND);
        assert Status(In(COMMAND, status)) && log[|log| - 1] == In(COMMAND, status);
        if status & INBUF == 0 {
          return true;
        }
      }
      return false;
    }

    method WaitRx() returns (ok: bool)
      requires Valid()
      modifies this`log
      ensures Valid() && Extends(log, old(log)) && OnlyPolls(log, |old(log)| - 1, |log|)
      ensures StatusReads(log) <= old(StatusReads(log)) + 0x2000 && Traffic(log) == old(Traffic(log))
      ensures ok ==> |log| > |old(log)| && Full(log[|log| - 1])
      ensures !ok ==> GaveUp(log, true)
    {
      ghost var before := log;
      var cntr: nat := POLLS;
      while cntr != 0
        invariant cntr <= POLLS && Valid() && Extends(log, before) && |log| == |before| + POLLS - cntr
        invariant forall k | |before| <= k < |log| :: Status(log[k]) && !Full(log[k])
        invariant StatusReads(log) <= StatusReads(before) + POLLS - cntr && Traffic(log) == Traffic(before)
        decreases cntr
      {
        cntr := cntr - 1;
        var status := Inb(COMMAND);
        assert Status(In(COMMAND, status)) && log[|log| - 1] == In(COMMAND, status);
        if status & OUTBUF != 0 {
          return true;
        }
      }
      return false;
    }

    /** Wait, then write. */
    method Send(port: Port, value: bv8) returns (ok: bool)
      requires Valid() && log != [] && !Unguarded(Out(port, value))
      modifies this`log
      ensures Valid() && Extends(log, old(log))
      ensures StatusReads(log) <= old(StatusReads(log)) + 0x2000
      ensures ok ==> |log| > 0 && Written(log, |old(log)| - 1, |log| - 1) && log[|log| - 1] == Out(port, value)
      ensures !ok ==> GaveUp(log, false)
      ensures Traffic(log) == old(Traffic(log)) + if ok then [Out(port, value)] else []
    {
      ghost var before := log;
      ok := WaitTx();
      if !ok { return; }
      Outb(port, value);
    }

    /** Both ports off, then whatever lies in the output buffer is thrown away. */
    method Quiesce() returns (ok: bool, ghost flushed: seq<bv8>)
      requires log == []
      modifies this`log
      ensures Valid() && StatusReads(log) <= 2 * 0x2000
      ensures Traffic(log) <= Opening(flushed)
      ensures ok ==> ClearNow(log) && Traffic(log) == Opening(flushed) && |flushed| == 256
      ensures !ok ==> GaveUp(log, false) && flushed == [] && 1 <= |Traffic(log)| <= 2
    {
      flushed := [];
      Outb(COMMAND, DISABLE_A);
      ok := Send(COMMAND, DISABLE_B);
      if !ok { return; }
      ok := WaitTx();
      if !ok { return; }
      for i := 0 to 256
        invariant Valid() && StatusReads(log) <= 2 * POLLS && ClearNow(log)
        invariant |flushed| == i && Traffic(log) == Opening(flushed)
      {
        var thrown := Inb(DATA);
        ghost var earlier := flushed;
        flushed := flushed + [thrown];
        assert Opening(flushed) == Opening(earlier) + [In(DATA, thrown)];
      }
    }

    method ReadConfig() returns (ok: bool, config: bv8)
      requires Valid() && ClearNow(log)
      modifies this`log
      ensures Valid() && Extends(log, old(log))
      ensures StatusReads(log) <= old(StatusReads(log)) + 0x2000
      ensures Traffic(log) == old(Traffic(log)) + if ok then Copy(config)[..2] else Copy(config)[..1]
      ensures ok ==> |log| > 0 && ConfigRead(log, |old(log)|, |log| - 1, config)
      ensures !ok ==> GaveUp(log, true)
    {
      config := 0;
      Outb(COMMAND, READ0);
      ok := WaitRx();
      if !ok { return; }
      config := Inb(DATA);
    }

    method WriteConfig(config: bv8) returns (done: bool, exit: Exit)
      requires Valid() && log != []
      modifies this`log
      ensures Valid() && Extends(log, old(log))
      ensures StatusReads(log) <= old(StatusReads(log)) + 3 * 0x2000
      ensures Traffic(log) == old(Traffic(log)) + Copy(config)[2..][..Sent(exit)]
      ensures done ==> exit == NotStored && ClearNow(log) && WrittenBack(log, |old(log)| - 1, config)
      ensures !done ==> GaveUp(log, false)
      ensures exit == NotWritable || exit == NotOrdered || exit == NotStored
    {
      ghost var r := |log| - 1;
      done := Send(COMMAND, WRITE0);
      if !done { return false, NotWritable; }
      ghost var ordered, v := log, |log| - 1;
      done := Send(DATA, config);
      if !done { return false, NotOrdered; }
      ghost var stored, w := log, |log| - 1;
      WrittenStays(stored, ordered, r, v);
      assert ConfigWritten(stored, r, v, w, config);
      exit := NotStored;
      done := WaitTx();
      WriteStays(log, stored, r, v, w, config);
    }

    /** The configuration byte is read and written back. */
    method CopyConfig() returns (done: bool, exit: Exit, ghost config: bv8)
      requires Valid() && ClearNow(log)
      modifies this`log
      ensures Valid() && StatusReads(log) <= old(StatusReads(log)) + 4 * 0x2000
      ensures Traffic(log) <= old(Traffic(log)) + Copy(config)
      ensures done ==> Traffic(log) == old(Traffic(log)) + Copy(config)
      ensures done ==> log != [] && ClearNow(log) && ConfigCopied(log)
      ensures !done ==> CopyFailed(exit) && ExitExplained(log, exit)
      ensures !done ==> |Traffic(log)| == |old(Traffic(log))| + (if exit == NoResponse then 1 else 2 + Sent(exit))
    {
      ghost var c, sent := |log|, Traffic(log);
      var ok, answer := ReadConfig();
      config := answer;
      assert sent + Copy(config) == sent + Copy(config)[..2] + Copy(config)[2..];
      if !ok { return false, NoResponse, config; }
      ghost var read, r := log, |log| - 1;
      done, exit := WriteConfig(answer);
      if done {
        ghost var v: nat, w: nat :| ConfigWritten(log, r, v, w, config);
        ReadStays(log, read, c, r, config);
        assert ConfigKept(log, c, r, v, w);
      }
    }

    method SelfTest() returns (done: bool, exit: Exit, ghost answer: bv8)
      requires Valid() && ClearNow(log)
      modifies this`log
      ensures Valid() && log != [] && Extends(log, old(log))
      ensures StatusReads(log) <= old(StatusReads(log)) + 0x2000
      ensures Traffic(log) <= old(Traffic(log)) + Test(answer)
      ensures done ==> Traffic(log) == old(Traffic(log)) + Test(answer) && SelfTestPassed(log)
      ensures (done ==> answer == 0x55) && (!done && exit == SelfTestFailed ==> answer != 0x55)
      ensures !done ==>
                || (exit == NoAnswer && GaveUp(log, true) && |Traffic(log)| == |old(Traffic(log))| + 1)
                || (exit == SelfTestFailed && SelfTestRefused(log) && |Traffic(log)| == |old(Traffic(log))| + 2)
    {
      ghost var t := |log|;
      answer := 0;
      Outb(COMMAND, TEST);
      var ok := WaitRx();
      if !ok { return false, NoAnswer, answer; }
      var read := Inb(DATA);
      answer := read;
      assert Answered(log, t, |log| - 1);
      if read != TEST_OKAY {
        assert RefusedFrom(log, t);
        return false, SelfTestFailed, answer;
      }
      assert TestAnswered(log, t, |log| - 1);
      return true, Finished, answer;
    }

    method Enable() returns (ok: bool)
      requires Valid() && log != []
      modifies this`log
      ensures Valid() && Extends(log, old(log)) && StatusReads(log) <= old(StatusReads(log)) + 0x2000
      ensures Traffic(log) == old(Traffic(log)) + if ok then CLOSING else []
      ensures !ok ==> GaveUp(log, false)
    {
      ok := Send(COMMAND, ENABLE_A);
      if !ok { return; }
      Outb(COMMAND, ENABLE_B);
    }

    /** Writes a message after what has been said since the screen was s. */
    method Say(message: seq<U8>, ghost s: Screen, ghost said: seq<U8>)
      requires terminal.Valid() && 0 in message && Ok(s) && terminal.Now() == Render(s, said)
      modifies terminal`row, terminal`column, terminal.buffer
      ensures terminal.Valid() && terminal.Now() == Render(s, said + CString(message))
    {
      terminal.WriteString(message);
      RenderConcat(s, said, CString(message));
    }

    /** The message for a copy that failed. */
    method SayCopyFailed(exit: Exit, ghost s: Screen)
      requires CopyFailed(exit) && terminal.Valid() && Ok(s) && terminal.Now() == Render(s, Greeting())
      modifies terminal`row, terminal`column, terminal.buffer
      ensures terminal.Valid() && terminal.Now() == Render(s, Report(exit))
    {
      match exit
      case NoResponse =>
        LiteralEnds("i8042 controller did not respond.\n");
        Say(NO_RESPONSE, s, Greeting());
      case NotWritable =>
        LiteralEnds("i8042 controller is retarded.\n");
        Say(NOT_WRITABLE, s, Greeting());
      case NotOrdered =>
        LiteralEnds("Mweh.");
        Say(NOT_ORDERED, s, Greeting());
      case NotStored =>
        LiteralEnds("Damn.");
        Say(NOT_STORED, s, Greeting());
    }

    method SayTestFailed(exit: Exit, ghost s: Screen)
      requires (exit == NoAnswer || exit == SelfTestFailed) && terminal.Valid() && Ok(s)
      requires terminal.Now() == Render(s, SoFar())
      modifies terminal`row, terminal`column, terminal.buffer
      ensures terminal.Valid() && terminal.Now() == Render(s, Report(exit))
    {
      if exit == NoAnswer {
        LiteralEnds("Failed during the self-test!\n");
        Say(NO_ANSWER, s, SoFar());
      } else {
        LiteralEnds("Self test failed!");
        Say(TEST_FAILED, s, SoFar());
      }
    }

    /** has_secondary_channel is never set, so the second message is always the same. */
    method SayTested(ghost s: Screen)
      requires terminal.Valid() && Ok(s) && terminal.Now() == Render(s, SoFar())
      modifies terminal`row, terminal`column, terminal.buffer
      ensures terminal.Valid() && terminal.Now() == Render(s, AllTested())
    {
      LiteralEnds("Selftest completed.\n");
      Say(COMPLETED, s, SoFar());
      LiteralEnds("Dual channel controller.\n");
      Say(DUAL_CHANNEL, s, SoFar() + CString(COMPLETED));
    }

    /** From the messages after the self-test on. */
    method Finish(ghost flushed: seq<bv8>, ghost config: bv8, ghost answer: bv8, ghost s: Screen) returns (exit: Exit)
      requires Valid() && log != [] && |flushed| == 256 && ConfigCopied(log) && SelfTestPassed(log)
      requires Traffic(log) == Opening(flushed) + Copy(config) + Test(answer) && answer == 0x55
      requires terminal.Valid() && Ok(s) && terminal.Now() == Render(s, SoFar())
      modifies this`log, terminal`row, terminal`column, terminal.buffer
      ensures Valid() && StatusReads(log) <= old(StatusReads(log)) + 0x2000 && ConfigCopied(log)
      ensures Follows(Traffic(log), flushed, config, answer, exit == Finished)
      ensures ExitExplained(log, exit) && EndsAt(exit, |Traffic(log)|) && Verdict(exit, answer)
      ensures terminal.Valid() && terminal.Now() == Render(s, Report(exit))
    {
      ghost var tested := log;
      SayTested(s);
      var ok := Enable();
      EndFollows(Traffic(log), flushed, config, answer, ok);
      CopyStays(log, tested);
      SelfTestStays(log, tested);
      exit := Finished;
      if !ok {
        exit := NotEnabled;
        LiteralEnds("Timeout occurred during PS/2 initialization.\n");
        Say(NOT_ENABLED, s, AllTested());
      }
    }

    /** From the self-test on. */
    method Conclude(ghost flushed: seq<bv8>, ghost config: bv8, ghost s: Screen)
      returns (exit: Exit, ghost answer: bv8)
      requires Valid() && ClearNow(log) && log != [] && |flushed| == 256
      requires Traffic(log) == Opening(flushed) + Copy(config) && ConfigCopied(log)
      requires terminal.Valid() && Ok(s) && terminal.Now() == Render(s, SoFar())
      modifies this`log, terminal`row, terminal`column, terminal.buffer
      ensures Valid() && StatusReads(log) <= old(StatusReads(log)) + 2 * 0x2000 && ConfigCopied(log)
      ensures Follows(Traffic(log), flushed, config, answer, exit == Finished)
      ensures ExitExplained(log, exit) && EndsAt(exit, |Traffic(log)|) && Verdict(exit, answer)
      ensures terminal.Valid() && terminal.Now() == Render(s, Report(exit))
    {
      ghost var copied := log;
      var done;
      done, exit, answer := SelfTest();
      CopyStays(log, copied);
      PartFollows(Traffic(log), flushed, config, answer);
      if !done {
        SayTestFailed(exit, s);
        return;
      }
      exit := Finish(flushed, config, answer, s);
    }

    /** The conversation, and its messages. */
    method Converse(ghost s: Screen) returns (exit: Exit, ghost flushed: seq<bv8>, ghost config: bv8, ghost answer: bv8)
      requires log == [] && terminal.Valid() && Ok(s) && terminal.Now() == Render(s, Greeting())
      modifies this`log, terminal`row, terminal`column, terminal.buffer
      ensures Valid() && StatusReads(log) <= 8 * 0x2000
      ensures Follows(Traffic(log), flushed, config, answer, exit == Finished)
      ensures |flushed| == 256 || (flushed == [] && exit != Finished)
      ensures |Traffic(log)| > 2 + 256 + 4 ==> ConfigCopied(log)
      ensures ExitExplained(log, exit) && EndsAt(exit, |Traffic(log)|) && Verdict(exit, answer)
      ensures terminal.Valid() && terminal.Now() == Render(s, Report(exit))
    {
      config, answer := 0, 0;
      var ok;
      ok, flushed := Quiesce();
      PartFollows(Traffic(log), flushed, config, answer);
      if !ok {
        LiteralEnds("i8042 controller timed out.\n");
        Say(TIMED_OUT, s, Greeting());
        return TimedOut, flushed, config, answer;
      }
      var done;
      done, exit, config := CopyConfig();
      PartFollows(Traffic(log), flushed, config, answer);
      if !done {
        SayCopyFailed(exit, s);
        return;
      }
      LiteralEnds("So far so good for PS/2!\n");
      Say(SO_FAR, s, Greeting());
      exit, answer := Conclude(flushed, config, s);
    }

    /** i8042_init: the first message, the handler of line 1, the line, and the conversation with the
        controller.  Apart from polls its accesses are a prefix of the script, all of it exactly if
        it finishes; past the 262nd, the configuration byte has been read and written back.  Where
        it stops, why, and what the screen shows all belong to the same exit. */
    method Init(dispatcher: Irq.Dispatcher, irqHandler: nat)
      returns (exit: Exit, ghost flushed: seq<bv8>, ghost config: bv8, ghost answer: bv8)
      requires log == [] && terminal.Valid()
      requires dispatcher.handlers.Length == 256 && Pic.Initialised(dispatcher.chips.pics)
      modifies this`log, terminal`row, terminal`column, terminal.buffer, dispatcher.handlers, dispatcher.chips
      ensures dispatcher.handlers[..] == old(dispatcher.handlers[..])[33 := X86.Some(irqHandler)]
      ensures Pic.CallDone(old(dispatcher.chips.pics), Pic.Enable(1), dispatcher.chips.pics)
      ensures Valid() && StatusReads(log) <= 8 * 0x2000
      ensures Follows(Traffic(log), flushed, config, answer, exit == Finished)
      ensures |flushed| == 256 || (flushed == [] && exit != Finished)
      ensures |Traffic(log)| > 2 + 256 + 4 ==> ConfigCopied(log)
      ensures ExitExplained(log, exit) && EndsAt(exit, |Traffic(log)|) && Verdict(exit, answer)
      ensures forall start: Chip :: Outcome(start, After(start, log), config, exit)
      ensures terminal.Valid() && terminal.Now() == Render(old(terminal.Now()), Report(exit))
    {
      ghost var s := terminal.Now();
      LiteralEnds("i8042!\n");
      terminal.WriteString(BANNER);
      dispatcher.IsrSetHandler(33, X86.Some(irqHandler));
      dispatcher.chips.PicEnableLine(1);
      exit, flushed, config, answer := Converse(s);
      forall start: Chip
        ensures Outcome(start, After(start, log), config, exit)
      {
        AfterTraffic(start, log);
        RunOutcome(start, Traffic(log), flushed, config, answer, exit);
      }
    }
  }
}
