/** The keyboard driver of keyboard.c: keycodes move three modifier flags and print characters. */
module Keyboard {
  import opened Bits
  import opened Terminal

  const LEFT_SHIFT: bv16 := 0x2A
  const RIGHT_SHIFT: bv16 := 0x36
  const CAPS: bv16 := 0x3A
  const KEYUP: bv16 := 0x80

  /** What a key prints without and with a modifier; 0 for nothing. */
  datatype Cap = Key(lower: U8, upper: U8)

  type KeyCap = k: Cap | (k.lower == 0 <==> k.upper == 0) && k.lower < 0x80 && k.upper < 0x80
    witness Key(0, 0)

  function Both(lower: U8, upper: U8): KeyCap
    requires (lower == 0 <==> upper == 0) && lower < 0x80 && upper < 0x80
  {
    Key(lower, upper)
  }

  /** keymap and keymap_up, side by side, in rows of four. */
  const KEYMAP: seq<seq<KeyCap>> := [
    [Both(0, 0), Both(27, 27), Both(49, 33), Both(50, 64)],  // 0x00
    [Both(51, 35), Both(52, 36), Both(53, 37), Both(54, 94)],  // 0x04
    [Both(55, 38), Both(56, 42), Both(57, 40), Both(48, 41)],  // 0x08
    [Both(45, 95), Both(61, 43), Both(8, 8), Both(9, 9)],  // 0x0C
    [Both(113, 81), Both(119, 87), Both(101, 69), Both(114, 82)],  // 0x10
    [Both(116, 84), Both(121, 89), Both(117, 85), Both(105, 73)],  // 0x14
    [Both(111, 79), Both(112, 80), Both(91, 123), Both(93, 125)],  // 0x18
    [Both(10, 10), Both(0, 0), Both(97, 65), Both(115, 83)],  // 0x1C
    [Both(100, 68), Both(102, 70), Both(103, 71), Both(104, 72)],  // 0x20
    [Both(106, 74), Both(107, 75), Both(108, 76), Both(59, 58)],  // 0x24
    [Both(39, 34), Both(96, 126), Both(0, 0), Both(92, 124)],  // 0x28
    [Both(122, 90), Both(120, 88), Both(99, 67), Both(118, 86)],  // 0x2C
    [Both(98, 66), Both(110, 78), Both(109, 77), Both(44, 60)],  // 0x30
    [Both(46, 62), Both(47, 63), Both(0, 0), Both(0, 0)],  // 0x34
    [Both(0, 0), Both(32, 32), Both(0, 0), Both(0, 0)]]  // 0x38

  lemma KeymapSize()
    ensures |KEYMAP| == 15 && forall i | 0 <= i < 15 :: |KEYMAP[i]| == 4
  {
  }

  function KeyAt(n: nat): KeyCap
    requires n < 60
  {
    KeymapSize();
    KEYMAP[n / 4][n % 4]
  }

  const BLANK: KeyCap := Key(0, 0)

  function CapOf(code: bv16): KeyCap {
    if code < 60 then KeyAt(code as int) else BLANK
  }

  // ---------- the layout ----------

  /** Neighbouring keys, by their first code and what is printed on them. */
  datatype Row = Row(first: nat, lower: string, upper: string)

  const DIGITS := Row(0x02, "1234567890-=", "!@#$%^&*()_+")
  const TOP_ROW := Row(0x10, "qwertyuiop[]", "QWERTYUIOP{}")
  const HOME_ROW := Row(0x1E, "asdfghjkl;'`", "ASDFGHJKL:\"~")
  const BOTTOM_ROW := Row(0x2B, "\\zxcvbnm,./", "|ZXCVBNM<>?")

  predicate InRow(r: Row, n: nat) { r.first <= n < r.first + |r.lower| && |r.lower| == |r.upper| }

  function CapIn(r: Row, n: nat): Cap
    requires InRow(r, n)
  {
    Key(r.lower[n - r.first] as int % 0x100, r.upper[n - r.first] as int % 0x100)
  }

  /** A keyboard with scan code set 1: the four rows, escape, backspace, tab, enter and space. */
  function Legend(n: nat): Cap {
    if InRow(DIGITS, n) then CapIn(DIGITS, n)
    else if InRow(TOP_ROW, n) then CapIn(TOP_ROW, n)
    else if InRow(HOME_ROW, n) then CapIn(HOME_ROW, n)
    else if InRow(BOTTOM_ROW, n) then CapIn(BOTTOM_ROW, n)
    else if n == 0x01 then Key(27, 27)
    else if n == 0x0E then Key(8, 8)
    else if n == 0x0F then Key(9, 9)
    else if n == 0x1C then Key(10, 10)
    else if n == 0x39 then Key(32, 32)
    else BLANK
  }

  lemma Keys00(n: nat)
    requires 0x00 <= n < 0x04
    ensures KeyAt(n) == Legend(n)
  {
  }

  lemma Keys04(n: nat)
    requires 0x04 <= n < 0x08
    ensures KeyAt(n) == Legend(n)
  {
  }

  lemma Keys08(n: nat)
    requires 0x08 <= n < 0x10
    ensures KeyAt(n) == Legend(n)
  {
  }

  lemma Keys10(n: nat)
    requires 0x10 <= n < 0x18
    ensures KeyAt(n) == Legend(n)
  {
  }

  lemma Keys18(n: nat)
    requires 0x18 <= n < 0x1C
    ensures KeyAt(n) == Legend(n)
  {
  }

  lemma Keys1C(n: nat)
    requires 0x1C <= n < 0x20
    ensures KeyAt(n) == Legend(n)
  {
  }

  lemma Keys20(n: nat)
    requires 0x20 <= n < 0x28
    ensures KeyAt(n) == Legend(n)
  {
  }

  lemma Keys28(n: nat)
    requires 0x28 <= n < 0x2C
    ensures KeyAt(n) == Legend(n)
  {
  }

  lemma Keys2C(n: nat)
    requires 0x2C <= n < 0x30
    ensures KeyAt(n) == Legend(n)
  {
  }

  lemma Keys30(n: nat)
    requires 0x30 <= n < 0x38
    ensures KeyAt(n) == Legend(n)
  {
  }

  lemma Keys38(n: nat)
    requires 0x38 <= n < 0x3C
    ensures KeyAt(n) == Legend(n)
  {
  }

  /** The two maps of the code are this layout. */
  lemma KeymapIsLegend(n: nat)
    requires n < 60
    ensures KeyAt(n) == Legend(n)
  {
    if n < 0x04 { Keys00(n); }
    else if n < 0x08 { Keys04(n); }
    else if n < 0x10 { Keys08(n); }
    else if n < 0x18 { Keys10(n); }
    else if n < 0x1C { Keys18(n); }
    else if n < 0x20 { Keys1C(n); }
    else if n < 0x28 { Keys20(n); }
    else if n < 0x2C { Keys28(n); }
    else if n < 0x30 { Keys2C(n); }
    else if n < 0x38 { Keys30(n); }
    else { Keys38(n); }
  }

  // ---------- what a history of keycodes means ----------

  predicate NoEventAfter(history: seq<bv16>, key: bv16, i: int) {
    forall j | i < j < |history| && 0 <= j :: history[j] != key && history[j] != key ^ KEYUP
  }

  /** The last press or release of the key was a press. */
  predicate Held(history: seq<bv16>, key: bv16) {
    exists i | 0 <= i < |history| :: history[i] == key && NoEventAfter(history, key, i)
  }

  predicate AnyHeld(history: seq<bv16>) {
    Held(history, LEFT_SHIFT) || Held(history, RIGHT_SHIFT) || Held(history, CAPS)
  }

  /** What a keycode prints after a history. */
  function Printed(history: seq<bv16>, code: bv16): seq<U8> {
    var cap := CapOf(code);
    var c := if AnyHeld(history) then cap.upper else cap.lower;
    if c == 0 then [] else [c]
  }

  /** What is printed by codes that follow a history, each by what came before it. */
  function Typed<C, T>(shown: (seq<C>, C) -> seq<T>, history: seq<C>, codes: seq<C>): seq<T> {
    if codes == [] then []
    else
      var before := codes[..|codes| - 1];
      Typed(shown, history, before) + shown(history + before, codes[|codes| - 1])
  }

  lemma TypedOne<C, T>(shown: (seq<C>, C) -> seq<T>, history: seq<C>, codes: seq<C>, code: C)
    ensures Typed(shown, history, codes + [code]) == Typed(shown, history, codes) + shown(history + codes, code)
  {
    assert (codes + [code])[..|codes|] == codes;
  }

  lemma AppendNext<C>(h: seq<C>, a: seq<C>, b: seq<C>, c: C)
    ensures a + (b + [c]) == (a + b) + [c] && h + (a + b) == h + a + b
  {
  }

  lemma TakeNext<C>(s: seq<C>, n: nat)
    requires 0 < n <= |s|
    ensures s[..n] == s[..n - 1] + [s[n - 1]]
  {
  }

  lemma TakeAll<C>(s: seq<C>)
    ensures s[..|s|] == s
  {
  }

  /** The last code of b. */
  lemma TypedConcatStep<C, T>(shown: (seq<C>, C) -> seq<T>, history: seq<C>, a: seq<C>, b: seq<C>, c: C)
    requires Typed(shown, history, a + b) == Typed(shown, history, a) + Typed(shown, history + a, b)
    ensures Typed(shown, history, a + (b + [c])) == Typed(shown, history, a) + Typed(shown, history + a, b + [c])
  {
    TypedOne(shown, history, a + b, c);
    TypedOne(shown, history + a, b, c);
    AppendNext(history, a, b, c);
  }

  lemma {:induction false} TypedConcat<C, T>(shown: (seq<C>, C) -> seq<T>, history: seq<C>, a: seq<C>, b: seq<C>)
    ensures Typed(shown, history, a + b) == Typed(shown, history, a) + Typed(shown, history + a, b)
    decreases |b|
  {
    if b == [] {
      assert a + b == a;
    } else {
      var n := |b| - 1;
      TypedConcat(shown, history, a, b[..n]);
      TypedConcatStep(shown, history, a, b[..n], b[n]);
      TakeNext(b, |b|);
      TakeAll(b);
    }
  }

  /** The text of a sequence of keycodes that follow a history. */
  function Text(history: seq<bv16>, codes: seq<bv16>): seq<U8> { Typed(Printed, history, codes) }

  lemma TextOne(history: seq<bv16>, codes: seq<bv16>, code: bv16)
    ensures Text(history, codes + [code]) == Text(history, codes) + Printed(history + codes, code)
  {
    TypedOne(Printed, history, codes, code);
  }

  lemma TextConcat(history: seq<bv16>, a: seq<bv16>, b: seq<bv16>)
    ensures Text(history, a + b) == Text(history, a) + Text(history + a, b)
  {
    TypedConcat(Printed, history, a, b);
  }

  lemma TextOfOne(history: seq<bv16>, code: bv16)
    ensures Text(history, [code]) == Printed(history, code)
  {
    TextOne(history, [], code);
    assert history + [] == history && [] + [code] == [code];
  }

  /** One more keycode: a press sets the flag, a release clears it, anything else leaves it. */
  lemma HeldStep(history: seq<bv16>, code: bv16, key: bv16)
    ensures Held(history + [code], key) <==> code == key || (code != key ^ KEYUP && Held(history, key))
  {
    var after := history + [code];
    var n := |history|;
    if code == key {
      assert after[n] == key && NoEventAfter(after, key, n);
    }
    if code != key ^ KEYUP && Held(history, key) {
      var i :| 0 <= i < n && history[i] == key && NoEventAfter(history, key, i);
      if code != key {
        assert after[i] == key && NoEventAfter(after, key, i);
      }
    }
    if Held(after, key) && code != key {
      var i :| 0 <= i < |after| && after[i] == key && NoEventAfter(after, key, i);
      assert after[n] == code;
      forall j | i < j < n
        ensures history[j] != key && history[j] != key ^ KEYUP
      {
        assert after[j] == history[j];
      }
      assert history[i] == key && NoEventAfter(history, key, i);
    }
  }

  // ---------- which codes shown, and what ----------

  /** The code's test for a two-byte keycode; it also holds of 0xF0xx. */
  predicate Prefixed(code: bv16) { code & 0xEF00 == 0xE000 }

  predicate IsModifier(code: bv16) { code == LEFT_SHIFT || code == RIGHT_SHIFT || code == CAPS }

  lemma ModifiersAreBlank(code: bv16)
    requires IsModifier(code)
    ensures CapOf(code) == BLANK
  {
    if code == LEFT_SHIFT {
      assert LEFT_SHIFT as int == 0x2A;
    } else if code == RIGHT_SHIFT {
      assert RIGHT_SHIFT as int == 0x36;
    } else {
      assert CAPS as int == 0x3A;
    }
  }

  lemma CapOfCode(code: bv16)
    ensures CapOf(code) == if code < 60 then Legend(code as int) else BLANK
  {
    if code < 60 { KeymapIsLegend(code as int); }
  }

  /** A code prints what its key shows, the upper character exactly while a modifier is held. */
  lemma LegendPrinted(history: seq<bv16>, code: bv16)
    ensures var cap := if code < 60 then Legend(code as int) else BLANK;
            var c := if AnyHeld(history) then cap.upper else cap.lower;
            Printed(history, code) == if c == 0 then [] else [c]
  {
    CapOfCode(code);
  }

  lemma BlankKeys(n: nat)
    requires n < 60
    ensures Legend(n) == BLANK <==> n in {0x00, 0x1D, 0x2A, 0x36, 0x37, 0x38, 0x3A, 0x3B}
  {
    KeymapIsLegend(n);
  }

  /** Presses of modifiers, releases and prefixed codes print nothing; whether a code prints does
      not depend on the modifiers. */
  lemma PrintsIff(history: seq<bv16>, code: bv16)
    ensures Printed(history, code) != []
            <==> code < 60 && code as int !in {0x00, 0x1D, 0x2A, 0x36, 0x37, 0x38, 0x3A, 0x3B}
    ensures IsModifier(code) || Prefixed(code) || code & KEYUP != 0 ==> Printed(history, code) == []
    ensures forall c | c in Printed(history, code) :: c < 0x80
  {
    assert Prefixed(code) || code & KEYUP != 0 ==> code >= 60;
    if IsModifier(code) { ModifiersAreBlank(code); }
    if code < 60 {
      KeymapIsLegend(code as int);
      BlankKeys(code as int);
    }
  }

  /** The keys outside the rows. */
  lemma OtherKeys(history: seq<bv16>)
    ensures Printed(history, 0x01) == [27] && Printed(history, 0x0E) == [8] && Printed(history, 0x0F) == [9]
    ensures Printed(history, 0x1C) == [10] && Printed(history, 0x39) == [32]
  {
    LegendPrinted(history, 0x01);
    LegendPrinted(history, 0x0E);
    LegendPrinted(history, 0x0F);
    LegendPrinted(history, 0x1C);
    LegendPrinted(history, 0x39);
  }

  // ---------- typing the rows ----------

  predicate IsRow(r: Row) { r == DIGITS || r == TOP_ROW || r == HOME_ROW || r == BOTTOM_ROW }

  /** The keycode with this number. */
  function CodeOf(n: nat): (code: bv16)
    requires n < 60
    ensures code as int == n
  {
    if n == 0 then 0 else CodeOf(n - 1) + 1
  }

  lemma CodeOfBound(n: nat)
    requires n < 60
    ensures CodeOf(n) < 60
  {
    var code := CodeOf(n);
    assert code as int < 60;
  }

  /** The keycodes of a row from left to right. */
  function RowCodes(r: Row): seq<bv16>
    requires IsRow(r)
  {
    seq(|r.lower|, i requires 0 <= i < |r.lower| => CodeOf(r.first + i))
  }

  function Face(r: Row, shifted: bool): string { if shifted then r.upper else r.lower }

  lemma RowLegend(r: Row, n: nat)
    requires IsRow(r) && r.first <= n < r.first + |r.lower|
    ensures InRow(r, n) && Legend(n) == CapIn(r, n) && n !in {0x00, 0x1D, 0x2A, 0x36, 0x37, 0x38, 0x3A, 0x3B}
  {
  }

  /** A code by its number. */
  lemma NumberPrints(history: seq<bv16>, code: bv16, n: nat)
    requires code < 60 && code as int == n && n !in {0x00, 0x1D, 0x2A, 0x36, 0x37, 0x38, 0x3A, 0x3B}
    ensures Printed(history, code) == [if AnyHeld(history) then Legend(n).upper else Legend(n).lower]
  {
    LegendPrinted(history, code);
    PrintsIff(history, code);
  }

  lemma FaceOf(r: Row, i: nat, shifted: bool)
    requires IsRow(r) && i < |r.lower|
    ensures |r.upper| == |r.lower|
    ensures var cap := CapIn(r, r.first + i);
            Ascii(Face(r, shifted))[i] == if shifted then cap.upper else cap.lower
  {
  }

  lemma RowPrints(history: seq<bv16>, r: Row, i: nat)
    requires IsRow(r) && i < |r.lower|
    ensures |r.upper| == |r.lower| && Printed(history, RowCodes(r)[i]) == [Ascii(Face(r, AnyHeld(history)))[i]]
  {
    var code := RowCodes(r)[i];
    FaceOf(r, i, AnyHeld(history));
    RowLegend(r, r.first + i);
    CodeOfBound(r.first + i);
    NumberPrints(history, code, r.first + i);
  }

  /** Neither a press nor a release of the key. */
  predicate Unrelated(code: bv16, key: bv16) { code != key && code != key ^ KEYUP }

  lemma NumberUnrelated(n: nat, key: bv16)
    requires n < 60 && n !in {0x2A, 0x36, 0x3A} && IsModifier(key)
    ensures Unrelated(CodeOf(n), key)
  {
    CodeOfBound(n);
  }

  lemma RowUnrelated(r: Row, key: bv16)
    requires IsRow(r) && IsModifier(key)
    ensures forall i | 0 <= i < |RowCodes(r)| :: Unrelated(RowCodes(r)[i], key)
  {
    forall i | 0 <= i < |RowCodes(r)|
      ensures Unrelated(RowCodes(r)[i], key)
    {
      RowLegend(r, r.first + i);
      NumberUnrelated(r.first + i, key);
    }
  }

  lemma {:induction false} HeldThrough(history: seq<bv16>, codes: seq<bv16>, key: bv16)
    requires forall i | 0 <= i < |codes| :: Unrelated(codes[i], key)
    ensures Held(history + codes, key) == Held(history, key)
    decreases |codes|
  {
    if codes == [] {
      assert history + codes == history;
    } else {
      var n := |codes| - 1;
      HeldThrough(history, codes[..n], key);
      HeldStep(history + codes[..n], codes[n], key);
      assert history + codes == history + codes[..n] + [codes[n]];
    }
  }

  /** Typing in a row neither presses nor releases a modifier. */
  lemma RowKeepsHeld(history: seq<bv16>, r: Row, n: nat, key: bv16)
    requires IsRow(r) && n <= |RowCodes(r)| && IsModifier(key)
    ensures Held(history + RowCodes(r)[..n], key) == Held(history, key)
  {
    RowUnrelated(r, key);
    HeldThrough(history, RowCodes(r)[..n], key);
  }

  lemma RowKeepsAnyHeld(history: seq<bv16>, r: Row, n: nat)
    requires IsRow(r) && n <= |RowCodes(r)|
    ensures AnyHeld(history + RowCodes(r)[..n]) == AnyHeld(history)
  {
    RowKeepsHeld(history, r, n, LEFT_SHIFT);
    RowKeepsHeld(history, r, n, RIGHT_SHIFT);
    RowKeepsHeld(history, r, n, CAPS);
  }

  lemma {:induction false} RowTextUpTo(history: seq<bv16>, r: Row, n: nat)
    requires IsRow(r) && n <= |RowCodes(r)|
    ensures n <= |Face(r, AnyHeld(history))|
    ensures Text(history, RowCodes(r)[..n]) == Ascii(Face(r, AnyHeld(history)))[..n]
  {
    if n > 0 {
      RowTextUpTo(history, r, n - 1);
      var codes, text := RowCodes(r), Ascii(Face(r, AnyHeld(history)));
      RowKeepsAnyHeld(history, r, n - 1);
      RowPrints(history + codes[..n - 1], r, n - 1);
      TakeNext(codes, n);
      TakeNext(text, n);
      TextOne(history, codes[..n - 1], codes[n - 1]);
    }
  }

  /** After any history, typing a row shows what is printed on its keys. */
  lemma RowText(history: seq<bv16>, r: Row)
    requires IsRow(r)
    ensures Text(history, RowCodes(r)) == Ascii(Face(r, AnyHeld(history)))
  {
    RowTextUpTo(history, r, |RowCodes(r)|);
    TakeAll(RowCodes(r));
    TakeAll(Ascii(Face(r, AnyHeld(history))));
  }

  /** A row while the key is held, and the row again after its release. */
  function ShiftedRow(r: Row, key: bv16): seq<bv16>
    requires IsRow(r)
  {
    [key] + RowCodes(r) + [key | 0x80] + RowCodes(r)
  }

  lemma PressReleaseSilent(history: seq<bv16>, key: bv16)
    requires key == 0x2A || key == 0x36 || key == 0x3A
    ensures Text(history, [key]) == [] && Text(history, [key | 0x80]) == []
  {
    TextOfOne(history, key);
    TextOfOne(history, key | 0x80);
    PrintsIff(history, key);
    PrintsIff(history, key | 0x80);
  }

  lemma PressHolds(history: seq<bv16>, key: bv16, other: bv16)
    requires (key == 0x2A || key == 0x36 || key == 0x3A) && IsModifier(other) && !AnyHeld(history)
    ensures Held(history + [key], other) <==> other == key
  {
    HeldStep(history, key, other);
  }

  lemma ReleaseFrees(history: seq<bv16>, key: bv16)
    requires key == 0x2A || key == 0x36 || key == 0x3A
    requires forall other | IsModifier(other) :: Held(history, other) <==> other == key
    ensures !AnyHeld(history + [key | 0x80])
  {
    HeldStep(history, key | 0x80, LEFT_SHIFT);
    HeldStep(history, key | 0x80, RIGHT_SHIFT);
    HeldStep(history, key | 0x80, CAPS);
  }

  lemma FourParts(history: seq<bv16>, a: seq<bv16>, b: seq<bv16>, c: seq<bv16>, d: seq<bv16>)
    ensures Text(history, a + b + c + d)
              == Text(history, a) + Text(history + a, b) + Text(history + a + b, c) + Text(history + a + b + c, d)
  {
    TextConcat(history, a, b);
    TextConcat(history, a + b, c);
    TextConcat(history, a + b + c, d);
    assert history + (a + b) == history + a + b && history + (a + b + c) == history + a + b + c;
  }

  lemma NothingBetween<T>(x: seq<T>, y: seq<T>)
    ensures [] + x + [] + y == x + y
  {
  }

  lemma HistoryOf(history: seq<bv16>, a: seq<bv16>, b: seq<bv16>, c: seq<bv16>, d: seq<bv16>)
    ensures history + (a + b + c + d) == history + a + b + c + d
  {
  }

  /** With no modifier held: while shift on either side or caps lock is down the upper row appears,
      and the lower row again after its release, which leaves no modifier held. */
  lemma ShiftedRowText(history: seq<bv16>, r: Row, key: bv16)
    requires IsRow(r) && !AnyHeld(history) && (key == 0x2A || key == 0x36 || key == 0x3A)
    ensures Text(history, ShiftedRow(r, key)) == Ascii(r.upper) + Ascii(r.lower)
    ensures !AnyHeld(history + ShiftedRow(r, key))
  {
    var codes := RowCodes(r);
    var h1 := history + [key];
    var h2 := h1 + codes;
    var h3 := h2 + [key | 0x80];
    TakeAll(codes);
    forall other | IsModifier(other)
      ensures (Held(h1, other) <==> other == key) && (Held(h2, other) <==> other == key)
    {
      PressHolds(history, key, other);
      RowKeepsHeld(h1, r, |codes|, other);
    }
    ReleaseFrees(h2, key);
    RowText(h1, r);
    RowText(h3, r);
    RowKeepsAnyHeld(h3, r, |codes|);
    PressReleaseSilent(history, key);
    PressReleaseSilent(h2, key);
    FourParts(history, [key], codes, [key | 0x80], codes);
    NothingBetween(Ascii(r.upper), Ascii(r.lower));
    HistoryOf(history, [key], codes, [key | 0x80], codes);
  }

  // ---------- prefixed codes are invisible ----------

  function WithoutPrefixed(codes: seq<bv16>): seq<bv16> {
    if codes == [] then []
    else
      var before, code := WithoutPrefixed(codes[..|codes| - 1]), codes[|codes| - 1];
      if Prefixed(code) then before else before + [code]
  }

  lemma {:induction false} HeldWithoutPrefixed(history: seq<bv16>, key: bv16)
    requires IsModifier(key)
    ensures Held(WithoutPrefixed(history), key) == Held(history, key)
    decreases |history|
  {
    if history != [] {
      var before, code := history[..|history| - 1], history[|history| - 1];
      assert history == before + [code];
      HeldWithoutPrefixed(before, key);
      HeldStep(before, code, key);
      HeldStep(WithoutPrefixed(before), code, key);
    }
  }

  /** Dropping every two-byte keycode from a history changes neither flags nor text. */
  lemma {:induction false} TextWithoutPrefixed(codes: seq<bv16>)
    ensures Text([], WithoutPrefixed(codes)) == Text([], codes)
    decreases |codes|
  {
    if codes != [] {
      var before, code := codes[..|codes| - 1], codes[|codes| - 1];
      TextWithoutPrefixed(before);
      assert [] + before == before;
      PrintsIff(before, code);
      if !Prefixed(code) {
        var kept := WithoutPrefixed(before);
        HeldWithoutPrefixed(before, LEFT_SHIFT);
        HeldWithoutPrefixed(before, RIGHT_SHIFT);
        HeldWithoutPrefixed(before, CAPS);
        TextOne([], kept, code);
        assert [] + kept == kept;
      }
    }
  }

  // ---------- the code ----------

  /** A modifier's flag after a code: a press sets it, a release clears it. */
  predicate FlagAfter(code: bv16, key: bv16, flag: bool) { code == key || (code != key ^ KEYUP && flag) }

  lemma OtherKeepsFlag(code: bv16, key: bv16, flag: bool)
    requires IsModifier(key) && (Prefixed(code) || (code & KEYUP == 0 && !IsModifier(code)))
    ensures FlagAfter(code, key, flag) == flag
  {
  }

  /** A code that is prefixed, or prints, is neither a press nor a release of a modifier. */
  lemma SilentOrPlain(history: seq<bv16>, code: bv16)
    ensures Prefixed(code) || code & KEYUP != 0 ==> Printed(history, code) == []
    ensures Prefixed(code) || Printed(history, code) != [] ==>
              forall key, flag | IsModifier(key) :: FlagAfter(code, key, flag) == flag
  {
    PrintsIff(history, code);
    if Prefixed(code) || Printed(history, code) != [] {
      forall key, flag | IsModifier(key)
        ensures FlagAfter(code, key, flag) == flag
      {
        OtherKeepsFlag(code, key, flag);
      }
    }
  }

  class Driver {
    var shiftlDown: bool
    var shiftrDown: bool
    var capsDown: bool
    const terminal: Terminal
    ghost var history: seq<bv16>

    ghost predicate Valid()
      reads this, terminal
    {
      && terminal.Valid()
      && shiftlDown == Held(history, LEFT_SHIFT)
      && shiftrDown == Held(history, RIGHT_SHIFT)
      && capsDown == Held(history, CAPS)
    }

    constructor (terminal: Terminal)
      requires terminal.Valid()
      ensures Valid() && history == [] && this.terminal == terminal
    {
      this.terminal := terminal;
      shiftlDown, shiftrDown, capsDown := false, false, false;
      history := [];
    }

    lemma FlagsStep(code: bv16, l: bool, r: bool, c: bool)
      requires l == Held(history, LEFT_SHIFT) && r == Held(history, RIGHT_SHIFT) && c == Held(history, CAPS)
      ensures FlagAfter(code, LEFT_SHIFT, l) == Held(history + [code], LEFT_SHIFT)
      ensures FlagAfter(code, RIGHT_SHIFT, r) == Held(history + [code], RIGHT_SHIFT)
      ensures FlagAfter(code, CAPS, c) == Held(history + [code], CAPS)
    {
      HeldStep(history, code, LEFT_SHIFT);
      HeldStep(history, code, RIGHT_SHIFT);
      HeldStep(history, code, CAPS);
    }

    /** The two switches: a modifier goes down or comes up. */
    method SpecialKey(code: bv16)
      modifies this`shiftlDown, this`shiftrDown, this`capsDown
      ensures shiftlDown == FlagAfter(code, 0x2A, old(shiftlDown))
      ensures shiftrDown == FlagAfter(code, 0x36, old(shiftrDown))
      ensures capsDown == FlagAfter(code, 0x3A, old(capsDown))
    {
      if code & KEYUP == 0 {
        if code == 0x2A {
          shiftlDown := true;
        } else if code == 0x36 {
          shiftrDown := true;
        } else if code == 0x3A {
          capsDown := true;
        }
      } else {
        var key := code ^ KEYUP;
        if key == 0x2A {
          shiftlDown := false;
        } else if key == 0x36 {
          shiftrDown := false;
        } else if key == 0x3A {
          capsDown := false;
        }
      }
    }

    /** An entry of a key map: zero prints nothing. */
    method PutCap(c: U8) returns (printed: bool)
      requires terminal.Valid()
      modifies terminal`row, terminal`column, terminal.buffer
      ensures terminal.Valid() && (printed <==> c != 0)
      ensures terminal.Now() == Render(old(terminal.Now()), if c == 0 then [] else [c])
    {
      if c != 0 {
        RenderOne(terminal.Now(), [], c);
        assert [] + [c] == [c];
        terminal.PutChar(c);
        return true;
      }
      return false;
    }

    /** The press of a key: its character, if it has one. */
    method PrintKey(code: bv16) returns (printed: bool)
      requires Valid() && code & KEYUP == 0
      modifies terminal`row, terminal`column, terminal.buffer
      ensures terminal.Valid() && (printed <==> Printed(history, code) != [])
      ensures terminal.Now() == Render(old(terminal.Now()), Printed(history, code))
    {
      if code < 60 {
        var upper := ((shiftlDown || shiftrDown) && !capsDown) || capsDown;
        var c := if upper then KeyAt(code as int).upper else KeyAt(code as int).lower;
        printed := PutCap(c);
      } else {
        printed := false;
      }
    }

    /** A one-byte keycode. */
    method HandlePlain(code: bv16)
      requires Valid()
      modifies this`shiftlDown, this`shiftrDown, this`capsDown, terminal`row, terminal`column, terminal.buffer
      ensures terminal.Valid() && terminal.Now() == Render(old(terminal.Now()), Printed(history, code))
      ensures shiftlDown == FlagAfter(code, LEFT_SHIFT, old(shiftlDown))
      ensures shiftrDown == FlagAfter(code, RIGHT_SHIFT, old(shiftrDown))
      ensures capsDown == FlagAfter(code, CAPS, old(capsDown))
    {
      SilentOrPlain(history, code);
      if code & KEYUP == 0 {
        var printed := PrintKey(code);
        if printed { return; }
      }
      SpecialKey(code);
    }

    method Handle(code: bv16)
      requires Valid()
      modifies this, terminal`row, terminal`column, terminal.buffer
      ensures Valid() && history == old(history) + [code]
      ensures terminal.Now() == Render(old(terminal.Now()), Printed(old(history), code))
    {
      FlagsStep(code, shiftlDown, shiftrDown, capsDown);
      if code & 0xEF00 == 0xE000 {
        SilentOrPlain(history, code);
        assert Prefixed(code);
      } else {
        HandlePlain(code);
      }
      history := history + [code];
    }
  }
}
