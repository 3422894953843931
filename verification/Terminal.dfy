/** The text terminal of terminal.c: an 80 by 24 window of VGA memory and a cursor that wraps. */
module Terminal {
  import opened Bits

  const VGA_WIDTH: nat := 80
  const VGA_HEIGHT: nat := 24
  const CELLS: nat := 1920
  const NEWLINE: U8 := 10

  // ---------- cells ----------

  /** `uint16_t c16 = c` for a char that is signed: from 0x80 up, the upper byte is all ones. */
  function SignExtended(c: U8): U16 { if c < 0x80 then c else 0xFF00 + c }

  /** What make_vgaentry computes: the character below, the colour above, unless a sign bit
      overruns the colour. */
  function VgaEntry(c: U8, color: U8): U16 {
    if c < 0x80 then c + 0x100 * color else 0xFF00 + c
  }

  lemma VgaEntryExpression(c: U8, color: U8)
    ensures Or(SignExtended(c), color * 0x100) == VgaEntry(c, color)
  {
    var high := if c < 0x80 then 0 else 0xFF;
    OrBytes(high, c, color);
    if c < 0x80 {
      OrZero(color);
    } else {
      Shl8(1);
      OrOnes(8, color);
    }
  }

  /** The screen shows the character always, and in the terminal's colour exactly for 7-bit
      characters or an all-ones colour. */
  lemma VgaEntryDecodes(c: U8, color: U8)
    ensures VgaEntry(c, color) % 0x100 == c
    ensures VgaEntry(c, color) / 0x100 == color <==> c < 0x80 || color == 0xFF
  {
  }

  /** `fg | bg << 4` for colours below 16. */
  function MakeColor(fg: nat, bg: nat): U8
    requires fg < 16 && bg < 16
  {
    OrNibbles(bg, fg);
    Or(fg, bg * 16)
  }

  // ---------- the screen as a function of the text ----------

  /** The cells of VGA memory, and the cursor as a position counted through the window. */
  datatype Screen = Screen(cells: seq<U16>, pos: nat, color: U8)

  predicate Ok(s: Screen) { |s.cells| >= CELLS && s.pos < CELLS }

  /** Where the cursor goes: to the next line's start, or one on; both wrap. */
  function Advance(pos: nat, c: U8): nat {
    if c == NEWLINE then (pos / VGA_WIDTH + 1) % VGA_HEIGHT * VGA_WIDTH else (pos + 1) % CELLS
  }

  function Put(s: Screen, c: U8): (s': Screen)
    requires Ok(s)
    ensures Ok(s') && |s'.cells| == |s.cells| && s'.color == s.color && s'.pos == Advance(s.pos, c)
  {
    Screen(if c == NEWLINE then s.cells else s.cells[s.pos := VgaEntry(c, s.color)], Advance(s.pos, c), s.color)
  }

  function Render(s: Screen, text: seq<U8>): (s': Screen)
    requires Ok(s)
    ensures Ok(s') && |s'.cells| == |s.cells| && s'.color == s.color
  {
    if text == [] then s else Put(Render(s, text[..|text| - 1]), text[|text| - 1])
  }

  lemma RenderOne(s: Screen, text: seq<U8>, c: U8)
    requires Ok(s)
    ensures Render(s, text + [c]) == Put(Render(s, text), c)
  {
    assert (text + [c])[..|text|] == text;
  }

  lemma {:induction false} RenderConcat(s: Screen, a: seq<U8>, b: seq<U8>)
    requires Ok(s)
    ensures Render(s, a + b) == Render(Render(s, a), b)
    decreases |b|
  {
    if b == [] {
      assert a + b == a;
    } else {
      var n := |b| - 1;
      RenderConcat(s, a, b[..n]);
      assert a + b == (a + b[..n]) + [b[n]];
      RenderOne(s, a + b[..n], b[n]);
    }
  }

  /** The cursor before character i. */
  function CursorAt(pos: nat, text: seq<U8>): nat {
    if text == [] then pos else Advance(CursorAt(pos, text[..|text| - 1]), text[|text| - 1])
  }

  lemma {:induction false} RenderMovesCursor(s: Screen, text: seq<U8>)
    requires Ok(s)
    ensures Render(s, text).pos == CursorAt(s.pos, text)
    decreases |text|
  {
    if text != [] { RenderMovesCursor(s, text[..|text| - 1]); }
  }

  /** Character i of the text was put into cell q. */
  predicate Hits(pos: nat, text: seq<U8>, i: nat, q: nat)
    requires i < |text|
  {
    text[i] != NEWLINE && CursorAt(pos, text[..i]) == q
  }

  /** Hits by the first characters of a text are hits by the text. */
  lemma HitsInPrefix(pos: nat, text: seq<U8>, n: nat, i: nat, q: nat)
    requires i < n <= |text|
    ensures Hits(pos, text[..n], i, q) == Hits(pos, text, i, q)
  {
    assert text[..n][..i] == text[..i];
  }

  /** A cell that no character from number n on hits is as the first n left it. */
  lemma {:induction false} CellKept(s: Screen, text: seq<U8>, q: nat, n: nat)
    requires Ok(s) && q < |s.cells| && n <= |text|
    requires forall j: nat | n <= j < |text| :: !Hits(s.pos, text, j, q)
    ensures Render(s, text).cells[q] == Render(s, text[..n]).cells[q]
    decreases |text|
  {
    if n < |text| {
      var last := |text| - 1;
      forall j: nat | n <= j < last
        ensures !Hits(s.pos, text[..last], j, q)
      {
        HitsInPrefix(s.pos, text, last, j, q);
      }
      CellKept(s, text[..last], q, n);
      RenderMovesCursor(s, text[..last]);
      assert !Hits(s.pos, text, last, q);
      assert text[..last][..n] == text[..n];
    } else {
      assert text[..n] == text;
    }
  }

  /** The cell a character is put into shows it. */
  lemma CellHit(s: Screen, text: seq<U8>, i: nat, q: nat)
    requires Ok(s) && q < |s.cells| && i < |text| && Hits(s.pos, text, i, q)
    ensures Render(s, text[..i + 1]).cells[q] == VgaEntry(text[i], s.color)
  {
    assert text[..i + 1] == text[..i] + [text[i]];
    RenderOne(s, text[..i], text[i]);
    RenderMovesCursor(s, text[..i]);
  }

  /** Every cell shows the last character put into it... */
  lemma CellShowsLastHit(s: Screen, text: seq<U8>, i: nat, q: nat)
    requires Ok(s) && q < |s.cells| && i < |text| && Hits(s.pos, text, i, q)
    requires forall j: nat | i < j < |text| :: !Hits(s.pos, text, j, q)
    ensures Render(s, text).cells[q] == VgaEntry(text[i], s.color)
  {
    CellHit(s, text, i, q);
    CellKept(s, text, q, i + 1);
  }

  /** ... or, if there is none, what it showed before. */
  lemma CellWithoutHit(s: Screen, text: seq<U8>, q: nat)
    requires Ok(s) && q < |s.cells| && forall i: nat | i < |text| :: !Hits(s.pos, text, i, q)
    ensures Render(s, text).cells[q] == s.cells[q]
  {
    CellKept(s, text, q, 0);
    assert text[..0] == [];
  }

  // ---------- text without newlines ----------

  predicate NoNewline(text: seq<U8>) { forall i | 0 <= i < |text| :: text[i] != NEWLINE }

  lemma StepMod(x: nat)
    ensures (x % CELLS + 1) % CELLS == (x + 1) % CELLS
  {
  }

  lemma {:induction false} CursorWithoutNewline(pos: nat, text: seq<U8>)
    requires NoNewline(text) && pos < 1920
    ensures CursorAt(pos, text) == (pos + |text|) % 1920
    decreases |text|
  {
    if text != [] {
      var n := |text| - 1;
      CursorWithoutNewline(pos, text[..n]);
      StepMod(pos + n);
    }
  }

  /** The index of the last of n characters that lands in cell q, counted from a cursor at pos. */
  function LastIndex(pos: nat, n: nat, q: nat): int
    requires pos < CELLS && q < CELLS
  {
    var first := if pos <= q then q - pos else q + CELLS - pos;
    if first < n then first + (n - 1 - first) / CELLS * CELLS else -1
  }

  /** Character j, from a cursor at pos and without newlines, lands in cell q. */
  predicate Lands(pos: nat, j: nat, q: nat) { (pos + j) % CELLS == q }

  lemma LandsIff(pos: nat, j: nat, q: nat)
    requires pos < CELLS && q < CELLS
    ensures var first := if pos <= q then q - pos else q + CELLS - pos;
            Lands(pos, j, q) <==> j >= first && (j - first) % CELLS == 0
  {
    var first := if pos <= q then q - pos else q + CELLS - pos;
    var carry := if pos <= q then 0 else 1;
    assert pos + j == q + CELLS * carry + (j - first);
    if j >= first {
      var k, r := (j - first) / CELLS, (j - first) % CELLS;
      assert pos + j == CELLS * (carry + k) + (q + r);
    }
  }

  lemma LastIndexLands(pos: nat, n: nat, q: nat)
    requires pos < CELLS && q < CELLS
    ensures var i := LastIndex(pos, n, q); -1 <= i < n && (i >= 0 ==> Lands(pos, i, q))
  {
    var first := if pos <= q then q - pos else q + CELLS - pos;
    var i := LastIndex(pos, n, q);
    if i >= 0 {
      var k := (n - 1 - first) / CELLS;
      assert i - first == k * CELLS;
      LandsIff(pos, i, q);
    }
  }

  lemma NotMultiple(k: nat, d: nat)
    requires k * CELLS < d < k * CELLS + CELLS
    ensures d % CELLS != 0
  {
    assert d / CELLS == k;
  }

  lemma NoneLandsLater(pos: nat, n: nat, q: nat, j: nat)
    requires pos < CELLS && q < CELLS && LastIndex(pos, n, q) < j < n
    ensures !Lands(pos, j, q)
  {
    var first := if pos <= q then q - pos else q + CELLS - pos;
    LandsIff(pos, j, q);
    if j >= first {
      var k, d := (n - 1 - first) / CELLS, j - first;
      assert k * CELLS < d <= n - 1 - first < k * CELLS + CELLS;
      NotMultiple(k, d);
    }
  }

  lemma HitsAreLandings(pos: nat, text: seq<U8>, j: nat, q: nat)
    requires NoNewline(text) && pos < CELLS && j < |text|
    ensures Hits(pos, text, j, q) <==> Lands(pos, j, q)
  {
    CursorWithoutNewline(pos, text[..j]);
  }

  /** The closed form: cell q shows the last character whose index is q - pos modulo 1920. */
  lemma CellsWithoutNewline(s: Screen, text: seq<U8>, q: nat)
    requires Ok(s) && NoNewline(text) && q < CELLS
    ensures var i := LastIndex(s.pos, |text|, q);
            i < |text| && Render(s, text).cells[q] == if i >= 0 then VgaEntry(text[i], s.color) else s.cells[q]
  {
    var i := LastIndex(s.pos, |text|, q);
    LastIndexLands(s.pos, |text|, q);
    forall j: nat | i < j < |text|
      ensures !Hits(s.pos, text, j, q)
    {
      HitsAreLandings(s.pos, text, j, q);
      NoneLandsLater(s.pos, |text|, q, j);
    }
    if i >= 0 {
      HitsAreLandings(s.pos, text, i, q);
      CellShowsLastHit(s, text, i, q);
    } else {
      CellWithoutHit(s, text, q);
    }
  }

  /** The i-th cell from a cursor on, past the end of the window to its start. */
  function CellAt(s: Screen, pos: nat, i: nat): U16
    requires Ok(s)
  {
    s.cells[(pos + i) % CELLS]
  }

  lemma FirstOfFew(pos: nat, n: nat, i: nat)
    requires pos < CELLS && i < n <= CELLS
    ensures LastIndex(pos, n, (pos + i) % CELLS) == i
  {
    var q := (pos + i) % CELLS;
    var first := if pos <= q then q - pos else q + CELLS - pos;
    assert Lands(pos, i, q);
    LandsIff(pos, i, q);
    assert i == first;
  }

  lemma CellOfFew(s: Screen, text: seq<U8>, i: nat)
    requires Ok(s) && NoNewline(text) && i < |text| <= CELLS
    ensures CellAt(Render(s, text), s.pos, i) == VgaEntry(text[i], s.color)
  {
    FirstOfFew(s.pos, |text|, i);
    CellsWithoutNewline(s, text, (s.pos + i) % CELLS);
  }

  /** Whatever is written, memory past the window keeps its contents. */
  lemma BeyondWindowKept(s: Screen, text: seq<U8>, q: nat)
    requires Ok(s) && CELLS <= q < |s.cells|
    ensures Render(s, text).cells[q] == s.cells[q]
  {
    forall i: nat | i < |text|
      ensures !Hits(s.pos, text, i, q)
    {
      RenderMovesCursor(s, text[..i]);
    }
    CellWithoutHit(s, text, q);
  }

  /** Up to 1920 characters without newlines are all still there, each in the next cell, and no
      other cell changed. */
  lemma ShortTextShown(s: Screen, text: seq<U8>)
    requires Ok(s) && NoNewline(text) && |text| <= CELLS
    ensures forall i: nat | i < |text| :: CellAt(Render(s, text), s.pos, i) == VgaEntry(text[i], s.color)
    ensures forall q: nat | q < |s.cells| && (q < CELLS ==> LastIndex(s.pos, |text|, q) < 0) ::
              Render(s, text).cells[q] == s.cells[q]
  {
    forall i: nat | i < |text|
      ensures CellAt(Render(s, text), s.pos, i) == VgaEntry(text[i], s.color)
    {
      CellOfFew(s, text, i);
    }
    forall q: nat | q < |s.cells| && (q < CELLS ==> LastIndex(s.pos, |text|, q) < 0)
      ensures Render(s, text).cells[q] == s.cells[q]
    {
      if q < CELLS {
        CellsWithoutNewline(s, text, q);
      } else {
        BeyondWindowKept(s, text, q);
      }
    }
  }

  // ---------- hexadecimal ----------

  /** Upper-case digits. */
  function HexDigit(n: nat): U8
    requires n < 16
  {
    if n > 9 then 65 + n - 10 else 48 + n
  }

  function HexByte(b: U8): seq<U8> { [HexDigit(b / 16), HexDigit(b % 16)] }

  function HexText(v: U32): seq<U8> {
    HexByte(v / 0x100_0000) + HexByte(v / 0x1_0000 % 0x100) + HexByte(v / 0x100 % 0x100) + HexByte(v % 0x100)
  }

  /** The value of a digit; 16 for anything else. */
  function DigitValue(c: U8): nat {
    if 48 <= c < 58 then c - 48 else if 65 <= c < 71 then c - 55 else 16
  }

  /** Parsing, most significant digit first; None unless every character is a digit. */
  function ParseHex(text: seq<U8>): int {
    if text == [] then 0
    else
      var before, d := ParseHex(text[..|text| - 1]), DigitValue(text[|text| - 1]);
      if before < 0 || d == 16 then -1 else 16 * before + d
  }

  lemma ParseByte(text: seq<U8>, b: U8)
    requires ParseHex(text) >= 0
    ensures ParseHex(text + HexByte(b)) == 0x100 * ParseHex(text) + b
  {
    var one := text + [HexDigit(b / 16)];
    assert one[..|text|] == text;
    assert ParseHex(one) == 16 * ParseHex(text) + b / 16;
    var two := text + HexByte(b);
    assert two[..|two| - 1] == one;
    assert ParseHex(two) == 16 * ParseHex(one) + b % 16;
  }

  lemma BytesOfValue(v: U32)
    ensures v == 0x100 * (0x100 * (0x100 * (v / 0x100_0000) + v / 0x1_0000 % 0x100) + v / 0x100 % 0x100) + v % 0x100
  {
    var h1 := v / 0x100;
    var h2 := h1 / 0x100;
    assert v / 0x1_0000 == h2;
    assert v / 0x100_0000 == h2 / 0x100;
  }

  /** The eight digits give the value back. */
  lemma HexRoundTrip(v: U32)
    ensures ParseHex(HexText(v)) == v
  {
    var b3, b2, b1, b0 := v / 0x100_0000, v / 0x1_0000 % 0x100, v / 0x100 % 0x100, v % 0x100;
    assert [] + HexByte(b3) == HexByte(b3);
    ParseByte([], b3);
    ParseByte(HexByte(b3), b2);
    ParseByte(HexByte(b3) + HexByte(b2), b1);
    ParseByte(HexByte(b3) + HexByte(b2) + HexByte(b1), b0);
    BytesOfValue(v);
  }

  /** What a reader of the screen finds in n cells from position pos on. */
  function ReadBack(s: Screen, pos: nat, n: nat): seq<U8>
    requires Ok(s)
  {
    seq(n, i requires 0 <= i => CellAt(s, pos, i) % 0x100)
  }

  lemma TextReadBack(s: Screen, text: seq<U8>)
    requires Ok(s) && NoNewline(text) && |text| <= CELLS
    ensures ReadBack(Render(s, text), s.pos, |text|) == text
  {
    var back := ReadBack(Render(s, text), s.pos, |text|);
    forall i | 0 <= i < |text|
      ensures back[i] == text[i]
    {
      CellOfFew(s, text, i);
      VgaEntryDecodes(text[i], s.color);
    }
  }

  lemma TextColor(s: Screen, text: seq<U8>, i: nat)
    requires Ok(s) && NoNewline(text) && i < |text| <= CELLS && text[i] < 0x80
    ensures CellAt(Render(s, text), s.pos, i) / 0x100 == s.color
  {
    CellOfFew(s, text, i);
    VgaEntryDecodes(text[i], s.color);
  }

  lemma HexTextIsDigits(v: U32)
    ensures |HexText(v)| == 8 && forall i | 0 <= i < 8 :: 48 <= HexText(v)[i] < 71
  {
  }

  /** terminal_writehex, read back from the screen: the value, in the current colour, in the eight
      cells from the old cursor on. */
  lemma HexShown(s: Screen, v: U32)
    requires Ok(s)
    ensures ParseHex(ReadBack(Render(s, HexText(v)), s.pos, 8)) == v
    ensures forall i: nat | i < 8 :: CellAt(Render(s, HexText(v)), s.pos, i) / 0x100 == s.color
    ensures Render(s, HexText(v)).pos == (s.pos + 8) % CELLS
  {
    HexRoundTrip(v);
    HexTextIsDigits(v);
    TextReadBack(s, HexText(v));
    forall i: nat | i < 8
      ensures CellAt(Render(s, HexText(v)), s.pos, i) / 0x100 == s.color
    {
      TextColor(s, HexText(v), i);
    }
    RenderMovesCursor(s, HexText(v));
    CursorWithoutNewline(s.pos, HexText(v));
  }

  // ---------- the code ----------

  predicate IsEnd(data: seq<U8>, n: nat) {
    n < |data| && data[n] == 0 && forall i | 0 <= i < n :: data[i] != 0
  }

  /** The characters of a C string, up to the terminating zero. */
  ghost function CString(data: seq<U8>): seq<U8> {
    if exists n: nat :: IsEnd(data, n) then
      var n: nat :| IsEnd(data, n);
      data[..n]
    else data
  }

  /** A C string literal: its characters and a zero. */
  function Ascii(text: string): seq<U8> {
    seq(|text|, i requires 0 <= i < |text| => text[i] as int % 0x100)
  }

  function Literal(text: string): seq<U8> { Ascii(text) + [0] }

  lemma EndUnique(data: seq<U8>, m: nat, n: nat)
    requires IsEnd(data, m) && IsEnd(data, n)
    ensures m == n
  {
    assert data[m] == 0 && data[n] == 0;
  }

  lemma CStringPrefix(data: seq<U8>, n: nat)
    requires IsEnd(data, n)
    ensures CString(data) == data[..n]
  {
    var m: nat :| IsEnd(data, m) && CString(data) == data[..m];
    EndUnique(data, m, n);
  }

  lemma LiteralEnds(text: string)
    ensures Literal(text)[|text|] == 0 && 0 in Literal(text)
  {
  }

  /** A literal without zeros is its text. */
  lemma LiteralIsText(text: string)
    requires forall i | 0 <= i < |text| :: text[i] as int % 0x100 != 0
    ensures CString(Literal(text)) == Ascii(text)
  {
    assert Literal(text)[..|text|] == Ascii(text);
    CStringPrefix(Literal(text), |text|);
  }

  /** On 24 rows of 80 columns the cursor moves as Advance says: one on, or to the start of the next
      line after a line feed and at a line's end; after the last line comes the first. */
  lemma AdvanceByRow(row: nat, column: nat, c: U8)
    requires row < 24 && column < 80
    ensures var next := if row == 23 then 0 else (row + 1) * 80;
            Advance(row * 80 + column, c) == if c == 10 || column == 79 then next else row * 80 + column + 1
  {
    assert (row * 80 + column) / 80 == row;
  }

  class Terminal {
    var row: nat
    var column: nat
    var color: U8
    const buffer: array<U16>

    constructor (buffer: array<U16>)
      requires buffer.Length >= CELLS
      ensures this.buffer == buffer && row == 0 && column == 0 && color == 7
    {
      this.buffer := buffer;
      row, column, color := 0, 0, 7;
    }

    ghost predicate Valid()
      reads this
    {
      buffer.Length >= CELLS && row < VGA_HEIGHT && column < VGA_WIDTH
    }

    ghost function Now(): Screen
      reads this, buffer
      requires Valid()
    {
      Screen(buffer[..], row * VGA_WIDTH + column, color)
    }

    method Initialize()
      requires buffer.Length >= CELLS
      modifies this, buffer
      ensures Valid() && Now().pos == 0 && color == 7
      ensures forall q | 0 <= q < 1920 :: buffer[q] == 0x0720
      ensures forall q | 1920 <= q < buffer.Length :: buffer[q] == old(buffer[q])
    {
      row, column := 0, 0;
      OrZero(7);
      color := MakeColor(7, 0);
      VgaEntryExpression(32, color);
      for y := 0 to VGA_HEIGHT
        invariant forall q | 0 <= q < y * VGA_WIDTH :: buffer[q] == VgaEntry(32, 7)
        invariant forall q | CELLS <= q < buffer.Length :: buffer[q] == old(buffer[q])
        invariant color == 7 && row == 0 && column == 0
      {
        for x := 0 to VGA_WIDTH
          invariant forall q | 0 <= q < y * VGA_WIDTH + x :: buffer[q] == VgaEntry(32, 7)
          invariant forall q | CELLS <= q < buffer.Length :: buffer[q] == old(buffer[q])
          invariant color == 7 && row == 0 && column == 0
        {
          var index := y * VGA_WIDTH + x;
          buffer[index] := VgaEntry(32, color);
        }
      }
    }

    method PutEntryAt(c: U8, entryColor: U8, x: nat, y: nat)
      requires Valid() && x < VGA_WIDTH && y < VGA_HEIGHT
      modifies buffer
      ensures buffer[..] == old(buffer[..])[y * VGA_WIDTH + x := VgaEntry(c, entryColor)]
    {
      var index := y * VGA_WIDTH + x;
      VgaEntryExpression(c, entryColor);
      buffer[index] := Or(SignExtended(c), entryColor * 0x100);
    }

    method PutChar(c: U8)
      requires Valid()
      modifies this`row, this`column, buffer
      ensures Valid() && Now() == Put(old(Now()), c)
    {
      AdvanceByRow(row, column, c);
      if c == NEWLINE {
        row := row + 1;
        if row == VGA_HEIGHT { row := 0; }
        column := 0;
        return;
      }
      PutEntryAt(c, color, column, row);
      column := column + 1;
      if column == VGA_WIDTH {
        column := 0;
        row := row + 1;
        if row == VGA_HEIGHT {
          row := 0;
        }
      }
    }

    /** data is a C string: it must hold a zero. */
    method WriteString(data: seq<U8>)
      requires Valid() && 0 in data
      modifies this`row, this`column, buffer
      ensures Valid() && Now() == Render(old(Now()), CString(data))
    {
      ghost var before := Now();
      var i := 0;
      while data[i] != 0
        invariant i < |data| && forall j | 0 <= j < i :: data[j] != 0
        invariant Valid() && Now() == Render(before, data[..i])
        decreases |data| - i
      {
        RenderOne(before, data[..i], data[i]);
        assert data[..i + 1] == data[..i] + [data[i]];
        PutChar(data[i]);
        i := i + 1;
        assert i < |data|;
      }
      CStringPrefix(data, i);
    }

    method WriteHexDigits(digit: U8)
      requires Valid()
      modifies this`row, this`column, buffer
      ensures Valid() && Now() == Render(old(Now()), HexByte(digit))
    {
      ghost var before := Now();
      var low, high := digit % 16, digit / 16;
      if high > 9 {
        PutChar(65 + high - 10);
      } else {
        PutChar(48 + high);
      }
      if low > 9 {
        PutChar(65 + low - 10);
      } else {
        PutChar(48 + low);
      }
      RenderOne(before, [], HexDigit(high));
      RenderOne(before, [HexDigit(high)], HexDigit(low));
      assert HexByte(digit) == [HexDigit(high)] + [HexDigit(low)];
      assert [] + [HexDigit(high)] == [HexDigit(high)];
    }

    method WriteHex(v: U32)
      requires Valid()
      modifies this`row, this`column, buffer
      ensures Valid() && Now() == Render(old(Now()), HexText(v))
    {
      ghost var s := Now();
      ghost var b3, b2, b1, b0 := v / 0x100_0000, v / 0x1_0000 % 0x100, v / 0x100 % 0x100, v % 0x100;
      WriteHexDigits(v / 0x100_0000);
      WriteHexDigits(v / 0x1_0000 % 0x100);
      RenderConcat(s, HexByte(b3), HexByte(b2));
      WriteHexDigits(v / 0x100 % 0x100);
      RenderConcat(s, HexByte(b3) + HexByte(b2), HexByte(b1));
      WriteHexDigits(v % 0x100);
      RenderConcat(s, HexByte(b3) + HexByte(b2) + HexByte(b1), HexByte(b0));
    }
  }
}
