/** Machine integers, and the C operator `|` on them.

    Addresses and memory words are integers with explicit bounds, so that page numbers and
    offsets are plain quotients and remainders; every wrap-around is written out.  `Or` is the
    bitwise operator, defined bit by bit. */
module Bits {
  type U8 = x: int | 0 <= x < 0x100
  type U16 = x: int | 0 <= x < 0x1_0000
  type U32 = x: int | 0 <= x < 0x1_0000_0000

  /** The sum of two addresses, truncated to 32 bits. */
  function Add32(x: int, y: int): U32 {
    (x + y) % 0x1_0000_0000
  }

  /** Bitwise or. */
  function Or(x: nat, y: nat): nat
    decreases x + y
  {
    if x == 0 && y == 0 then 0
    else 2 * Or(x / 2, y / 2) + (if x % 2 == 1 || y % 2 == 1 then 1 else 0)
  }

  /** The C operator `<<` on numbers that stay in range. */
  function Shl(x: nat, k: nat): nat {
    if k == 0 then x else 2 * Shl(x, k - 1)
  }

  lemma {:induction false} OrZero(x: nat)
    ensures Or(x, 0) == x && Or(0, x) == x
    decreases x
  {
    if x > 0 { OrZero(x / 2); }
  }

  lemma {:induction false} OrBound(x: nat, y: nat, k: nat)
    requires x < Shl(1, k) && y < Shl(1, k)
    ensures Or(x, y) < Shl(1, k)
    decreases k
  {
    if k > 0 { OrBound(x / 2, y / 2, k - 1); }
  }

  /** `|` works on the bits from position k up and on those below it separately. */
  lemma {:induction false} OrSplit(k: nat, h: nat, l: nat, g: nat, f: nat)
    requires l < Shl(1, k) && f < Shl(1, k)
    ensures Or(Shl(h, k) + l, Shl(g, k) + f) == Shl(Or(h, g), k) + Or(l, f)
    decreases k
  {
    if k == 0 {
      OrZero(0);
    } else {
      OrSplit(k - 1, h, l / 2, g, f / 2);
    }
  }

  /** Ones absorb whatever they are or-ed with. */
  lemma {:induction false} OrOnes(k: nat, x: nat)
    requires x < Shl(1, k)
    ensures Or(Shl(1, k) - 1, x) == Shl(1, k) - 1
    decreases k
  {
    if k == 0 {
      OrZero(0);
    } else {
      var p := Shl(1, k - 1);
      OrOnes(k - 1, x / 2);
      assert (2 * p - 1) / 2 == p - 1 && (2 * p - 1) % 2 == 1;
    }
  }

  /** Bit k of x. */
  predicate BitAt(x: nat, k: nat) {
    if k == 0 then x % 2 == 1 else BitAt(x / 2, k - 1)
  }

  predicate HasBit(x: nat, k: nat) { BitAt(x, k) }

  lemma {:induction false} NoBits(k: nat)
    ensures !BitAt(0, k)
    decreases k
  {
    if k > 0 { NoBits(k - 1); }
  }

  lemma {:induction false} OrHasBit(x: nat, y: nat, k: nat)
    ensures BitAt(Or(x, y), k) <==> BitAt(x, k) || BitAt(y, k)
    decreases k
  {
    if k > 0 {
      OrHasBit(x / 2, y / 2, k - 1);
      assert Or(x, y) / 2 == Or(x / 2, y / 2) by { OrZero(0); }
    }
  }

  lemma {:induction false} SameBits(x: nat, y: nat)
    requires forall k: nat :: HasBit(x, k) <==> HasBit(y, k)
    ensures x == y
    decreases x + y
  {
    if x + y > 0 {
      forall k: nat
        ensures HasBit(x / 2, k) <==> HasBit(y / 2, k)
      {
        assert HasBit(x, k + 1) <==> HasBit(y, k + 1);
      }
      SameBits(x / 2, y / 2);
      assert HasBit(x, 0) <==> HasBit(y, 0);
    }
  }

  /** Or-ing adds nothing exactly when every bit is there already. */
  lemma OrAddsNothingIff(x: nat, y: nat)
    ensures Or(x, y) == x <==> forall k: nat | HasBit(y, k) :: HasBit(x, k)
  {
    forall k: nat
      ensures HasBit(Or(x, y), k) <==> HasBit(x, k) || HasBit(y, k)
    {
      OrHasBit(x, y, k);
    }
    if forall k: nat | HasBit(y, k) :: HasBit(x, k) {
      SameBits(Or(x, y), x);
    }
  }

  lemma BitAtHigh(x: nat, k: nat)
    ensures BitAt(x, k + 4) == BitAt(x / 16, k)
  {
    assert BitAt(x, k + 4) == BitAt(x / 2, k + 3) == BitAt(x / 2 / 2, k + 2);
    assert BitAt(x / 2 / 2, k + 2) == BitAt(x / 2 / 2 / 2, k + 1) == BitAt(x / 2 / 2 / 2 / 2, k);
    assert x / 2 / 2 / 2 / 2 == x / 16;
  }

  /** The bits from 12 up are those of the page number. */
  lemma BitAtPage(x: nat, k: nat)
    ensures HasBit(x, k + 12) == HasBit(x / 0x1000, k)
  {
    BitAtHigh(x, k + 8);
    BitAtHigh(x / 16, k + 4);
    BitAtHigh(x / 16 / 16, k);
    assert x / 16 / 16 / 16 == x / 0x1000;
  }

  lemma OrOne(f: nat)
    ensures Or(f, 1) == f / 2 * 2 + 1
  {
    OrZero(f / 2);
  }

  lemma Shl10(x: nat)
    ensures Shl(x, 10) == 0x400 * x
  {
    assert Shl(x, 1) == 2 * x && Shl(x, 2) == 4 * x && Shl(x, 3) == 8 * x;
    assert Shl(x, 4) == 16 * x && Shl(x, 5) == 32 * x && Shl(x, 6) == 64 * x;
    assert Shl(x, 7) == 128 * x && Shl(x, 8) == 256 * x && Shl(x, 9) == 512 * x;
  }

  lemma Shl12(x: nat)
    ensures Shl(x, 12) == 0x1000 * x
  {
    Shl10(x);
    assert Shl(x, 11) == 2 * Shl(x, 10);
  }

  /** OrSplit at bit 12, the size of a page offset. */
  lemma OrPage(h: nat, l: nat, g: nat, f: nat)
    requires l < 0x1000 && f < 0x1000
    ensures Or(h * 0x1000 + l, g * 0x1000 + f) == Or(h, g) * 0x1000 + Or(l, f)
    ensures Or(l, f) < 0x1000
  {
    Shl12(h);
    Shl12(g);
    Shl12(Or(h, g));
    Shl12(1);
    OrSplit(12, h, l, g, f);
    OrBound(l, f, 12);
  }

  lemma OrPageHigh(p: nat, h: nat, f: nat)
    requires f < 0x1000
    ensures Or(p * 0x1000, h * 0x1000 + f) == Or(p, h) * 0x1000 + f
  {
    OrPage(p, 0, h, f);
    OrZero(f);
  }

  lemma OrPageLow(h: nat, f: nat, g: nat)
    requires f < 0x1000 && g < 0x1000
    ensures Or(h * 0x1000 + f, g) == h * 0x1000 + Or(f, g)
    ensures Or(f, g) < 0x1000
  {
    OrPage(h, f, 0, g);
    OrZero(h);
  }

  lemma Shl4(x: nat)
    ensures Shl(x, 4) == 16 * x
  {
    assert Shl(x, 1) == 2 * x && Shl(x, 2) == 4 * x && Shl(x, 3) == 8 * x;
  }

  lemma OrNibbles(h: nat, l: nat)
    requires l < 16
    ensures Or(l, h * 16) == l + h * 16
  {
    Shl4(0);
    Shl4(1);
    Shl4(h);
    OrSplit(4, 0, l, h, 0);
    OrZero(h);
    OrZero(l);
  }

  lemma Shl8(x: nat)
    ensures Shl(x, 8) == 0x100 * x
  {
    Shl4(x);
    assert Shl(x, 5) == 2 * Shl(x, 4) && Shl(x, 6) == 2 * Shl(x, 5) && Shl(x, 7) == 2 * Shl(x, 6);
  }

  lemma OrHigh(k: nat, h: nat, l: nat, g: nat)
    requires l < Shl(1, k)
    ensures Or(Shl(h, k) + l, Shl(g, k)) == Shl(Or(h, g), k) + l
  {
    OrSplit(k, h, l, g, 0);
    OrZero(l);
  }

  /** `|` with a number shifted up a byte. */
  lemma OrBytes(h: nat, l: U8, g: nat)
    ensures Or(h * 0x100 + l, g * 0x100) == Or(h, g) * 0x100 + l
  {
    Shl8(1);
    Shl8(h);
    Shl8(g);
    Shl8(Or(h, g));
    OrHigh(8, h, l, g);
  }

  lemma Shl20(x: nat)
    ensures Shl(x, 20) == 0x10_0000 * x
  {
    Shl12(x);
    assert Shl(x, 13) == 2 * Shl(x, 12) && Shl(x, 14) == 2 * Shl(x, 13) && Shl(x, 15) == 2 * Shl(x, 14);
    assert Shl(x, 16) == 2 * Shl(x, 15) && Shl(x, 17) == 2 * Shl(x, 16) && Shl(x, 18) == 2 * Shl(x, 17);
    assert Shl(x, 19) == 2 * Shl(x, 18);
  }

  lemma Split(h: nat, f: nat)
    requires f < 0x1000
    ensures (h * 0x1000 + f) / 0x1000 == h && (h * 0x1000 + f) % 0x1000 == f
  {
  }
}
