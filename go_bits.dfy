/** Go's fixed-width unsigned integers and the bitwise operators cpu.go applies to them.

    `byte` and `uint16` are subset types of `nat`. The operators `&` and `|` are defined
    bit by bit on naturals. `<<` and `>>` follow the Go specification for unsigned operands:
    a left shift multiplies by 2^s and discards every bit that leaves the width of the type,
    a right shift halves s times (dropping the bit shifted out each time), so a shift by the
    width of the type or more yields 0. The lemmas connect these definitions to ordinary
    arithmetic and to single bits. */
module GoBits {

  type Byte = x: nat | x < 0x100
  type Uint16 = x: nat | x < 0x1_0000

  /** 2 to the power n. */
  function Pow2(n: nat): (r: nat)
    ensures r >= 1
  {
    if n == 0 then 1 else 2 * Pow2(n - 1)
  }

  /** Bitwise AND of two naturals (Go's `&`). */
  function And(x: nat, y: nat): nat
  {
    if x == 0 || y == 0 then 0
    else 2 * And(x / 2, y / 2) + (if x % 2 == 1 && y % 2 == 1 then 1 else 0)
  }

  /** Bitwise OR of two naturals (Go's `|`). */
  function Or(x: nat, y: nat): nat
    decreases x + y
  {
    if x == 0 then y
    else if y == 0 then x
    else 2 * Or(x / 2, y / 2) + (if x % 2 == 1 || y % 2 == 1 then 1 else 0)
  }

  /** x shifted right by s places: s halvings, each dropping the lowest bit. */
  function ShiftRight(x: nat, s: nat): nat
  {
    if s == 0 then x else ShiftRight(x / 2, s - 1)
  }

  /** Bit k of x is set. */
  predicate Bit(x: nat, k: nat)
  {
    if k == 0 then x % 2 == 1 else Bit(x / 2, k - 1)
  }

  // ---------------------------------------------------------------------------
  // Arithmetic facts

  lemma {:induction false} Pow2Add(a: nat, b: nat)
    ensures Pow2(a + b) == Pow2(a) * Pow2(b)
  {
    if a > 0 {
      Pow2Add(a - 1, b);
      assert Pow2(a + b) == 2 * Pow2(a - 1 + b);
    }
  }

  lemma {:induction false} Pow2Monotone(a: nat, b: nat)
    requires a <= b
    ensures Pow2(a) <= Pow2(b)
  {
    if a < b {
      Pow2Monotone(a, b - 1);
    }
  }

  /** Halving x and then dividing by n, or taking the remainder by n, is the same as working
      modulo 2n. */
  lemma ModDouble(x: nat, n: nat)
    requires n > 0
    ensures x % (2 * n) == 2 * ((x / 2) % n) + x % 2
    ensures x / (2 * n) == (x / 2) / n
  {
    var q, r := x / 2, x % 2;
    var t, u := q / n, q % n;
    assert q == n * t + u;
    assert x == 2 * n * t + (2 * u + r);
    DivModUnique(x, 2 * n, t, 2 * u + r);
  }

  lemma DivModUnique(x: nat, d: nat, t: nat, s: nat)
    requires d > 0 && s < d && x == d * t + s
    ensures x / d == t && x % d == s
  {
    var t', s' := x / d, x % d;
    assert d * t + s == d * t' + s';
    if t < t' {
      MulGap(d, t, t');
    } else if t' < t {
      MulGap(d, t', t);
    }
  }

  /** Multiples of d that differ are at least d apart. */
  lemma {:induction false} MulGap(d: nat, t: nat, t': nat)
    requires t < t'
    ensures d * t' >= d * t + d
    decreases t' - t
  {
    assert d * t' == d * (t' - 1) + d;
    if t + 1 < t' {
      MulGap(d, t, t' - 1);
    }
  }

  // ---------------------------------------------------------------------------
  // AND

  lemma {:induction false} AndBound(x: nat, y: nat)
    ensures And(x, y) <= x && And(x, y) <= y
  {
    if x != 0 && y != 0 {
      AndBound(x / 2, y / 2);
    }
  }

  /** Masking with 2^k - 1 keeps the k low bits: `x & 0xFF` is `x % 256`. */
  lemma {:induction false} AndLowMask(x: nat, k: nat)
    ensures And(x, Pow2(k) - 1) == x % Pow2(k)
  {
    if k > 0 {
      var m := Pow2(k - 1) - 1;
      AndLowMask(x / 2, k - 1);
      AndLowMaskStep(x, m);
      assert Pow2(k) == 2 * (m + 1);
    }
  }

  /** One more low bit in the mask: if `(x / 2) & m` is `(x / 2) % (m + 1)`, then
      `x & (2m + 1)` is `x % (2m + 2)`. */
  lemma AndLowMaskStep(x: nat, m: nat)
    requires And(x / 2, m) == (x / 2) % (m + 1)
    ensures And(x, 2 * m + 1) == x % (2 * (m + 1))
  {
    AndOddMask(x, m);
    ModDouble(x, m + 1);
  }

  /** An odd mask 2m + 1 keeps bit 0 of x. */
  lemma AndOddMask(x: nat, m: nat)
    ensures And(x, 2 * m + 1) == 2 * And(x / 2, m) + x % 2
  {
  }

  /** `x & 1` is x % 2, which is bit 0 of x. */
  lemma AndOne(x: nat)
    ensures And(x, 1) == x % 2
    ensures (And(x, 1) != 0) == Bit(x, 0)
  {
    AndOddMask(x, 0);
  }

  /** Bit k of `x & y` is set exactly when it is set in both. */
  lemma {:induction false} BitAnd(x: nat, y: nat, k: nat)
    ensures Bit(And(x, y), k) <==> Bit(x, k) && Bit(y, k)
  {
    if x == 0 || y == 0 {
      BitZero(k);
    } else if k > 0 {
      BitAnd(x / 2, y / 2, k - 1);
    }
  }

  // ---------------------------------------------------------------------------
  // OR

  /** `x | y` stays within any width that both operands fit in. */
  lemma {:induction false} OrBound(x: nat, y: nat, n: nat)
    requires x < Pow2(n) && y < Pow2(n)
    ensures Or(x, y) < Pow2(n)
  {
    if x != 0 && y != 0 {
      OrBound(x / 2, y / 2, n - 1);
    }
  }

  /** OR-ing a value shifted left by k with one below 2^k is addition: the two operands have
      no bit in common. */
  lemma {:induction false} OrDisjoint(x: nat, y: nat, k: nat)
    requires y < Pow2(k)
    ensures Or(x * Pow2(k), y) == x * Pow2(k) + y
  {
    if k > 0 && x != 0 && y != 0 {
      var p := Pow2(k - 1);
      var hi := x * p;
      assert x * Pow2(k) == 2 * hi;
      OrDisjoint(x, y / 2, k - 1);
      assert Or(hi, y / 2) == hi + y / 2;
    }
  }

  /** Bit k of `x | y` is set exactly when it is set in either. */
  lemma {:induction false} BitOr(x: nat, y: nat, k: nat)
    ensures Bit(Or(x, y), k) <==> Bit(x, k) || Bit(y, k)
    decreases x + y
  {
    if x == 0 || y == 0 {
      BitZero(k);
    } else if k > 0 {
      BitOr(x / 2, y / 2, k - 1);
    }
  }

  // ---------------------------------------------------------------------------
  // Single bits

  lemma {:induction false} BitZero(k: nat)
    ensures !Bit(0, k)
  {
    if k > 0 {
      BitZero(k - 1);
    }
  }

  /** 2^p has exactly bit p set. */
  lemma {:induction false} BitPow2(p: nat, k: nat)
    ensures Bit(Pow2(p), k) <==> p == k
  {
    if p == 0 {
      if k > 0 {
        BitZero(k - 1);
      }
    } else if k > 0 {
      BitPow2(p - 1, k - 1);
    }
  }

  /** 2^n - 1 has exactly the bits below n set. */
  lemma {:induction false} BitLowOnes(n: nat, k: nat)
    ensures Bit(Pow2(n) - 1, k) <==> k < n
  {
    if n == 0 {
      BitZero(k);
    } else if k > 0 {
      BitLowOnes(n - 1, k - 1);
    }
  }

  /** Two values below 2^n that agree on every bit below n are equal. */
  lemma {:induction false} BitsDetermine(x: nat, y: nat, n: nat)
    requires x < Pow2(n) && y < Pow2(n)
    requires forall k :: 0 <= k < n ==> (Bit(x, k) <==> Bit(y, k))
    ensures x == y
  {
    if n > 0 {
      assert Bit(x, 0) <==> Bit(y, 0);
      forall k | 0 <= k < n - 1
        ensures Bit(x / 2, k) <==> Bit(y / 2, k)
      {
        assert Bit(x, k + 1) <==> Bit(y, k + 1);
      }
      BitsDetermine(x / 2, y / 2, n - 1);
    }
  }

  // ---------------------------------------------------------------------------
  // Right shifts

  lemma {:induction false} ShiftRightBound(x: nat, s: nat)
    ensures ShiftRight(x, s) <= x
  {
    if s > 0 {
      ShiftRightBound(x / 2, s - 1);
    }
  }

  /** Shifting right by s places divides by 2^s. */
  lemma {:induction false} ShiftRightDiv(x: nat, s: nat)
    ensures ShiftRight(x, s) == x / Pow2(s)
  {
    if s > 0 {
      ShiftRightDiv(x / 2, s - 1);
      ModDouble(x, Pow2(s - 1));
    }
  }

  /** Bit k of `x >> s` is bit s + k of x: a right shift moves every bit down by s. */
  lemma {:induction false} BitShiftRight(x: nat, s: nat, k: nat)
    ensures Bit(ShiftRight(x, s), k) <==> Bit(x, s + k)
  {
    if s > 0 {
      BitShiftRight(x / 2, s - 1, k);
    }
  }

  /** A value below 2^n shifted right by n or more places is 0. */
  lemma {:induction false} ShiftRightPastWidth(x: nat, n: nat, s: nat)
    requires x < Pow2(n) && n <= s
    ensures ShiftRight(x, s) == 0
  {
    if s > 0 {
      ShiftRightPastWidth(x / 2, if n == 0 then 0 else n - 1, s - 1);
    }
  }

  // ---------------------------------------------------------------------------
  // The operators on Go's byte and uint16

  /** Go `x & y` on bytes: the uint16 operator, whose result is below both operands. */
  function And8(x: Byte, y: Byte): (r: Byte)
    ensures r <= x && r <= y
  {
    And16(x, y)
  }

  /** Go `x | y` on bytes. */
  function Or8(x: Byte, y: Byte): Byte
  {
    assert Pow2(8) == 0x100;
    OrBound(x, y, 8);
    Or(x, y)
  }

  /** Go `x & y` on uint16. */
  function And16(x: Uint16, y: Uint16): (r: Uint16)
    ensures r <= x && r <= y
  {
    AndBound(x, y);
    And(x, y)
  }

  /** Go `x | y` on uint16. */
  function Or16(x: Uint16, y: Uint16): Uint16
  {
    Pow2Add(8, 8);
    assert Pow2(8) == 0x100;
    OrBound(x, y, 16);
    Or(x, y)
  }

  /** Go `x << s` on a byte: the bits shifted past bit 7 are lost. */
  function Shl8(x: Byte, s: nat): Byte
  {
    (x * Pow2(s)) % 0x100
  }

  /** Go `x >> s` on a byte: the uint16 operator, whose result is at most the operand. */
  function Shr8(x: Byte, s: nat): (r: Byte)
    ensures r <= x
  {
    Shr16(x, s)
  }

  /** Go `x << s` on a uint16: the bits shifted past bit 15 are lost. */
  function Shl16(x: Uint16, s: nat): Uint16
  {
    (x * Pow2(s)) % 0x1_0000
  }

  /** Go `x >> s` on a uint16. */
  function Shr16(x: Uint16, s: nat): (r: Uint16)
    ensures r <= x
  {
    ShiftRightBound(x, s);
    ShiftRight(x, s)
  }

  /** Go conversion `byte(x)` of a uint16: keeps the low 8 bits. */
  function ToByte(x: Uint16): Byte
  {
    x % 0x100
  }

  /** Shifting a byte left by 8 or more places yields 0, as in Go. */
  lemma ShlPastWidth(x: Byte, s: nat)
    requires s >= 8
    ensures Shl8(x, s) == 0
  {
    Pow2Add(8, s - 8);
    assert Pow2(8) == 0x100;
    var t := x * Pow2(s - 8);
    assert x * Pow2(s) == 0x100 * t;
  }

  /** Shifting a byte right by 8 or more places yields 0, as in Go. */
  lemma ShrPastWidth(x: Byte, s: nat)
    requires s >= 8
    ensures Shr8(x, s) == 0
  {
    assert Pow2(8) == 0x100;
    ShiftRightPastWidth(x, 8, s);
  }

  /** Within the width, a byte shifted left is multiplied by 2^s. */
  lemma ShlWithinWidth(x: Byte, s: nat)
    requires x * Pow2(s) < 0x100
    ensures Shl8(x, s) == x * Pow2(s)
  {
  }
}
