/** The register file of the Game Boy CPU (package gb, cpu.go).

    Eight byte registers A, B, C, D, E, F, H, L and a separate byte `Flags`; four 16-bit views
    AF, BC, DE, HL built from register pairs (high byte first); and a four-boolean view of the
    `Flags` byte. The flag bit positions are the constants exactly as the const block declares
    them, which puts them past the width of a byte (see `Declared`). */
module Gb {
  import opened GoBits

  // ---------------------------------------------------------------------------
  // Register identifiers and flag positions (the const block)

  /** The identifiers of the eight byte registers and of the four pairs. */
  datatype Register = a | b | c | d | e | f | h | l | af | bc | de | hl
  {
    /** One of the four 16-bit pairs. */
    predicate IsPair()
    {
      match this
      case af | bc | de | hl => true
      case a | b | c | d | e | f | h | l => false
    }
  }

  // `carry byte = iota + 4` is the thirteenth entry of the const block that starts with the
  // twelve register identifiers, so iota is 12 there and the flag positions are 16 to 19.
  const carry: Byte := 12 + 4
  const halfCarry: Byte := 13 + 4
  const subtract: Byte := 14 + 4
  const zero: Byte := 15 + 4

  /** The four condition flags. */
  datatype Flags = Flags(Zero: bool, Subtract: bool, HalfCarry: bool, Carry: bool)

  const NoFlags := Flags(false, false, false, false)

  /** The bit position each flag is stored at. */
  datatype FlagPositions = FlagPositions(zeroAt: nat, subtractAt: nat, halfCarryAt: nat, carryAt: nat)
  {
    /** Four distinct positions, all inside a byte. */
    predicate FitsByte()
    {
      zeroAt < 8 && subtractAt < 8 && halfCarryAt < 8 && carryAt < 8 &&
      zeroAt != subtractAt && zeroAt != halfCarryAt && zeroAt != carryAt &&
      subtractAt != halfCarryAt && subtractAt != carryAt && halfCarryAt != carryAt
    }
  }

  /** The positions the const block declares. */
  const Declared := FlagPositions(zero, subtract, halfCarry, carry)

  /** The positions of the hardware's flag register: Zero at bit 7 down to Carry at bit 4. */
  const Intended := FlagPositions(7, 6, 5, 4)

  /** The declared positions are 16 to 19, all past the last bit of a byte, so they do not
      describe a layout of the flags inside a byte. */
  lemma DeclaredPositions()
    ensures Declared == FlagPositions(19, 18, 17, 16)
    ensures Declared.zeroAt >= 8 && Declared.subtractAt >= 8
    ensures Declared.halfCarryAt >= 8 && Declared.carryAt >= 8
    ensures !Declared.FitsByte() && Intended.FitsByte()
  {
  }

  // ---------------------------------------------------------------------------
  // Pairs of bytes as 16-bit values

  /** `uint16(i)<<8 | uint16(j)`: i is the high byte, j the low byte. */
  function Combine(i: Byte, j: Byte): (r: Uint16)
    ensures r == i * 0x100 + j
  {
    CombineBits(i, j);
    Or16(Shl16(i, 8), j)
  }

  lemma CombineBits(i: Byte, j: Byte)
    ensures Or16(Shl16(i, 8), j) == i * 0x100 + j
  {
    assert Pow2(8) == 0x100;
    assert Shl16(i, 8) == i * 0x100;
    OrDisjoint(i, j, 8);
  }

  /** `byte(i & 0xFF00 >> 8)`, where `&` and `>>` share a precedence level and group to the
      left: the high byte of i. */
  function HighByte(i: Uint16): (r: Byte)
    ensures r == i / 0x100
  {
    HighByteBits(i);
    ToByte(Shr16(And16(i, 0xFF00), 8))
  }

  /** `byte(i & 0xFF)`: the low byte of i. */
  function LowByte(i: Uint16): (r: Byte)
    ensures r == i % 0x100
  {
    assert Pow2(8) == 0x100;
    AndLowMask(i, 8);
    ToByte(And16(i, 0xFF))
  }

  lemma HighByteBits(i: Uint16)
    ensures Shr16(And16(i, 0xFF00), 8) == i / 0x100
  {
    assert Pow2(8) == 0x100;
    var masked := And(i, 0xFF00);
    AndBound(i, 0xFF00);
    ShiftRightDiv(masked, 8);
    ShiftRightDiv(i, 8);
    forall k | 0 <= k < 8
      ensures Bit(ShiftRight(masked, 8), k) <==> Bit(ShiftRight(i, 8), k)
    {
      BitShiftRight(masked, 8, k);
      BitShiftRight(i, 8, k);
      BitAnd(i, 0xFF00, 8 + k);
      UpperByteMaskBit(8 + k);
    }
    BitsDetermine(ShiftRight(masked, 8), ShiftRight(i, 8), 8);
  }

  /** Bits 8 to 15 of 0xFF00 are set. */
  lemma UpperByteMaskBit(k: nat)
    requires 8 <= k < 16
    ensures Bit(0xFF00, k)
  {
    assert Pow2(8) == 0x100;
    ShiftRightDiv(0xFF00, 8);
    BitShiftRight(0xFF00, 8, k - 8);
    BitLowOnes(8, k - 8);
  }

  /** Splitting a combined pair gives the two bytes back, so Combine is injective. */
  lemma SplitCombine(i: Byte, j: Byte)
    ensures HighByte(Combine(i, j)) == i && LowByte(Combine(i, j)) == j
  {
  }

  /** Combining the two halves of a 16-bit value gives the value back. */
  lemma CombineSplit(v: Uint16)
    ensures Combine(HighByte(v), LowByte(v)) == v
  {
  }

  lemma CombineInjective(i: Byte, j: Byte, i': Byte, j': Byte)
    ensures Combine(i, j) == Combine(i', j') <==> i == i' && j == j'
  {
    SplitCombine(i, j);
    SplitCombine(i', j');
  }

  // ---------------------------------------------------------------------------
  // The flags view

  /** `boolToUint8`: 1 for true, 0 for false. */
  function BoolToUint8(x: bool): (r: Byte)
    ensures r <= 1 && (r != 0 <==> x)
  {
    if x then 1 else 0
  }

  /** The byte SetFlags stores: each flag's 0 or 1 shifted to its position, OR-ed together
      in the order Zero, Subtract, HalfCarry, Carry. */
  function Encode(pos: FlagPositions, fl: Flags): Byte
  {
    Or8(Or8(Or8(Shl8(BoolToUint8(fl.Zero), pos.zeroAt),
                Shl8(BoolToUint8(fl.Subtract), pos.subtractAt)),
            Shl8(BoolToUint8(fl.HalfCarry), pos.halfCarryAt)),
        Shl8(BoolToUint8(fl.Carry), pos.carryAt))
  }

  /** The flags ParseFlags reads: `((x >> position) & 0x1) != 0` for each flag. Each flag is the
      bit of x at its position (a bit at position 8 or more of a byte is never set). */
  function Decode(pos: FlagPositions, x: Byte): (r: Flags)
    ensures r.Zero == Bit(x, pos.zeroAt) && r.Subtract == Bit(x, pos.subtractAt)
    ensures r.HalfCarry == Bit(x, pos.halfCarryAt) && r.Carry == Bit(x, pos.carryAt)
  {
    FlagBit(x, pos.zeroAt);
    FlagBit(x, pos.subtractAt);
    FlagBit(x, pos.halfCarryAt);
    FlagBit(x, pos.carryAt);
    Flags(And8(Shr8(x, pos.zeroAt), 1) != 0,
          And8(Shr8(x, pos.subtractAt), 1) != 0,
          And8(Shr8(x, pos.halfCarryAt), 1) != 0,
          And8(Shr8(x, pos.carryAt), 1) != 0)
  }

  lemma FlagBit(x: Byte, p: nat)
    ensures (And8(Shr8(x, p), 1) != 0) == Bit(x, p)
  {
    AndOne(ShiftRight(x, p));
    BitShiftRight(x, p, 0);
  }

  /** A flag shifted to a position inside the byte sets exactly that bit when it is true. */
  lemma ShiftedFlagBit(x: bool, p: nat, k: nat)
    requires p < 8
    ensures Bit(Shl8(BoolToUint8(x), p), k) <==> x && p == k
  {
    if x {
      Pow2Monotone(p, 7);
      assert Pow2(7) == 0x80;
      ShlWithinWidth(1, p);
      BitPow2(p, k);
    } else {
      BitZero(k);
    }
  }

  /** With four distinct positions inside a byte, bit k of the encoded byte is the flag stored
      at position k, and no other bit is set. */
  lemma EncodeBits(pos: FlagPositions, fl: Flags, k: nat)
    requires pos.FitsByte()
    ensures Bit(Encode(pos, fl), k) <==>
      (k == pos.zeroAt && fl.Zero) || (k == pos.subtractAt && fl.Subtract) ||
      (k == pos.halfCarryAt && fl.HalfCarry) || (k == pos.carryAt && fl.Carry)
  {
    var z := Shl8(BoolToUint8(fl.Zero), pos.zeroAt);
    var s := Shl8(BoolToUint8(fl.Subtract), pos.subtractAt);
    var hc := Shl8(BoolToUint8(fl.HalfCarry), pos.halfCarryAt);
    var cy := Shl8(BoolToUint8(fl.Carry), pos.carryAt);
    BitOr(Or(Or(z, s), hc), cy, k);
    BitOr(Or(z, s), hc, k);
    BitOr(z, s, k);
    ShiftedFlagBit(fl.Zero, pos.zeroAt, k);
    ShiftedFlagBit(fl.Subtract, pos.subtractAt, k);
    ShiftedFlagBit(fl.HalfCarry, pos.halfCarryAt, k);
    ShiftedFlagBit(fl.Carry, pos.carryAt, k);
  }

  /** With four distinct positions inside a byte, decoding an encoded byte gives the flags back. */
  lemma RoundTrip(pos: FlagPositions, fl: Flags)
    requires pos.FitsByte()
    ensures Decode(pos, Encode(pos, fl)) == fl
  {
    EncodeBits(pos, fl, pos.zeroAt);
    EncodeBits(pos, fl, pos.subtractAt);
    EncodeBits(pos, fl, pos.halfCarryAt);
    EncodeBits(pos, fl, pos.carryAt);
  }

  /** At the declared positions every shifted term is 0, so the encoded byte is 0. */
  lemma DeclaredEncodeIsZero(fl: Flags)
    ensures Encode(Declared, fl) == 0
  {
    ShlPastWidth(BoolToUint8(fl.Zero), zero);
    ShlPastWidth(BoolToUint8(fl.Subtract), subtract);
    ShlPastWidth(BoolToUint8(fl.HalfCarry), halfCarry);
    ShlPastWidth(BoolToUint8(fl.Carry), carry);
  }

  /** At the declared positions every flag reads as false, whatever the byte. */
  lemma DeclaredDecodeIsEmpty(x: Byte)
    ensures Decode(Declared, x) == NoFlags
  {
    ShrPastWidth(x, zero);
    ShrPastWidth(x, subtract);
    ShrPastWidth(x, halfCarry);
    ShrPastWidth(x, carry);
  }

  /** At the declared positions, storing flags and reading them back returns them only when
      all four are false: setting Zero alone is already lost. */
  lemma DeclaredRoundTripFails(fl: Flags)
    ensures Decode(Declared, Encode(Declared, fl)) == fl <==> fl == NoFlags
    ensures Decode(Declared, Encode(Declared, Flags(true, false, false, false))) != Flags(true, false, false, false)
  {
    DeclaredEncodeIsZero(fl);
    DeclaredDecodeIsEmpty(0);
    DeclaredEncodeIsZero(Flags(true, false, false, false));
  }

  /** At the hardware positions the round trip holds for every flag combination. */
  lemma IntendedRoundTrip(fl: Flags)
    ensures Decode(Intended, Encode(Intended, fl)) == fl
  {
    RoundTrip(Intended, fl);
  }

  /** At the hardware positions, reading a byte as flags and storing them again keeps bits 4
      to 7 and clears bits 0 to 3: the result is `x & 0xF0`. */
  lemma IntendedReencode(x: Byte)
    ensures Encode(Intended, Decode(Intended, x)) == And8(x, 0xF0)
  {
    var y := Encode(Intended, Decode(Intended, x));
    var m := And(x, 0xF0);
    AndBound(x, 0xF0);
    assert Pow2(8) == 0x100;
    forall k | 0 <= k < 8
      ensures Bit(y, k) <==> Bit(m, k)
    {
      EncodeBits(Intended, Decode(Intended, x), k);
      BitAnd(x, 0xF0, k);
      UpperNibbleBit(k);
    }
    BitsDetermine(y, m, 8);
  }

  /** Bits 4 to 7 of 0xF0 are set and bits 0 to 3 are clear. */
  lemma UpperNibbleBit(k: nat)
    requires k < 8
    ensures Bit(0xF0, k) <==> 4 <= k
  {
    if k < 4 {
      assert !Bit(0xF0, 0) && !Bit(0xF0, 1) && !Bit(0xF0, 2) && !Bit(0xF0, 3);
    } else {
      assert Pow2(4) == 0x10;
      ShiftRightDiv(0xF0, 4);
      BitShiftRight(0xF0, 4, k - 4);
      BitLowOnes(4, k - 4);
    }
  }

  /** Zero and HalfCarry at the hardware positions make 0xA0, and 0xA0 reads back as them. */
  lemma IntendedExample()
    ensures Encode(Intended, Flags(true, false, true, false)) == 0xA0
    ensures Decode(Intended, 0xA0) == Flags(true, false, true, false)
  {
    var fl := Flags(true, false, true, false);
    assert Pow2(7) == 0x80 && Pow2(5) == 0x20;
    assert Shl8(1, 7) == 0x80 && Shl8(1, 5) == 0x20 && Shl8(0, 6) == 0 && Shl8(0, 4) == 0;
    OrDisjoint(1, 0x20, 7);
    assert Or(0x80, 0x20) == 0xA0;
    assert Encode(Intended, fl) == Or(Or(Or(0x80, 0), 0x20), 0);
    IntendedRoundTrip(fl);
  }

  // ---------------------------------------------------------------------------
  // The register file

  class Registers {
    var A: Byte
    var B: Byte
    var C: Byte
    var D: Byte
    var E: Byte
    var F: Byte
    var H: Byte
    var L: Byte
    var Flags: Byte

    /** The zero value of the struct. */
    constructor ()
      ensures A == 0 && B == 0 && C == 0 && D == 0 && E == 0 && F == 0 && H == 0 && L == 0
      ensures Flags == 0
    {
      A, B, C, D, E, F, H, L := 0, 0, 0, 0, 0, 0, 0, 0;
      Flags := 0;
    }

    /** Stores the high byte of i in the first register of the pair and the low byte in the
        second; any identifier other than the four pairs changes nothing. */
    method Set(reg: Register, i: Uint16)
      modifies this
      ensures reg == af ==> A == i / 0x100 && F == i % 0x100
      ensures reg == bc ==> B == i / 0x100 && C == i % 0x100
      ensures reg == de ==> D == i / 0x100 && E == i % 0x100
      ensures reg == hl ==> H == i / 0x100 && L == i % 0x100
      ensures reg != af ==> A == old(A) && F == old(F)
      ensures reg != bc ==> B == old(B) && C == old(C)
      ensures reg != de ==> D == old(D) && E == old(E)
      ensures reg != hl ==> H == old(H) && L == old(L)
      ensures Flags == old(Flags)
      ensures !reg.IsPair() ==> unchanged(this)
    {
      var v1 := HighByte(i);
      var v2 := LowByte(i);
      match reg
      case af =>
        A := v1;
        F := v2;
      case bc =>
        B := v1;
        C := v2;
      case de =>
        D := v1;
        E := v2;
      case hl =>
        H := v1;
        L := v2;
      case a | b | c | d | e | f | h | l =>
    }

    /** A as the high byte and F as the low byte. */
    function AF(): (r: Uint16)
      reads this
      ensures r == A * 0x100 + F
      ensures HighByte(r) == A && LowByte(r) == F
    {
      SplitCombine(A, F);
      Combine(A, F)
    }

    /** Reading AF afterwards returns i; only A and F change, and storing the current AF
        changes nothing. */
    method SetAF(i: Uint16)
      modifies this
      ensures AF() == i
      ensures B == old(B) && C == old(C) && D == old(D) && E == old(E)
      ensures H == old(H) && L == old(L) && Flags == old(Flags)
      ensures i == old(AF()) ==> A == old(A) && F == old(F)
    {
      ghost var before := AF();
      Set(af, i);
      CombineSplit(i);
      if i == before {
        assert A == old(A) && F == old(F);
      }
    }

    /** B as the high byte and C as the low byte. */
    function BC(): (r: Uint16)
      reads this
      ensures r == B * 0x100 + C
      ensures HighByte(r) == B && LowByte(r) == C
    {
      SplitCombine(B, C);
      Combine(B, C)
    }

    /** Reading BC afterwards returns i; only B and C change, and storing the current BC
        changes nothing. */
    method SetBC(i: Uint16)
      modifies this
      ensures BC() == i
      ensures A == old(A) && F == old(F) && D == old(D) && E == old(E)
      ensures H == old(H) && L == old(L) && Flags == old(Flags)
      ensures i == old(BC()) ==> B == old(B) && C == old(C)
    {
      ghost var before := BC();
      Set(bc, i);
      CombineSplit(i);
      if i == before {
        assert B == old(B) && C == old(C);
      }
    }

    /** D as the high byte and E as the low byte. */
    function DE(): (r: Uint16)
      reads this
      ensures r == D * 0x100 + E
      ensures HighByte(r) == D && LowByte(r) == E
    {
      SplitCombine(D, E);
      Combine(D, E)
    }

    /** Reading DE afterwards returns i; only D and E change, and storing the current DE
        changes nothing. */
    method SetDE(i: Uint16)
      modifies this
      ensures DE() == i
      ensures A == old(A) && F == old(F) && B == old(B) && C == old(C)
      ensures H == old(H) && L == old(L) && Flags == old(Flags)
      ensures i == old(DE()) ==> D == old(D) && E == old(E)
    {
      ghost var before := DE();
      Set(de, i);
      CombineSplit(i);
      if i == before {
        assert D == old(D) && E == old(E);
      }
    }

    /** H as the high byte and L as the low byte. */
    function HL(): (r: Uint16)
      reads this
      ensures r == H * 0x100 + L
      ensures HighByte(r) == H && LowByte(r) == L
    {
      SplitCombine(H, L);
      Combine(H, L)
    }

    /** Reading HL afterwards returns i; only H and L change, and storing the current HL
        changes nothing. */
    method SetHL(i: Uint16)
      modifies this
      ensures HL() == i
      ensures A == old(A) && F == old(F) && B == old(B) && C == old(C)
      ensures D == old(D) && E == old(E) && Flags == old(Flags)
      ensures i == old(HL()) ==> H == old(H) && L == old(L)
    {
      ghost var before := HL();
      Set(hl, i);
      CombineSplit(i);
      if i == before {
        assert H == old(H) && L == old(L);
      }
    }

    /** The flags view of the `Flags` byte (not of F). With the declared positions every
        flag reads as false. */
    function ParseFlags(): (r: Flags)
      reads this`Flags
      ensures r == NoFlags
    {
      DeclaredDecodeIsEmpty(Flags);
      Decode(Declared, Flags)
    }

    /** Stores the encoded flags in the `Flags` byte and nothing else; with the declared
        positions the stored byte is 0 whatever the flags. */
    method SetFlags(fl: Flags)
      modifies this`Flags
      ensures Flags == Encode(Declared, fl) == 0
      ensures AF() == old(AF()) && BC() == old(BC()) && DE() == old(DE()) && HL() == old(HL())
    {
      DeclaredEncodeIsZero(fl);
      Flags := Encode(Declared, fl);
    }
  }
}
