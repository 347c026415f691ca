# Game Boy CPU register file (package gb, cpu.go)

A Dafny model of the register file of the Game Boy CPU in go-boy-advance. The model has three parts:

- The `Registers` struct. It holds eight byte registers, A B C D E F H L, and a separate byte `Flags`.
- The four 16-bit pair views AF, BC, DE and HL. Their getters combine two registers, high byte first. Their setters split a `uint16` into those two registers.
- The four-boolean `Flags` view. `ParseFlags` reads it from the `Flags` byte and `SetFlags` writes it there.

Two files make up the model:

- `go_bits.dfy` (module `GoBits`) gives the meaning of Go's `byte` and `uint16` and of the operators the file uses:
  - `&` and `|` are defined bit by bit on naturals.
  - `<<` and `>>` are defined for unsigned operands. A left shift drops the bits that leave the type. A right shift divides by a power of two. So a shift by the width of the type or more gives 0.
  - The conversion `byte(x)` keeps the low 8 bits.

  The lemmas in this module connect these operators to ordinary arithmetic and to single bits.
- `cpu.dfy` (module `Gb`) models everything else:
  - the const block: the register identifiers, and the flag positions exactly as declared;
  - `combine` and the byte extraction in `set`;
  - the `Registers` class:
    - `set` and the `SetXX` setters are methods with `modifies` clauses. Their postconditions state every field afterwards.
    - The getters and `ParseFlags` are functions that read the object.
  - the flag encoding and decoding.

Encoding and decoding take the four bit positions as a parameter (`FlagPositions`).
- The class uses `Declared`, the positions the const block really produces.
- The same definitions at the hardware positions (`Intended`) carry the round-trip proofs.

What the code does, which the model follows:

- **Positions are 16..19, not 4..7.** `carry byte = iota + 4` is the thirteenth entry of the const block, so the flag positions are 16 to 19. In Go, shifting a byte by 8 or more gives 0. As written, `SetFlags` therefore always stores 0 and `ParseFlags` always returns four false flags.
- **A non-pair identifier in `set` changes nothing.** `set` has no default branch. There is no error path.
- **The flags view uses its own byte.** `ParseFlags` and `SetFlags` use the `Flags` byte, which is independent of `F`. `AF` reads `F`, so `SetFlags` never changes `AF`.

The doc comments on `BC`, `DE` and `HL` say "A and F". Their bodies combine B/C, D/E and H/L, and the model follows the bodies.

## Model

| member | source | states |
|---|---|---|
| `GoBits.ShlPastWidth` | cpu.go:133 | a byte shifted left by 8 or more places is 0, as Go defines `<<` on an unsigned operand |
| `GoBits.ShrPastWidth` | cpu.go:116-119 | a byte shifted right by 8 or more places is 0, as Go defines `>>` on an unsigned operand |
| `GoBits.OrDisjoint` | cpu.go:50 | OR-ing a value shifted left by k with a value below 2^k is their sum (no common bits) |
| `GoBits.AndLowMask` | cpu.go:56 | masking with 2^k - 1 (`& 0xFF` for k = 8) keeps the value modulo 2^k |
| `Gb.Combine` | cpu.go:49-51 | `uint16(i)<<8` OR-ed with `uint16(j)` equals i * 256 + j, so it is below 65536 with i as the high byte |
| `Gb.CombineInjective` | cpu.go:49-51 | two byte pairs combine to the same value exactly when the pairs are equal |
| `Gb.HighByte` | cpu.go:55 | `byte(i & 0xFF00 >> 8)`, grouped as `(i & 0xFF00) >> 8`, is i / 256: the high byte |
| `Gb.LowByte` | cpu.go:56 | `byte(i & 0xFF)` is i % 256: the low byte |
| `Gb.SplitCombine` | cpu.go:49-56 | splitting a combined pair returns the two bytes it was built from |
| `Gb.CombineSplit` | cpu.go:49-56 | combining the high and low byte of a 16-bit value returns the value |
| `Gb.Registers.constructor` | cpu.go:28-38 | the zero value of the struct: every register and the Flags byte are 0 |
| `Gb.Registers.Set` | cpu.go:54-71 | for a pair, stores i / 256 in its first register and i % 256 in its second; every other register and Flags keep their values; for a single-register identifier nothing changes |
| `Gb.Registers.AF` | cpu.go:74-76 | AF is A * 256 + F; its high byte is A and its low byte is F |
| `Gb.Registers.SetAF` | cpu.go:79-81 | AF() afterwards is i; B C D E H L and Flags are unchanged; storing the current AF changes nothing |
| `Gb.Registers.BC` | cpu.go:84-86 | BC is B * 256 + C; its high byte is B and its low byte is C |
| `Gb.Registers.SetBC` | cpu.go:89-91 | BC() afterwards is i; A F D E H L and Flags are unchanged; storing the current BC changes nothing |
| `Gb.Registers.DE` | cpu.go:94-96 | DE is D * 256 + E; its high byte is D and its low byte is E |
| `Gb.Registers.SetDE` | cpu.go:99-101 | DE() afterwards is i; A F B C H L and Flags are unchanged; storing the current DE changes nothing |
| `Gb.Registers.HL` | cpu.go:104-106 | HL is H * 256 + L; its high byte is H and its low byte is L |
| `Gb.Registers.SetHL` | cpu.go:109-111 | HL() afterwards is i; A F B C D E and Flags are unchanged; storing the current HL changes nothing |
| `Gb.DeclaredPositions` | cpu.go:21-24 | `carry byte = iota + 4` follows the twelve register identifiers, so carry, halfCarry, subtract and zero are 16, 17, 18 and 19; all four lie past bit 7, so `Declared` is not a layout inside a byte, while the hardware layout `Intended` is |
| `Gb.BoolToUint8` | cpu.go:124-129 | the result is 0 or 1, and nonzero exactly for true |
| `Gb.Encode` | cpu.go:133 | the byte SetFlags stores: each flag's `boolToUint8` shifted left to its position, OR-ed left to right in the order Zero, Subtract, HalfCarry, Carry; what its bits are is stated by `Gb.EncodeBits` |
| `Gb.Decode` | cpu.go:114-121 | each flag `((x >> p) & 0x1) != 0` is the bit of x at the flag's position p |
| `Gb.EncodeBits` | cpu.go:133 | at four distinct positions inside a byte, bit k of the encoded byte is set exactly when the flag stored at position k is true |
| `Gb.RoundTrip` | cpu.go:113-134 | at four distinct positions inside a byte, decoding the encoded flags returns them |
| `Gb.DeclaredEncodeIsZero` | cpu.go:132-134 | at the declared positions 19, 18, 17 and 16 the encoded byte is 0 for every input |
| `Gb.DeclaredDecodeIsEmpty` | cpu.go:114-121 | at the declared positions every flag decodes as false for every byte |
| `Gb.DeclaredRoundTripFails` | cpu.go:131-134 | at the declared positions, encoding then decoding returns the flags exactly when all four are false; Zero alone is lost |
| `Gb.Registers.ParseFlags` | cpu.go:114-121 | reads the Flags byte, not F, and returns four false flags whatever that byte holds |
| `Gb.Registers.SetFlags` | cpu.go:132-134 | writes only the Flags byte, which becomes 0 whatever the flags; AF, BC, DE and HL are unchanged |
| `Gb.IntendedRoundTrip` | cpu.go:21-24 | with Zero, Subtract, HalfCarry and Carry at bits 7, 6, 5 and 4, decoding the encoded flags returns them for all 16 combinations |
| `Gb.IntendedReencode` | cpu.go:113-134 | at bits 7..4, decoding a byte and encoding the flags again gives `x & 0xF0`: the upper nibble is kept and the lower nibble is cleared |
| `Gb.IntendedExample` | cpu.go:113-134 | at bits 7..4, Zero and HalfCarry encode to 0xA0, and 0xA0 decodes to exactly those flags |

## Findings

| source | as written | input that shows it | evidently intended | confidence | as-written member | corrected member |
|---|---|---|---|---|---|---|
| cpu.go:21-24 | `carry byte = iota + 4` continues the register block, where iota is 12, so carry, halfCarry, subtract and zero are 16, 17, 18 and 19. Every shift of a byte by them gives 0. | `SetFlags(&Flags{Zero: true})` followed by `ParseFlags()` gives Zero false, so the flags are lost. | carry, halfCarry, subtract and zero at bits 4, 5, 6 and 7. This matches the hardware flag register and the round trip promised by the doc comments at cpu.go:113 and cpu.go:131. | high (not executed) | `Gb.DeclaredRoundTripFails` | `Gb.IntendedRoundTrip` |

The `Registers` class keeps the declared positions, so that its contracts describe the code as written. The corrected layout is `Gb.Intended`. It feeds the same `Encode` and `Decode` definitions, and three lemmas prove its round trips: `Gb.IntendedRoundTrip`, `Gb.IntendedReencode` and `Gb.IntendedExample`.

## Left out

- Go pointers:
  - `ParseFlags` returns a pointer to a fresh `Flags` struct; the model returns the value.
  - `SetFlags` takes a pointer; the model takes the value. Nothing else holds the pointer.
- The receiver of `combine`: the code never uses it, so `Combine` is a module-level function.
- Concurrency: the struct has no locking and the code does not use it concurrently.
- Instruction decoding, opcode dispatch, the memory bus, interrupts and timing: none of these exist in cpu.go.
- An error for an identifier that is not a pair: the code has none. `set` silently ignores such an identifier, and so does the model.
- Any coupling between `F` and the flags view: the code keeps them in separate bytes.
- The numeric values of the register identifiers (`iota + 1`, so 1 to 12): only their identity matters to `set`.
