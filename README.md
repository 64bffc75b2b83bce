# Maze8 CPU core in Dafny

Maze8 emulates a small 8-bit computer. It has two 8-bit registers A and B,
a 64 KiB data memory (`ram`) and a separate 64 KiB program memory (`flash`).
It also has a paging byte (`ram_ext`), a status byte whose bit 0 is the
carry flag, a 16-bit program counter and a halted flag. Every call of
`step()` fetches one opcode and any operand bytes from program memory,
then executes the opcode. The upper half of data memory (0x8000 to 0xFFFF)
is read out as the framebuffer of a 228 by 142 pixel display.

The project has five modules:

- `Bits` (`bits.dfy`): the `u8` and `u16` values, the 16-bit wrap of the
  program counter, `(hi << 8) | lo`, `overflowing_add`, the carry-bit
  update and the add-with-carry addend.
- `Machine` (`machine.dfy`): the CPU as a value (`State`). `Step` is one
  cycle, written opcode for opcode after the source's `match`. `Run` is
  `n` cycles that stop at the first fault.
- `Emulator` (`emulator.dfy`): the `Cpu` class. Its fields and two arrays
  are those of the Rust struct. `LoadNext` and `Step` change them in place
  and are proved against `Machine.Fetch` and `Machine.Step`. `GetPixels`
  fills the caller's buffer from the upper half of `ram` and changes
  nothing of the `Cpu`.
- `Properties` (`properties.dfy`): lemmas about `Machine.Step` and
  `Machine.Run`. They cover every opcode group, the paged store/load
  round trip, halting, and two end-to-end programs.
- `Display` (`display.dfy`): how a framebuffer byte becomes a colour,
  decoded once as the source writes it and once as the pixel format
  intends (see Findings).

Modelling choices:

- Bytes are `int`s in 0..255 and words are `int`s in 0..65535. The
  source's bit operations are written out as arithmetic. For example,
  `(flags & !1) | 1` is `flags - flags % 2 + 1` and `(hi << 8) | lo` is
  `hi * 256 + lo`.
- The source's `+=` and `+` on `u8`/`u16` panic on overflow in a debug
  build and wrap in a release build. The model wraps everywhere. This
  matters at two places. `pc += 1` at 0xFFFF wraps to 0. `reg_b + flags`
  in add-with-carry also wraps, and the wrap does not change the low bit
  that is used.
- Fetch order follows Rust's left-to-right evaluation. In `0x30`, `0xf0`,
  `0xf3` and `0xf6` the first byte fetched after the opcode is the high
  byte of the address.
- Add-with-carry keeps the source's grouping:
  `self.reg_b + self.flags & 0x1` is `(reg_b + flags) & 1`. So the addend
  is only ever 0 or 1: the low bit of B exclusive-or the carry bit.
- Conditional jumps follow the code. On the taken path, `0xf4`, `0xf5` and
  `0xf7` fetch no operand bytes. On the not-taken path, every conditional
  jump fetches and drops two bytes.
- `unimplemented!()` for a byte outside the table becomes the status
  `UnimplementedOpcode(op)`. The state returned with it is the state at
  that point, with the program counter already past the opcode byte: the
  code has advanced the counter before it panics, so a fault is not free
  of changes.

## Model

| member | source | states |
|---|---|---|
| `Bits.Inc` | src/main.rs:33 | the counter after a fetch is one more, or 0 after 0xFFFF |
| `Bits.IncIsModular` | src/main.rs:33 | the counter after a fetch is `(pc + 1) mod 65536` |
| `Bits.Concat` | src/main.rs:99 | `(hi << 8) + lo` has high byte `hi` and low byte `lo` |
| `Bits.OverflowingAdd` | src/main.rs:109 | the wrapped sum plus 256 when the carry-out is set equals the true sum; the carry-out is set exactly when the sum exceeds 255, equivalently when the result is below the first operand |
| `Bits.Carry` | src/main.rs:139-155 | no contract of its own: the carry test `flags & 0x1 == 0x1`, read as "the status byte is odd"; `Bits.WithCarry` and `Bits.AdcOperand` state their results through it |
| `Bits.WithCarry` | src/main.rs:111-116 | the carry bit becomes the given value and bits 1 to 7 of the status byte are kept |
| `Bits.AdcOperand` | src/main.rs:119 | the add-with-carry addend `(B + flags) & 1` is 0 or 1, and is 1 exactly when the low bit of B differs from the carry bit |
| `Machine.Boot` | src/main.rs:18-29 | the initial state is well formed: program and data memory each hold 65536 bytes (`Emulator.Cpu.constructor` is proved to produce it) |
| `Machine.Fetch` | src/main.rs:31-35 | the state after a fetch is well formed and differs from the old one only in the counter, which is `Inc` of the old counter |
| `Machine.Step` | src/main.rs:41-187 | program memory never changes; a halted machine does not change; halted becomes true exactly when it was or the opcode is 0xff; a fault happens exactly for a byte outside the table, and then only the counter has moved past that byte |
| `Machine.Execute` | src/main.rs:44-185 | a known opcode keeps program memory and sets halted exactly for 0xff |
| `Machine.Run` | src/main.rs:41-43 | any number of cycles keeps program memory; a halted machine stays exactly as it was, with no fault, over any number of cycles |
| `Emulator.Cpu.constructor` | src/main.rs:18-29 | program memory holds the image; both registers, the status byte, the paging byte, the counter and every data cell are zero; not halted |
| `Emulator.Cpu.LoadNext` | src/main.rs:31-35 | returns `flash[pc]` and advances `pc` by one; its frame allows no other field to change |
| `Emulator.Cpu.GetPixels` | src/main.rs:37-39 | `buf[i] == ram[32768 + i]` for every `i < 32768`; data memory is unchanged |
| `Emulator.Cpu.Step` | src/main.rs:41-187 | the new fields, both arrays and the returned status are exactly `Machine.Step` of the old ones |
| `Properties.Halt` | src/main.rs:179-181 | 0xff sets halted and advances the counter by one, nothing else |
| `Properties.NoEffect` | src/main.rs:45-52 | 0x00, 0x01 and 0x02 only advance the counter by one |
| `Properties.Immediate` | src/main.rs:54-62 | 0x10, 0x11, 0x12 load the next byte into A, B or the paging byte and advance the counter by two |
| `Properties.Moves` | src/main.rs:80-91 | 0x24, 0x25, 0x2d, 0x2e copy B to A, A to B, A or B to the paging byte |
| `Properties.PagedStore` | src/main.rs:64-71 | 0x20/0x21 write A/B to the one cell `(ram_ext << 8) + offset`; every other cell is unchanged |
| `Properties.PagedLoad` | src/main.rs:72-95 | 0x22, 0x23, 0x2f load the cell `(ram_ext << 8) + offset` into A, B or the paging byte |
| `Properties.PagedStoreThenLoad` | src/main.rs:64-95 | a paged store followed at once by a paged load (0x22, 0x23 or 0x2f) at the same offset reads back the stored register into A, B or the paging byte |
| `Properties.PagedRoundTrip` | src/main.rs:60-79 | `12 p 20 o 12 p 22 o` gives exactly the old state with the page at `p`, the counter 8 further and cell `(p << 8) + o` holding A; so A reads back unchanged and nothing else changes |
| `Properties.DirectLoad` | src/main.rs:97-100 | 0x30 loads A from `(b1 << 8) + b2`, `b1` fetched first, and advances the counter by three |
| `Properties.IndirectLoad` | src/main.rs:101-106 | 0x31/0x32 load A/B from `(A << 8) + B` and advance the counter by one |
| `Properties.NonPagedIgnoresPage` | src/main.rs:97-106 | the direct and indirect loads give the same result whatever the paging byte, and keep it |
| `Properties.Add` | src/main.rs:108-117 | A becomes `(A + B) mod 256`; carry is set exactly when `A + B > 255`; bits 1 to 7 of the status byte are kept; nothing else but the counter changes |
| `Properties.AddWithCarry` | src/main.rs:118-127 | the addend `(B + flags) & 1` is at most 1; A becomes `(A + addend) mod 256`; carry follows the add rule |
| `Properties.AddWithCarryUsesLowBitOfB` | src/main.rs:119 | changing B by an even amount does not change what add-with-carry computes |
| `Properties.AddWithCarryOverflow` | src/main.rs:119-126 | with A = 255, add-with-carry sets carry exactly when the low bit of B differs from the carry |
| `Properties.Jump` | src/main.rs:129-137 | 0xf0 jumps to the two fetched bytes, 0xf1 to A, 0xf2 to `(A << 8) + B`; nothing else changes |
| `Properties.ConditionalJump` | src/main.rs:138-177 | 0xf3 to 0xf7 land on their target when taken and 3 bytes past the opcode when not; only the counter changes |
| `Properties.Unimplemented` | src/main.rs:182-183 | a byte outside the table faults with that byte, and the counter is the only thing that has moved |
| `Properties.AddProgramRuns` | src/main.rs:54-181 | from boot, `10 a 11 b 40 ff` run for 4 or more cycles gives A = `(a + b) mod 256`, carry iff `a + b > 255`, halted with the counter at 6 |
| `Properties.AddProgram` | src/main.rs:108-117 | `10 05 11 03 40 ff` ends with A = 8, carry clear, halted, counter 6 |
| `Properties.OverflowProgram` | src/main.rs:108-117 | `10 ff 11 02 40 ff` ends with A = 1 and carry set |
| `Display.VisibleRegionFits` | src/main.rs:225 | the `228 * 142` pixels drawn lie inside the 32768-byte framebuffer |
| `Display.ChannelIndicesAsWritten` | src/main.rs:226-228 | the indices stay inside the 8-, 8- and 4-entry tables, and red and green always get the same index |
| `Display.PureRedAsWritten` | src/main.rs:226-228 | the byte `0b11100000` is drawn black |
| `Display.ColourAsWritten` | src/main.rs:226-228 | the colour as the source computes it always has equal red and green levels |
| `Display.ChannelIndices` | src/main.rs:226-228 | the corrected decode splits a byte into its `RRRGGGBB` fields, each within its table |
| `Display.ChannelIndicesOfPacked` | src/main.rs:226-228 | decoding a packed `RRRGGGBB` byte gives back the three fields |
| `Display.Colour` | src/main.rs:226-228 | no contract of its own: the table level of each `ChannelIndices` field; `Display.ColourIsInjective` and `Display.TopLeftPureRed` state what it computes |
| `Display.ColourIsInjective` | src/main.rs:226-228 | two bytes with the same corrected colour are the same byte, where the decode as written draws `0b11100000` and `0` alike |
| `Display.TopLeftPureRed` | src/main.rs:60-67 | the program `12 80 20 00` with A = `0b11100000` stores that byte at data address 0x8000, the first framebuffer byte, and the corrected decode shows it as (255, 0, 0) |

## Left out

- `main` (src/main.rs:190-240) is not modelled. It parses the command line, reads the image file into a buffer, and runs the raylib window and drawing loop. It also sleeps `1 / IPS` seconds between cycles. All of this is I/O, a foreign library or floating-point timing.
- The four `println!` calls (three messages) are not modelled: output of A (0x01), output of B (0x02), and the overflow notice of 0x40/0x41. No console exists in the model, so these opcodes change only the counter.
- `Machine.Run` models repeated calls of `step()`, not the scheduler loop. It has no notion of time or of the window closing.
- `Bits.Inc`: wraps 0xFFFF to 0 and does not model the panic a debug build raises for `self.pc += 1`. Release-build behaviour was chosen.
- `Bits.AdcOperand`: wraps `reg_b + flags` and does not model the panic a debug build raises when the sum exceeds 255.
- `Emulator.Cpu.Step`: reports an unknown opcode as a returned status. The program stopping because of the panic is not modelled.
- `Emulator.Cpu.constructor` takes the program image as a 65536-byte sequence. Rust passes an array by value, and the model copies it the same way.
- `Display.ColourAsWritten` and `Display.Colour` only decode one byte. Drawing rectangles, magnification and the pixel positions on screen are not modelled.

## Findings

| source | as written | input that shows it | evidently intended | confidence | as-written member | corrected member |
|---|---|---|---|---|---|---|
| src/main.rs:226-227 | `pixel & 0b11100000 >> 5` and `pixel & 0b00011100 >> 2`: Rust's `>>` binds tighter than `&`, so both are `pixel & 0b111`, and red and green take the same low three bits | the pure-red byte `0b11100000` indexes `rmap[0]`, `gmap[0]`, `bmap[0]` and is drawn black | `(pixel & 0b11100000) >> 5` and `(pixel & 0b00011100) >> 2`, the `RRRGGGBB` layout, so `0b11100000` is drawn (255, 0, 0) | high, not executed | `Display.PureRedAsWritten` | `Display.ChannelIndicesOfPacked` |
