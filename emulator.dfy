/** The `Cpu` object: registers, flags and the two memories as fields that
    `Step` updates in place. Each method is proved against the value-level
    definitions of module `Machine`. */
module Emulator {
  import opened Bits
  import opened Machine

  class Cpu {
    var regA: Byte
    var regB: Byte
    /** Data memory; the upper half is the framebuffer. */
    const ram: array<Byte>
    /** Program memory, filled once by the constructor. */
    const flash: array<Byte>
    /** Status byte; only bit 0 (carry) is used. */
    var flags: Byte
    /** Paging byte: the high byte of every paged data address. */
    var ramExt: Byte
    var pc: Word
    var halted: bool

    ghost predicate Valid()
      reads this
    {
      ram.Length == MemSize && flash.Length == MemSize && ram != flash
    }

    /** The object's fields as a `Machine.State` value. */
    ghost function Snapshot(): State
      reads this, ram, flash
    {
      State(regA, regB, ram[..], flash[..], flags, ramExt, pc, halted)
    }

    /** `Cpu::new`: program memory holds `image`, everything else is zero. */
    constructor (image: seq<Byte>)
      requires |image| == MemSize
      ensures Valid() && fresh(ram) && fresh(flash)
      ensures flash[..] == image
      ensures forall i :: 0 <= i < MemSize ==> ram[i] == 0
      ensures regA == 0 && regB == 0 && flags == 0 && ramExt == 0 && pc == 0 && !halted
      ensures Snapshot() == Boot(image)
    {
      regA, regB := 0, 0;
      ram := new Byte[MemSize](_ => 0);
      flash := new Byte[MemSize](i requires 0 <= i < MemSize => image[i]);
      flags, ramExt, pc, halted := 0, 0, 0, false;
      new;
      assert ram[..] == seq(MemSize, _ => 0);
    }

    /** Reads the program byte at `pc` and advances `pc` by one; no other
        field and neither memory changes. */
    method LoadNext() returns (b: Byte)
      requires Valid()
      modifies this`pc
      ensures b == flash[old(pc)]
      ensures pc == Inc(old(pc))
      ensures (b, Snapshot()) == Fetch(old(Snapshot()))
    {
      b := flash[pc];
      pc := Inc(pc);
    }

    /** Copies the framebuffer half of data memory into `buf`. */
    method GetPixels(buf: array<Byte>)
      requires Valid() && buf.Length == FramebufferSize
      modifies buf
      ensures forall i :: 0 <= i < FramebufferSize ==> buf[i] == ram[FramebufferBase + i]
      ensures buf[..] == ram[FramebufferBase..]
      ensures ram[..] == old(ram[..])
    {
      forall i | 0 <= i < FramebufferSize {
        buf[i] := ram[FramebufferBase + i];
      }
    }

    /** One fetch-decode-execute cycle; a byte outside the opcode table is
        reported as `UnimplementedOpcode` after the counter has moved past it. */
    method Step() returns (status: Status)
      requires Valid()
      modifies this, ram
      ensures Valid()
      ensures Outcome(Snapshot(), status) == Machine.Step(old(Snapshot()))
    {
      status := Completed;
      if !halted {
        var instruction := LoadNext();
        match instruction {
          case 0x00 => {}
          case 0x01 => {}
          case 0x02 => {}
          case 0x10 => regA := LoadNext();
          case 0x11 => regB := LoadNext();
          case 0x12 => ramExt := LoadNext();
          case 0x20 =>
            var lo := LoadNext();
            ram[Concat(ramExt, lo)] := regA;
          case 0x21 =>
            var lo := LoadNext();
            ram[Concat(ramExt, lo)] := regB;
          case 0x22 =>
            var lo := LoadNext();
            regA := ram[Concat(ramExt, lo)];
          case 0x23 =>
            var lo := LoadNext();
            regB := ram[Concat(ramExt, lo)];
          case 0x24 => regA := regB;
          case 0x25 => regB := regA;
          case 0x2d => ramExt := regA;
          case 0x2e => ramExt := regB;
          case 0x2f =>
            var lo := LoadNext();
            ramExt := ram[Concat(ramExt, lo)];
          case 0x30 =>
            var hi := LoadNext();
            var lo := LoadNext();
            regA := ram[Concat(hi, lo)];
          case 0x31 => regA := ram[Concat(regA, regB)];
          case 0x32 => regB := ram[Concat(regA, regB)];
          case 0x40 =>
            var (res, carry) := OverflowingAdd(regA, regB);
            regA := res;
            flags := WithCarry(flags, carry);
          case 0x41 =>
            var (res, carry) := OverflowingAdd(regA, AdcOperand(regB, flags));
            regA := res;
            flags := WithCarry(flags, carry);
          case 0xf0 =>
            var hi := LoadNext();
            var lo := LoadNext();
            pc := Concat(hi, lo);
          case 0xf1 => pc := regA;
          case 0xf2 => pc := Concat(regA, regB);
          case 0xf3 =>
            if Carry(flags) {
              var hi := LoadNext();
              var lo := LoadNext();
              pc := Concat(hi, lo);
            } else {
              var _ := LoadNext();
              var _ := LoadNext();
            }
          case 0xf4 =>
            if Carry(flags) {
              pc := regA;
            } else {
              var _ := LoadNext();
              var _ := LoadNext();
            }
          case 0xf5 =>
            if Carry(flags) {
              pc := Concat(regA, regB);
            } else {
              var _ := LoadNext();
              var _ := LoadNext();
            }
          case 0xf6 =>
            if regA == 0 {
              var hi := LoadNext();
              var lo := LoadNext();
              pc := Concat(hi, lo);
            } else {
              var _ := LoadNext();
              var _ := LoadNext();
            }
          case 0xf7 =>
            if regA == 0 {
              pc := regB;
            } else {
              var _ := LoadNext();
              var _ := LoadNext();
            }
          case 0xff => halted := true;
          case _ => status := UnimplementedOpcode(instruction);
        }
      }
    }
  }
}
