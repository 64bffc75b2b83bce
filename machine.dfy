/** The state of the Maze8 CPU as a value, and one fetch-decode-execute cycle
    as a function of it: the reference definition that `Emulator.Cpu.Step`
    is proved against and that the lemmas in `Properties` are about. */
module Machine {
  import opened Bits

  /** Size of each of the two memories: the whole 16-bit address space. */
  const MemSize := 0x1_0000

  /** Data memory from this address to the end is read out as the framebuffer. */
  const FramebufferBase := 0x8000
  const FramebufferSize := 0x8000

  /** Every opcode byte the decoder knows; any other byte is unimplemented. */
  const Opcodes: set<Byte> := {
    0x00, 0x01, 0x02,
    0x10, 0x11, 0x12,
    0x20, 0x21, 0x22, 0x23, 0x24, 0x25, 0x2d, 0x2e, 0x2f,
    0x30, 0x31, 0x32,
    0x40, 0x41,
    0xf0, 0xf1, 0xf2, 0xf3, 0xf4, 0xf5, 0xf6, 0xf7,
    0xff
  }

  /** The fields of the CPU: registers A and B, data memory `ram`, program
      memory `flash`, the status byte, the paging byte, the program counter
      and the halted flag. */
  datatype State = State(
    regA: Byte,
    regB: Byte,
    ram: seq<Byte>,
    flash: seq<Byte>,
    flags: Byte,
    ramExt: Byte,
    pc: Word,
    halted: bool)
  {
    predicate Valid()
    {
      |ram| == MemSize && |flash| == MemSize
    }
  }

  /** How a cycle ended: normally, or on a byte missing from the opcode table
      (the source's `unimplemented!()` panic). */
  datatype Status = Completed | UnimplementedOpcode(opcode: Byte)

  datatype Outcome = Outcome(state: State, status: Status)

  /** The state a freshly constructed CPU has: the program image in program
      memory and every other field zero. */
  function Boot(image: seq<Byte>): (s: State)
    requires |image| == MemSize
    ensures s.Valid()
  {
    State(0, 0, seq(MemSize, _ => 0), image, 0, 0, 0, false)
  }

  /** The byte at the program counter, and the state with the counter advanced. */
  function Fetch(s: State): (r: (Byte, State))
    requires s.Valid()
    ensures r.1.Valid() && r.1.(pc := s.pc) == s
    ensures r.1.pc == Inc(s.pc)
  {
    (s.flash[s.pc], s.(pc := Inc(s.pc)))
  }

  /** The paged data address: the paging byte is the high byte. */
  function Paged(s: State, offset: Byte): Word
  {
    Concat(s.ramExt, offset)
  }

  /** Fetch two bytes and drop them (the not-taken path of a conditional jump). */
  function Skip2(s: State): State
    requires s.Valid()
  {
    var (_, s1) := Fetch(s);
    var (_, s2) := Fetch(s1);
    s2
  }

  /** Fetch a high and then a low byte, and jump to the address they form. */
  function JumpFetched(s: State): State
    requires s.Valid()
  {
    var (hi, s1) := Fetch(s);
    var (lo, s2) := Fetch(s1);
    s2.(pc := Concat(hi, lo))
  }

  /** Register A becomes `sum`; the carry bit becomes `carry`. */
  function AddResult(s: State, sum: (Byte, bool)): State
  {
    s.(regA := sum.0, flags := WithCarry(s.flags, sum.1))
  }

  /** One call of `step()`. */
  function Step(s: State): (r: Outcome)
    requires s.Valid()
    ensures r.state.Valid() && r.state.flash == s.flash
    ensures s.halted ==> r == Outcome(s, Completed)
    ensures r.state.halted <==> s.halted || s.flash[s.pc] == 0xff
    ensures r.status.UnimplementedOpcode? <==> !s.halted && s.flash[s.pc] !in Opcodes
    ensures r.status.UnimplementedOpcode? ==>
              r.status.opcode == s.flash[s.pc] && r.state == s.(pc := Inc(s.pc))
  {
    if s.halted then Outcome(s, Completed)
    else
      var (op, s1) := Fetch(s);
      if op in Opcodes then Outcome(Execute(op, s1), Completed)
      else Outcome(s1, UnimplementedOpcode(op))
  }

  /** The effect of a known opcode `op`, in a state whose counter has already
      moved past `op`. */
  function Execute(op: Byte, s: State): (r: State)
    requires op in Opcodes && s.Valid()
    ensures r.Valid() && r.flash == s.flash
    ensures r.halted <==> s.halted || op == 0xff
  {
    match op
    // nop; output A; output B (console output is not modelled)
    case 0x00 => s
    case 0x01 => s
    case 0x02 => s
    // immediate loads
    case 0x10 => var (b, s1) := Fetch(s); s1.(regA := b)
    case 0x11 => var (b, s1) := Fetch(s); s1.(regB := b)
    case 0x12 => var (b, s1) := Fetch(s); s1.(ramExt := b)
    // paged stores and loads
    case 0x20 => var (lo, s1) := Fetch(s); s1.(ram := s1.ram[Paged(s1, lo) := s1.regA])
    case 0x21 => var (lo, s1) := Fetch(s); s1.(ram := s1.ram[Paged(s1, lo) := s1.regB])
    case 0x22 => var (lo, s1) := Fetch(s); s1.(regA := s1.ram[Paged(s1, lo)])
    case 0x23 => var (lo, s1) := Fetch(s); s1.(regB := s1.ram[Paged(s1, lo)])
    // register moves and page selection
    case 0x24 => s.(regA := s.regB)
    case 0x25 => s.(regB := s.regA)
    case 0x2d => s.(ramExt := s.regA)
    case 0x2e => s.(ramExt := s.regB)
    case 0x2f => var (lo, s1) := Fetch(s); s1.(ramExt := s1.ram[Paged(s1, lo)])
    // direct and register-indirect loads
    case 0x30 =>
      var (hi, s1) := Fetch(s);
      var (lo, s2) := Fetch(s1);
      s2.(regA := s2.ram[Concat(hi, lo)])
    case 0x31 => s.(regA := s.ram[Concat(s.regA, s.regB)])
    case 0x32 => s.(regB := s.ram[Concat(s.regA, s.regB)])
    // add, add with carry
    case 0x40 => AddResult(s, OverflowingAdd(s.regA, s.regB))
    case 0x41 => AddResult(s, OverflowingAdd(s.regA, AdcOperand(s.regB, s.flags)))
    // jumps
    case 0xf0 => JumpFetched(s)
    case 0xf1 => s.(pc := s.regA)
    case 0xf2 => s.(pc := Concat(s.regA, s.regB))
    case 0xf3 => if Carry(s.flags) then JumpFetched(s) else Skip2(s)
    case 0xf4 => if Carry(s.flags) then s.(pc := s.regA) else Skip2(s)
    case 0xf5 => if Carry(s.flags) then s.(pc := Concat(s.regA, s.regB)) else Skip2(s)
    case 0xf6 => if s.regA == 0 then JumpFetched(s) else Skip2(s)
    case 0xf7 => if s.regA == 0 then s.(pc := s.regB) else Skip2(s)
    // halt
    case 0xff => s.(halted := true)
  }

  /** `n` consecutive calls of `step()`, stopping at the first fault. */
  function Run(s: State, n: nat): (r: Outcome)
    requires s.Valid()
    ensures r.state.Valid() && r.state.flash == s.flash
    ensures s.halted ==> r == Outcome(s, Completed)
    decreases n
  {
    if n == 0 then Outcome(s, Completed)
    else
      var o := Step(s);
      if o.status.UnimplementedOpcode? then o else Run(o.state, n - 1)
  }
}
