/** What one cycle of `Machine.Step` does, opcode group by opcode group, and
    what several cycles do. */
module Properties {
  import opened Bits
  import opened Machine

  /** The program counter `k` bytes past `pc`, wrapping at the top of
      program memory. */
  function Ahead(pc: Word, k: nat): Word
    requires k < MemSize
  {
    if pc + k < MemSize then pc + k else pc + k - MemSize
  }

  /** Byte `k` of the instruction at `s.pc`: the opcode for `k = 0`, then its
      operand bytes. */
  function Operand(s: State, k: nat): Byte
    requires s.Valid() && k < MemSize
  {
    s.flash[Ahead(s.pc, k)]
  }

  /** `Ahead` is counting modulo 65536, and one byte ahead is one fetch. */
  lemma AheadIsModular(pc: Word, k: nat)
    requires k < MemSize
    ensures Ahead(pc, k) == (pc + k) % MemSize
    ensures Ahead(pc, 1) == Inc(pc)
  {
    IncIsModular(pc);
  }

  /** Counting `k` bytes on from a counter that is already `j` bytes ahead. */
  lemma AheadAhead(pc: Word, j: nat, k: nat)
    requires j + k < MemSize
    ensures Ahead(Ahead(pc, j), k) == Ahead(pc, j + k)
  {
  }

  /** Operand `k` of a state whose counter is `j` bytes on is operand
      `j + k` of the original. */
  lemma OperandAhead(s: State, t: State, j: nat, k: nat)
    requires s.Valid() && t.Valid() && t.flash == s.flash
    requires j + k < MemSize && t.pc == Ahead(s.pc, j)
    ensures Operand(t, k) == Operand(s, j + k)
  {
    AheadAhead(s.pc, j, k);
  }

  /** `s` is about to execute `op`. */
  predicate About(s: State, op: Byte)
  {
    s.Valid() && !s.halted && s.flash[s.pc] == op
  }

  // ---------------------------------------------------------------------
  // Halting

  /** Halt sets `halted` and moves the counter past itself; nothing else. */
  lemma Halt(s: State)
    requires About(s, 0xff)
    ensures Step(s) == Outcome(s.(pc := Ahead(s.pc, 1), halted := true), Completed)
  {
  }

  /** A cycle that completes, followed by `n` more, is `n + 1` cycles. */
  lemma RunStep(s: State, n: nat)
    requires s.Valid() && Step(s).status.Completed?
    ensures Run(s, n + 1) == Run(Step(s).state, n)
  {
  }

  // ---------------------------------------------------------------------
  // No-ops, immediates, register moves

  /** `0x00`, `0x01` and `0x02` only move the counter past themselves. */
  lemma NoEffect(s: State, op: Byte)
    requires op in {0x00, 0x01, 0x02} && About(s, op)
    ensures Step(s) == Outcome(s.(pc := Ahead(s.pc, 1)), Completed)
  {
  }

  /** `0x10`, `0x11`, `0x12` load the next program byte into A, B or the
      paging byte and advance the counter by 2. */
  lemma Immediate(s: State, op: Byte)
    requires op in {0x10, 0x11, 0x12} && About(s, op)
    ensures var t := s.(pc := Ahead(s.pc, 2)); var b := Operand(s, 1);
      Step(s) == Outcome(
        if op == 0x10 then t.(regA := b)
        else if op == 0x11 then t.(regB := b)
        else t.(ramExt := b),
        Completed)
  {
  }

  /** `0x24`, `0x25`, `0x2d`, `0x2e` copy one register into another. */
  lemma Moves(s: State, op: Byte)
    requires op in {0x24, 0x25, 0x2d, 0x2e} && About(s, op)
    ensures var t := s.(pc := Ahead(s.pc, 1));
      Step(s) == Outcome(
        if op == 0x24 then t.(regA := s.regB)
        else if op == 0x25 then t.(regB := s.regA)
        else if op == 0x2d then t.(ramExt := s.regA)
        else t.(ramExt := s.regB),
        Completed)
  {
  }

  // ---------------------------------------------------------------------
  // Paged access

  /** A paged store writes the one data cell `(ram_ext << 8) | offset` and
      nothing else; the counter advances by 2. */
  lemma PagedStore(s: State, op: Byte)
    requires op in {0x20, 0x21} && About(s, op)
    ensures var a := Concat(s.ramExt, Operand(s, 1));
      var v := if op == 0x20 then s.regA else s.regB;
      && Step(s) == Outcome(s.(pc := Ahead(s.pc, 2), ram := s.ram[a := v]), Completed)
      && Step(s).state.ram[a] == v
      && forall i :: 0 <= i < MemSize && i != a ==> Step(s).state.ram[i] == s.ram[i]
  {
  }

  /** A paged load reads the cell `(ram_ext << 8) | offset` into A, B or the
      paging byte; the counter advances by 2. */
  lemma PagedLoad(s: State, op: Byte)
    requires op in {0x22, 0x23, 0x2f} && About(s, op)
    ensures var v := s.ram[Concat(s.ramExt, Operand(s, 1))];
      var t := s.(pc := Ahead(s.pc, 2));
      Step(s) == Outcome(
        if op == 0x22 then t.(regA := v)
        else if op == 0x23 then t.(regB := v)
        else t.(ramExt := v),
        Completed)
  {
  }

  /** A paged store followed at once by a paged load at the same offset reads
      back the stored register, whether the load is into A, B or the paging
      byte. */
  lemma PagedStoreThenLoad(s: State, store: Byte, load: Byte)
    requires store in {0x20, 0x21} && load in {0x22, 0x23, 0x2f}
    requires About(s, store) && Operand(s, 2) == load && Operand(s, 3) == Operand(s, 1)
    ensures var o := Run(s, 2);
      && o.status.Completed?
      && (if load == 0x22 then o.state.regA
          else if load == 0x23 then o.state.regB
          else o.state.ramExt)
         == (if store == 0x20 then s.regA else s.regB)
  {
    PagedStore(s, store);
    var s1 := Step(s).state;
    assert s1.flash[s1.pc] == load;
    assert Operand(s1, 1) == Operand(s, 1);
    PagedLoad(s1, load);
  }

  /** The program `0x12 p 0x20 o 0x12 p 0x22 o` (select page `p`, store A at
      offset `o`, select page `p` again, load A from offset `o`) leaves A as
      it was, selects page `p`, moves the counter 8 bytes on and changes
      exactly the one data cell `(p << 8) | o`, which then holds A. */
  lemma PagedRoundTrip(s: State, p: Byte, o: Byte)
    requires s.Valid() && !s.halted
    requires Operand(s, 0) == 0x12 && Operand(s, 1) == p
    requires Operand(s, 2) == 0x20 && Operand(s, 3) == o
    requires Operand(s, 4) == 0x12 && Operand(s, 5) == p
    requires Operand(s, 6) == 0x22 && Operand(s, 7) == o
    ensures Run(s, 4) ==
      Outcome(s.(pc := Ahead(s.pc, 8), ramExt := p, ram := s.ram[Concat(p, o) := s.regA]), Completed)
  {
    var s2 := s.(pc := Ahead(s.pc, 4), ramExt := p, ram := s.ram[Concat(p, o) := s.regA]);
    SelectAndStore(s, p, o, 2);
    OperandsAhead(s, s2, 4);
    OperandAhead(s, s2, 4, 2);
    OperandAhead(s, s2, 4, 3);
    SelectAndLoad(s2, p, o, 0);
    AheadAhead(s.pc, 4, 4);
  }

  /** The first half of `PagedRoundTrip`: `0x12 p 0x20 o`. */
  lemma SelectAndStore(s: State, p: Byte, o: Byte, n: nat)
    requires s.Valid() && !s.halted
    requires Operand(s, 0) == 0x12 && Operand(s, 1) == p
    requires Operand(s, 2) == 0x20 && Operand(s, 3) == o
    ensures Run(s, n + 2) == Run(s.(pc := Ahead(s.pc, 4), ramExt := p, ram := s.ram[Concat(p, o) := s.regA]), n)
  {
    var s1 := s.(pc := Ahead(s.pc, 2), ramExt := p);
    var s2 := s1.(pc := Ahead(s.pc, 4), ram := s.ram[Concat(p, o) := s.regA]);
    RunImmediatePage(s, n + 1);
    OperandsAhead(s, s1, 2);
    AheadAhead(s.pc, 2, 2);
    RunPagedStoreA(s1, n);
  }

  /** The second half of `PagedRoundTrip`: `0x12 p 0x22 o`. */
  lemma SelectAndLoad(s: State, p: Byte, o: Byte, n: nat)
    requires s.Valid() && !s.halted
    requires Operand(s, 0) == 0x12 && Operand(s, 1) == p
    requires Operand(s, 2) == 0x22 && Operand(s, 3) == o
    ensures Run(s, n + 2) == Run(s.(pc := Ahead(s.pc, 4), ramExt := p, regA := s.ram[Concat(p, o)]), n)
  {
    var s1 := s.(pc := Ahead(s.pc, 2), ramExt := p);
    var s2 := s1.(pc := Ahead(s.pc, 4), regA := s.ram[Concat(p, o)]);
    RunImmediatePage(s, n + 1);
    OperandsAhead(s, s1, 2);
    AheadAhead(s.pc, 2, 2);
    RunPagedLoadA(s1, n);
  }

  /** Operands 0 and 1 of a state `j` bytes on are operands `j` and `j + 1`. */
  lemma OperandsAhead(s: State, t: State, j: nat)
    requires s.Valid() && t.Valid() && t.flash == s.flash
    requires j + 1 < MemSize && t.pc == Ahead(s.pc, j)
    ensures Operand(t, 0) == Operand(s, j) && Operand(t, 1) == Operand(s, j + 1)
  {
    OperandAhead(s, t, j, 0);
    OperandAhead(s, t, j, 1);
  }

  lemma RunImmediatePage(s: State, n: nat)
    requires About(s, 0x12)
    ensures Run(s, n + 1) == Run(s.(pc := Ahead(s.pc, 2), ramExt := Operand(s, 1)), n)
  {
    Immediate(s, 0x12);
    RunStep(s, n);
  }

  lemma RunPagedStoreA(s: State, n: nat)
    requires About(s, 0x20)
    ensures Run(s, n + 1) == Run(
      s.(pc := Ahead(s.pc, 2), ram := s.ram[Concat(s.ramExt, Operand(s, 1)) := s.regA]), n)
  {
    PagedStore(s, 0x20);
    RunStep(s, n);
  }

  lemma RunPagedLoadA(s: State, n: nat)
    requires About(s, 0x22)
    ensures Run(s, n + 1) == Run(
      s.(pc := Ahead(s.pc, 2), regA := s.ram[Concat(s.ramExt, Operand(s, 1))]), n)
  {
    PagedLoad(s, 0x22);
    RunStep(s, n);
  }

  // ---------------------------------------------------------------------
  // Direct and register-indirect loads

  /** `0x30` loads A from `(b1 << 8) | b2`, `b1` being the first byte fetched
      after the opcode, and advances the counter by 3. */
  lemma DirectLoad(s: State)
    requires About(s, 0x30)
    ensures Step(s) == Outcome(
      s.(pc := Ahead(s.pc, 3), regA := s.ram[Concat(Operand(s, 1), Operand(s, 2))]),
      Completed)
  {
  }

  /** `0x31` and `0x32` load A or B from `(A << 8) | B` and advance the
      counter by 1. */
  lemma IndirectLoad(s: State, op: Byte)
    requires op in {0x31, 0x32} && About(s, op)
    ensures var v := s.ram[Concat(s.regA, s.regB)];
      var t := s.(pc := Ahead(s.pc, 1));
      Step(s) == Outcome(if op == 0x31 then t.(regA := v) else t.(regB := v), Completed)
  {
  }

  /** The direct and indirect loads do not depend on the paging byte and
      leave it alone. */
  lemma NonPagedIgnoresPage(s: State, op: Byte, page: Byte)
    requires op in {0x30, 0x31, 0x32} && About(s, op)
    ensures Step(s.(ramExt := page)) == Outcome(Step(s).state.(ramExt := page), Completed)
  {
  }

  // ---------------------------------------------------------------------
  // Arithmetic

  /** Add: A becomes `(A + B) mod 256`, carry is set exactly when `A + B`
      exceeds 255, bits 1 to 7 of the status byte are kept. */
  lemma Add(s: State)
    requires About(s, 0x40)
    ensures var r := Step(s).state;
      && Step(s).status.Completed?
      && r.regA == (s.regA + s.regB) % 0x100
      && (Carry(r.flags) <==> s.regA + s.regB > 0xFF)
      && r.flags / 2 == s.flags / 2
      && r == s.(pc := Ahead(s.pc, 1), regA := r.regA, flags := r.flags)
  {
  }

  /** Add with carry: the addend is `(B + flags) & 1`, never more than 1; A
      and carry are updated as for add, with that addend in place of B. */
  lemma AddWithCarry(s: State)
    requires About(s, 0x41)
    ensures var r := Step(s).state; var addend := ((s.regB + s.flags) % 0x100) % 2;
      && Step(s).status.Completed?
      && addend <= 1
      && r.regA == (s.regA + addend) % 0x100
      && (Carry(r.flags) <==> s.regA + addend > 0xFF)
      && r.flags / 2 == s.flags / 2
      && r == s.(pc := Ahead(s.pc, 1), regA := r.regA, flags := r.flags)
  {
  }

  /** Only the low bits of B and of the status byte reach the addend of add
      with carry: two states that differ in B by an even amount give the
      same result. */
  lemma AddWithCarryUsesLowBitOfB(s: State, b: Byte)
    requires About(s, 0x41) && b % 2 == s.regB % 2
    ensures Step(s.(regB := b)) == Outcome(Step(s).state.(regB := b), Completed)
  {
  }

  /** With A = 255 the carry is set by add with carry exactly when the
      addend is 1, that is when the low bit of B differs from the carry. */
  lemma AddWithCarryOverflow(s: State)
    requires About(s, 0x41) && s.regA == 0xFF
    ensures Carry(Step(s).state.flags) <==> (s.regB % 2 == 1) != Carry(s.flags)
  {
  }

  // ---------------------------------------------------------------------
  // Jumps

  /** `0xf0` jumps to `(b1 << 8) | b2`, `0xf1` to A, `0xf2` to `(A << 8) | B`;
      nothing but the counter changes. */
  lemma Jump(s: State, op: Byte)
    requires op in {0xf0, 0xf1, 0xf2} && About(s, op)
    ensures Step(s) == Outcome(
      s.(pc :=
        if op == 0xf0 then Concat(Operand(s, 1), Operand(s, 2))
        else if op == 0xf1 then s.regA
        else Concat(s.regA, s.regB)),
      Completed)
  {
  }

  /** Whether conditional jump `op` is taken: on carry for `0xf3` to `0xf5`,
      on A = 0 for `0xf6` and `0xf7`. */
  predicate Taken(s: State, op: Byte)
  {
    if op in {0xf3, 0xf4, 0xf5} then Carry(s.flags) else s.regA == 0
  }

  /** Where a taken conditional jump lands: the two fetched bytes for `0xf3`
      and `0xf6`, A for `0xf4`, `(A << 8) | B` for `0xf5`, B for `0xf7`. */
  function Target(s: State, op: Byte): Word
    requires s.Valid()
  {
    if op in {0xf3, 0xf6} then Concat(Operand(s, 1), Operand(s, 2))
    else if op == 0xf4 then s.regA
    else if op == 0xf5 then Concat(s.regA, s.regB)
    else s.regB
  }

  /** A conditional jump lands on its target when taken and exactly 3 bytes
      past its opcode when not, and changes nothing but the counter. */
  lemma ConditionalJump(s: State, op: Byte)
    requires op in {0xf3, 0xf4, 0xf5, 0xf6, 0xf7} && About(s, op)
    ensures Step(s) == Outcome(
      s.(pc := if Taken(s, op) then Target(s, op) else Ahead(s.pc, 3)),
      Completed)
  {
  }

  // ---------------------------------------------------------------------
  // Faults

  /** A byte outside the opcode table faults; the only change it leaves
      behind is the counter moved past that byte. */
  lemma Unimplemented(s: State)
    requires s.Valid() && !s.halted && s.flash[s.pc] !in Opcodes
    ensures Step(s) == Outcome(s.(pc := Ahead(s.pc, 1)), UnimplementedOpcode(s.flash[s.pc]))
  {
  }

  // ---------------------------------------------------------------------
  // End-to-end programs

  /** The program `10 a 11 b 40 ff` (load A = a, load B = b, add, halt) run
      from boot for four or more cycles: A holds `(a + b) mod 256`, carry
      says whether `a + b` exceeded 255, and the machine has halted with the
      counter at 6. */
  lemma AddProgramRuns(image: seq<Byte>, a: Byte, b: Byte, n: nat)
    requires |image| == MemSize && image[..6] == [0x10, a, 0x11, b, 0x40, 0xff]
    requires n >= 4
    ensures var r := Run(Boot(image), n);
      && r.status.Completed?
      && r.state.regA == (a + b) % 0x100 && r.state.regB == b
      && (Carry(r.state.flags) <==> a + b > 0xFF)
      && r.state.halted && r.state.pc == 6
  {
    assert image[0] == 0x10 && image[1] == a && image[2] == 0x11;
    assert image[3] == b && image[4] == 0x40 && image[5] == 0xff;
    var s0 := Boot(image);
    var s1 := s0.(pc := 2, regA := a);
    var s2 := s1.(pc := 4, regB := b);
    var sum := OverflowingAdd(a, b);
    var s3 := s2.(pc := 5, regA := sum.0, flags := WithCarry(0, sum.1));
    var s4 := s3.(pc := 6, halted := true);
    Immediate(s0, 0x10);
    RunStep(s0, n - 1);
    Immediate(s1, 0x11);
    RunStep(s1, n - 2);
    Add(s2);
    RunStep(s2, n - 3);
    Halt(s3);
    RunStep(s3, n - 4);
  }

  /** `10 05 11 03 40 ff` ends with A = 8, carry clear, halted at 6. */
  lemma AddProgram(image: seq<Byte>, n: nat)
    requires |image| == MemSize && image[..6] == [0x10, 0x05, 0x11, 0x03, 0x40, 0xff]
    requires n >= 4
    ensures var r := Run(Boot(image), n);
      && r.status.Completed?
      && r.state.regA == 8 && !Carry(r.state.flags)
      && r.state.halted && r.state.pc == 6
  {
    AddProgramRuns(image, 0x05, 0x03, n);
    assert (0x05 + 0x03) % 0x100 == 8;
  }

  /** `10 ff 11 02 40 ff`: 255 + 2 wraps to A = 1 and sets carry. */
  lemma OverflowProgram(image: seq<Byte>, n: nat)
    requires |image| == MemSize && image[..6] == [0x10, 0xff, 0x11, 0x02, 0x40, 0xff]
    requires n >= 4
    ensures var r := Run(Boot(image), n);
      && r.status.Completed?
      && r.state.regA == 1 && Carry(r.state.flags)
      && r.state.halted && r.state.pc == 6
  {
    AddProgramRuns(image, 0xff, 0x02, n);
    assert (0xff + 0x02) % 0x100 == 1;
  }
}
