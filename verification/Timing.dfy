/** The exact number of cycles of every instruction. */
module Timing {
  import opened Opcodes
  import opened Cpu
  import Addressing
  import Cycles
  import Decoding
  import Disassembler
  import InstructionSet

  // Operations that only read their operand wait a cycle for the carry of an
  // indexed address; so do the empty opcodes where a read would stand.
  predicate WaitsForCarry(op: opcode) {
    var o := OpOf(op);
    || o.Adc? || o.And? || o.Cmp? || o.Eor? || o.Lax? || o.Lda? || o.Ldx? || o.Ldy? || o.Ora? || o.Sbc?
    || (o.Nop? && op / 32 != 4)
  }

  // Which operations ask for the penalty at all.
  predicate Asks(op: opcode) {
    var o := OpOf(op);
    || o.Adc? || o.And? || o.Cmp? || o.Eor? || o.Lax? || o.Lda? || o.Ldx? || o.Ldy? || o.Ora? || o.Sbc?
    || Cycles.RefundsItself(o) || (o.Nop? && op in {0x1C, 0x3C, 0x5C, 0x7C, 0xDC, 0xFC})
  }

  lemma LoadStoreAsks(c: Cpu)
    requires !c.penaltyop && IsLoadOrStore(OpOf(c.opcode))
    ensures Execute(c).penaltyop <==> Asks(c.opcode)
  {
    hide OpOf, LoadA, LoadX, LoadY, PutValue, Compare, Value, Execute;
    InstructionSet.DispatchLoadStore(c);
    Cycles.LoadsQuiet();
  }

  lemma MemoryAsks(c: Cpu)
    requires !c.penaltyop && !IsLoadOrStore(OpOf(c.opcode)) && !IsCombined(OpOf(c.opcode))
    requires !IsBranch(OpOf(c.opcode)) && !IsFlagOp(OpOf(c.opcode)) && !IsRegisterOp(OpOf(c.opcode))
    requires !IsJump(OpOf(c.opcode)) && !IsStackOp(OpOf(c.opcode))
    ensures Execute(c).penaltyop <==> Asks(c.opcode)
  {
    hide OpOf, DoAdc, DoSbc, DoAnd, DoOra, DoEor, DoBit, DoAsl, DoLsr, DoRol, DoRor, DoInc, DoDec;
    Cycles.ModifiesQuiet(c);
    Cycles.AccumulateQuiet(c);
    BitQuiet(c);
  }

  lemma BitQuiet(c: Cpu)
    ensures Cycles.Quiet(c, DoBit(c))
  {
  }

  lemma ControlAsks(c: Cpu)
    requires !c.penaltyop && (IsJump(OpOf(c.opcode)) || IsStackOp(OpOf(c.opcode)))
    ensures !Execute(c).penaltyop
  {
    hide OpOf, Execute, Push8, DoPhp, DoPla, DoPlp, DoJsr, DoRts, DoRti, DoBrk;
    InstructionSet.DispatchControl(c);
    Cycles.StackQuiet(c);
  }

  lemma RegisterAsks(c: Cpu)
    requires !c.penaltyop && (IsRegisterOp(OpOf(c.opcode)) || IsFlagOp(OpOf(c.opcode)))
    ensures !Execute(c).penaltyop
  {
    hide OpOf, Execute, LoadA, LoadX, LoadY, ExecuteFlag, Byte;
    InstructionSet.DispatchRegister(c);
    InstructionSet.DispatchFlag(c);
    Cycles.LoadsQuiet();
  }

  lemma PenaltyExact(c: Cpu)
    requires !c.penaltyop
    ensures Execute(c).penaltyop <==> Asks(c.opcode)
    ensures Execute(c).penaltyaddr == c.penaltyaddr
  {
    hide OpOf, Execute, Count, Cycles.Extra;
    Cycles.ExecuteAccounts(c);
    var o := OpOf(c.opcode);
    if IsLoadOrStore(o) {
      LoadStoreAsks(c);
    } else if IsJump(o) || IsStackOp(o) {
      ControlAsks(c);
    } else if IsRegisterOp(o) || IsFlagOp(o) {
      RegisterAsks(c);
    } else if !IsBranch(o) && !IsCombined(o) {
      MemoryAsks(c);
    }
  }

  // Among the empty opcodes, those that ask stand where a read would.
  lemma EmptyAsks(op: opcode)
    requires OpOf(op).Nop? && (ModeOf(op).Absx? || ModeOf(op).Absy? || ModeOf(op).Indy?)
    ensures op in {0x1C, 0x3C, 0x5C, 0x7C, 0xDC, 0xFC} <==> op / 32 != 4
  {
    hide OpOf, ModeOf, Ticks, DisOf;
    Decoding.TablesFollowBits(op);
    var a, b, c := Decoding.Fields(op);
  }

  // Cycles a branch adds.
  function BranchCycles(c: Cpu): int {
    var d: int := Addressing.InstructionByte(c, 1);
    var target := (InstructionSet.Behind(c) + if d < 128 then d else d - 256) % 0x1_0000;
    if !InstructionSet.Taken(c, OpOf(c.mem[c.pc])) then 0
    else if target / 256 == InstructionSet.Behind(c) / 256 then 1 else 2
  }

  lemma BranchCharged(c: Cpu)
    requires IsBranch(OpOf(c.mem[c.pc]))
    ensures Cycles.Extra(Address(Fetch(c))) == BranchCycles(c)
  {
    hide OpOf, Execute, Step, Address, Fetch, ModeOf, Addressing.InstructionByte, InstructionSet.Behind, Value,
         InstructionSet.Operand;
    InstructionSet.ReadyIs(c);
    Disassembler.BranchMode(c.mem[c.pc]);
    InstructionSet.Displaced(c);
    InstructionSet.TestedBits(c.status);
    var d: int := Addressing.InstructionByte(c, 1);
    Target(InstructionSet.Behind(c), d);
  }

  lemma Target(p: int, d: int)
    ensures Word(p + (d + 0xFF00)) == (p + (d - 256)) % 0x1_0000
  {
  }

  /** The table's cycles, one more when an indexed read carries into the next page,
      and one or two more for a branch taken within or across a page. */
  lemma ChargeExact(c: Cpu)
    ensures var op, mode := c.mem[c.pc], ModeOf(c.mem[c.pc]);
            Cycles.Charge(c) ==
              Decoding.CyclesBits(op / 32, OpOf(op), mode)
              + (if WaitsForCarry(op) && Addressing.CrossesPage(c, mode) then 1 else 0)
              + if IsBranch(OpOf(op)) then BranchCycles(c) else 0
  {
    hide OpOf, ModeOf, Ticks, DisOf, Execute, Address, Fetch, BranchCycles, Addressing.FindsOperand,
         Decoding.CyclesBits, Disassembler.OperandBytes, Addressing.OperandWord, Addressing.ZeroPagePointer;
    var op, c1 := c.mem[c.pc], Address(Fetch(c));
    Addressing.AddressingExact(c);
    PenaltyExact(c1);
    Decoding.TablesFollowBits(op);
    if IsBranch(OpOf(op)) {
      BranchCharged(c);
      Disassembler.BranchMode(op);
    }
    if OpOf(op).Nop? && Addressing.CrossesPage(c, ModeOf(op)) {
      EmptyAsks(op);
    }
  }
}
