/** The disassembler decodes with tables of its own; where it agrees with the
    emulator, and that its sweep is where straight-line code goes. */
module Disassembler {
  import opened Bytes
  import opened Opcodes
  import opened Cpu

  // opByteLength
  function Length(d: DisType): (n: nat)
    ensures 1 <= n <= 3
  {
    match d
    case NoOperand => 1
    case Immediate => 2
    case ARegister => 1
    case ZeroPage => 2
    case ZeroPageX => 2
    case ZeroPageY => 2
    case Relative => 2
    case Absolute => 3
    case AbsoluteX => 3
    case AbsoluteY => 3
    case AbsoluteIndirect => 3
    case PreIndexed => 2
    case PostIndexed => 2
    case Und => 1
  }

  // The size disassemblyOne returns.
  function Size(m: Memory, address: word): (n: nat)
    ensures 1 <= n <= 3
  {
    if address < 0xFFFA then Length(DisOf(m[address])) else 1
  }

  // The target printed for a branch; not reduced to 16 bits.
  function BranchTarget(m: Memory, address: word): int {
    var disp := m[Word(address + 1)];
    if disp < 0x80 then address + 2 + disp else address + 2 - (0x100 - disp)
  }

  // The address printed for an absolute operand.
  function AbsoluteOperand(m: Memory, address: word): word {
    FromBytes(m[Word(address + 1)], m[Word(address + 2)])
  }

  // Bytes an addressing mode consumes behind the opcode.
  function OperandBytes(mode: Mode): (n: nat)
    ensures n <= 2
  {
    match mode
    case Imp => 0
    case Acc => 0
    case Abso => 2
    case Absx => 2
    case Absy => 2
    case Ind => 2
    case _ => 1
  }

  predicate SizesAgree(op: opcode) {
    Length(DisOf(op)) == 1 + OperandBytes(ModeOf(op))
  }

  /** The two decoders agree on an opcode's size exactly when the disassembler
      knows it or the emulator takes no operand. */
  lemma AgreeExactly(op: opcode)
    ensures SizesAgree(op) <==> !DisOf(op).Und? || OperandBytes(ModeOf(op)) == 0
  {
  }

  // The opcodes shown with a relative operand are exactly the branches.
  lemma RelativeIsBranch(op: opcode)
    ensures DisOf(op).Relative? <==> IsBranch(OpOf(op))
    ensures DisOf(op).Relative? <==> ModeOf(op).Rel?
  {
    ShownRelative(op);
    BranchMode(op);
  }

  lemma ShownRelative(op: opcode)
    ensures DisOf(op).Relative? ==> IsBranch(OpOf(op))
    ensures DisOf(op).Relative? <==> ModeOf(op).Rel?
  {
  }

  lemma BranchMode(op: opcode)
    ensures IsBranch(OpOf(op)) ==> ModeOf(op).Rel?
  {
  }

  lemma AddressPc(c: Cpu)
    ensures Address(c).pc == Word(c.pc + OperandBytes(ModeOf(c.opcode)))
    ensures Address(c).opcode == c.opcode && Address(c).status == c.status && Address(c).mem == c.mem
  {
    hide ModeOf, Read, Read16, Byte, Operand16;
  }

  // Operations that only ever continue at the next instruction.
  predicate Straight(op: opcode) {
    !IsBranch(OpOf(op)) && !IsJump(OpOf(op))
  }

  predicate SamePc(c: Cpu, r: Cpu) {
    r.pc == c.pc
  }

  lemma ModifyPc(c: Cpu)
    ensures SamePc(c, DoRol(c)) && SamePc(c, DoRor(c)) && SamePc(c, DoAsl(c)) && SamePc(c, DoLsr(c))
    ensures SamePc(c, DoInc(c)) && SamePc(c, DoDec(c))
  {
    hide Value, Flag, Byte, WriteMem;
    WritesPc();
  }

  lemma WritePc(c: Cpu, address: int, v: byte)
    ensures SamePc(c, WriteMem(c, address, v))
  {
  }

  lemma WritesPc()
    ensures forall c: Cpu, address: int, v: byte :: SamePc(c, WriteMem(c, address, v))
  {
  }

  lemma AccumulatePc(c: Cpu)
    ensures SamePc(c, DoAdc(c)) && SamePc(c, DoSbc(c))
    ensures SamePc(c, DoAnd(c)) && SamePc(c, DoOra(c)) && SamePc(c, DoEor(c))
  {
    hide Value, Flag, Overflows, And8, Or8, Xor8;
  }

  lemma RefundPc(c: Cpu)
    ensures SamePc(c, Combined(c))
  {
    hide Count;
  }

  lemma CombinationsPc(c: Cpu)
    ensures SamePc(c, DoIsb(c)) && SamePc(c, DoRla(c)) && SamePc(c, DoRra(c))
    ensures SamePc(c, DoSlo(c)) && SamePc(c, DoSre(c))
  {
    hide DoRol, DoRor, DoAsl, DoLsr, DoInc, DoDec, DoAdc, DoSbc, DoAnd, DoOra, DoEor, Combined;
    ModifyPc(c);
    AccumulatePc(DoInc(c));
    AccumulatePc(DoRol(c));
    AccumulatePc(DoRor(c));
    AccumulatePc(DoAsl(c));
    AccumulatePc(DoLsr(c));
    RefundPc(DoSbc(DoInc(c)));
    RefundPc(DoAnd(DoRol(c)));
    RefundPc(DoAdc(DoRor(c)));
    RefundPc(DoOra(DoAsl(c)));
    RefundPc(DoEor(DoLsr(c)));
  }

  lemma DcpSaxPc(c: Cpu)
    ensures SamePc(c, DoDcp(c)) && SamePc(c, DoSax(c))
  {
    hide DoDec, Compare, PutValue, And8, Combined, Penalise;
    ModifyPc(c);
    ComparePc(DoDec(c), DoDec(c).a);
    RefundPc(Compare(Penalise(DoDec(c)), DoDec(c).a));
    var c1 := PutValue(PutValue(c, c.a), c.x);
    PutPc(c, c.a);
    PutPc(PutValue(c, c.a), c.x);
    PutPc(c1, And8(c1.a, c1.x));
    RefundPc(PutValue(c1, And8(c1.a, c1.x)));
  }

  lemma ComparePc(c: Cpu, v: byte)
    ensures SamePc(c, Compare(Penalise(c), v))
  {
    hide Value, Flag;
  }

  lemma PutPc(c: Cpu, n: int)
    ensures SamePc(c, PutValue(c, n))
  {
    hide ModeOf, WriteMem, Byte;
    WritePc(c, c.ea, Byte(n));
  }

  lemma CombinedPc(c: Cpu)
    ensures SamePc(c, ExecuteCombined(c))
  {
    hide OpOf, DoDcp, DoIsb, DoRla, DoRra, DoSlo, DoSre, DoSax;
    CombinationsPc(c);
    DcpSaxPc(c);
  }

  lemma StackPc(c: Cpu)
    ensures SamePc(c, ExecuteStack(c))
  {
    hide OpOf, WriteMem, Read, ZeroSign, Byte;
    WritesPc();
  }

  lemma LoadStorePc(c: Cpu)
    ensures SamePc(c, ExecuteLoadStore(c))
  {
    hide OpOf, Value, ZeroSign, Flag, WriteMem;
    WritesPc();
  }

  lemma MemoryPc(c: Cpu)
    ensures SamePc(c, ExecuteMemory(c))
  {
    hide OpOf, Value, ZeroSign, Flag, And8,
         DoRol, DoRor, DoAsl, DoLsr, DoInc, DoDec, DoAdc, DoSbc, DoAnd, DoOra, DoEor;
    ModifyPc(c);
    AccumulatePc(c);
  }

  lemma ExecutePc(c: Cpu)
    requires Straight(c.opcode)
    ensures Execute(c).pc == c.pc
  {
    hide ExecuteBranch, ExecuteFlag, ExecuteJump, ExecuteStack, ExecuteCombined, ExecuteLoadStore, ExecuteMemory,
         OpOf, ZeroSign, Byte;
    var o := OpOf(c.opcode);
    if IsStackOp(o) {
      StackPc(c);
    } else if IsCombined(o) {
      CombinedPc(c);
    } else if IsLoadOrStore(o) {
      LoadStorePc(c);
    } else {
      MemoryPc(c);
    }
  }

  // The instruction at pc, as both decoders see it.
  function OpcodeAt(c: Cpu): opcode {
    c.mem[c.pc]
  }

  lemma FetchedOpcode(c: Cpu)
    ensures Fetch(c).opcode == OpcodeAt(c)
  {
  }

  // After fetch and addressing, pc is behind the instruction.
  lemma FetchedPc(c: Cpu)
    ensures var c1 := Address(Fetch(c));
            c1.opcode == OpcodeAt(c) && c1.mem == c.mem && c1.status == c.status | CONSTANT
            && c1.pc == Word(c.pc + 1 + OperandBytes(ModeOf(OpcodeAt(c))))
  {
    hide Address, ModeOf, OperandBytes, Word;
    WordSame(c.pc);
    AddressPc(Fetch(c));
    Wrapped(c.pc, 1, OperandBytes(ModeOf(OpcodeAt(c))));
  }

  lemma WordSame(n: word)
    ensures Word(n) == n
  {
  }

  lemma Wrapped(n: int, a: int, b: int)
    ensures Word(Word(n + a) + b) == Word(n + a + b)
  {
  }

  /** Code that goes straight on continues where the disassembler says the next
      instruction is. */
  lemma SizeIsNext(c: Cpu)
    requires c.pc < 0xFFFA && Straight(OpcodeAt(c)) && !DisOf(OpcodeAt(c)).Und?
    ensures Step(c).pc == c.pc + Size(c.mem, c.pc)
  {
    hide Address, Execute, Fetch, OpOf, ModeOf, DisOf, Ticks;
    FetchedPc(c);
    ExecutePc(Address(Fetch(c)));
    AgreeExactly(OpcodeAt(c));
  }

  // Whether the flags at the instruction take this branch.
  predicate Taken(c: Cpu, o: Op)
    requires IsBranch(o)
  {
    match o
    case Bcc => !Has(c, CARRY)
    case Bcs => Has(c, CARRY)
    case Beq => Has(c, ZERO)
    case Bmi => Has(c, SIGN)
    case Bne => !Has(c, ZERO)
    case Bpl => !Has(c, SIGN)
    case Bvc => !Has(c, OVERFLOW)
    case Bvs => Has(c, OVERFLOW)
  }

  lemma ConstantFlag(s: bv8)
    ensures (s | CONSTANT) & CARRY == s & CARRY && (s | CONSTANT) & ZERO == s & ZERO
    ensures (s | CONSTANT) & SIGN == s & SIGN && (s | CONSTANT) & OVERFLOW == s & OVERFLOW
  {
  }

  lemma BranchPc(c: Cpu)
    requires IsBranch(OpOf(c.opcode))
    ensures Execute(c).pc == if Taken(c, OpOf(c.opcode)) then Word(c.pc + c.reladdr) else c.pc
  {
    hide OpOf, Has, Word, Count, ExecuteFlag, ExecuteRegister, ExecuteStack, ExecuteCombined,
         ExecuteLoadStore, ExecuteMemory;
  }

  lemma RelativeAddress(c: Cpu)
    requires ModeOf(c.opcode).Rel?
    ensures Address(c).reladdr == if Read(c, c.pc) >= 0x80 then Read(c, c.pc) + 0xFF00 else Read(c, c.pc)
  {
    hide ModeOf, Read;
  }

  /** A branch goes to the printed target, modulo 2^16, or to the next
      instruction. */
  lemma BranchGoesWherePrinted(c: Cpu)
    requires c.pc < 0xFFFA && DisOf(OpcodeAt(c)).Relative?
    ensures IsBranch(OpOf(OpcodeAt(c)))
    ensures Step(c).pc == if Taken(c, OpOf(OpcodeAt(c))) then Word(BranchTarget(c.mem, c.pc)) else c.pc + 2
  {
    hide Address, Execute, OpOf, ModeOf, DisOf, Ticks, Count, Word, Read, BranchTarget;
    WordSame(c.pc + 2);
    var c1 := Address(Fetch(c));
    RelativeIsBranch(OpcodeAt(c));
    FetchedPc(c);
    FetchedOpcode(c);
    RelativeAddress(Fetch(c));
    BranchPc(c1);
    ConstantFlag(c.status);
    DisplacementPrinted(c, c1.reladdr);
  }

  // Adding the sign-extended displacement behind the instruction.
  lemma DisplacementPrinted(c: Cpu, reladdr: word)
    requires c.pc < 0xFFFA
    requires var d := Read(Fetch(c), Fetch(c).pc); reladdr == if d >= 0x80 then d + 0xFF00 else d
    ensures Word(c.pc + 2 + reladdr) == Word(BranchTarget(c.mem, c.pc))
  {
  }

  lemma AbsoluteAddress(c: Cpu)
    requires ModeOf(c.opcode).Abso?
    ensures Address(c).ea == Operand16(c)
  {
    hide ModeOf, Operand16;
  }

  lemma JumpPc(c: Cpu)
    requires OpOf(c.opcode).Jmp? || OpOf(c.opcode).Jsr?
    ensures Execute(c).pc == c.ea
  {
    hide OpOf, WriteMem;
  }

  lemma JumpTables(op: opcode)
    requires op == 0x20 || op == 0x4C
    ensures DisOf(op).Absolute? && ModeOf(op).Abso? && (OpOf(op).Jmp? || OpOf(op).Jsr?)
  {
  }

  lemma OperandPrinted(c: Cpu)
    requires c.pc < 0xFFFA
    ensures Operand16(Fetch(c)) == AbsoluteOperand(c.mem, c.pc)
  {
  }

  /** jmp and jsr with an absolute operand go to the printed address. */
  lemma JumpGoesWherePrinted(c: Cpu)
    requires c.pc < 0xFFFA && (OpcodeAt(c) == 0x20 || OpcodeAt(c) == 0x4C)
    ensures DisOf(OpcodeAt(c)).Absolute? && Step(c).pc == AbsoluteOperand(c.mem, c.pc)
  {
    hide Address, Execute, Ticks, OpOf, ModeOf, DisOf, Count, Operand16, AbsoluteOperand;
    JumpTables(OpcodeAt(c));
    FetchedPc(c);
    OperandPrinted(c);
    AbsoluteAddress(Fetch(c));
    JumpPc(Address(Fetch(c)));
  }

  // disassemble(begin, end): the addresses it decodes.
  function Sweep(m: Memory, i: nat, end: word): seq<word>
    decreases 0x1_0000 - i
  {
    if i > end then [] else [i] + Sweep(m, i + Size(m, i), end)
  }

  // The n-th address of a sweep without end.
  function SweepAt(m: Memory, begin: word, n: nat): nat {
    if n == 0 then begin
    else
      var p := SweepAt(m, begin, n - 1);
      p + Size(m, Word(p))
  }

  lemma {:induction false} SweepIndex(m: Memory, i: nat, end: word, n: nat)
    requires n < |Sweep(m, i, end)|
    ensures i <= end && Sweep(m, i, end)[n] == SweepAt(m, i, n)
    decreases n
  {
    if n > 0 {
      SweepIndex(m, i + Size(m, i), end, n - 1);
      SweepShift(m, i, n - 1);
    }
  }

  lemma {:induction false} SweepGrows(m: Memory, i: word, k: nat, n: nat)
    requires k <= n
    ensures SweepAt(m, i, k) + (n - k) <= SweepAt(m, i, n)
    decreases n
  {
    hide Size;
    if k < n {
      SweepGrows(m, i, k, n - 1);
    }
  }

  /** The sweep goes as far as its end, and no further: it visits an n-th address
      if and only if that lies at or before the end. */
  lemma {:induction false} SweepReaches(m: Memory, i: word, end: word, n: nat)
    ensures n < |Sweep(m, i, end)| <==> SweepAt(m, i, n) <= end
    decreases n
  {
    hide Size;
    SweepGrows(m, i, 0, n);
    if n > 0 && i <= end {
      SweepGrows(m, i, 1, n);
      FirstStep(m, i);
      if i + Size(m, i) < 0x1_0000 {
        SweepShift(m, i, n - 1);
        SweepReaches(m, i + Size(m, i), end, n - 1);
      }
    }
  }

  lemma FirstStep(m: Memory, i: word)
    ensures SweepAt(m, i, 1) == i + Size(m, i)
  {
    hide Size;
    WordSame(i);
    assert SweepAt(m, i, 0) == i;
  }

  /** From 0xfffa on, where the vectors lie, it visits every address. */
  lemma SweepVisitsVectors(m: Memory, i: word, n: nat)
    requires 0xFFFA <= SweepAt(m, i, n) < 0x1_0000
    ensures SweepAt(m, i, n + 1) == SweepAt(m, i, n) + 1
  {
    WordSame(SweepAt(m, i, n));
  }

  lemma {:induction false} SweepShift(m: Memory, i: word, n: nat)
    requires i + Size(m, i) < 0x1_0000
    ensures SweepAt(m, i + Size(m, i), n) == SweepAt(m, i, n + 1)
  {
    hide Size;
    if n > 0 {
      SweepShift(m, i, n - 1);
    }
  }

  lemma SizeSame(a: Memory, b: Memory, address: word)
    requires a[address] == b[address]
    ensures Size(a, address) == Size(b, address)
  {
  }

  function StepN(c: Cpu, n: nat): Cpu {
    if n == 0 then c else Step(StepN(c, n - 1))
  }

  lemma {:induction false} StepsAdd(mid: Cpu, c: Cpu, m: nat, n: nat)
    requires mid == StepN(c, m)
    ensures StepN(mid, n) == StepN(c, m + n)
  {
    hide Step;
    if n > 0 {
      StepsAdd(mid, c, m, n - 1);
    }
  }

  // The next n steps run straight through known opcodes below 0xfffa, and no
  // store has changed an opcode byte by the time it runs.
  predicate RunsStraight(c: Cpu, n: nat) {
    forall i :: 0 <= i < n ==>
      var s := StepN(c, i);
      s.pc < 0xFFFA && Straight(OpcodeAt(s)) && !DisOf(OpcodeAt(s)).Und? && s.mem[s.pc] == c.mem[s.pc]
  }

  /** n steps of straight-line code visit exactly the addresses of the sweep. */
  lemma {:induction false} SweepIsRun(c: Cpu, n: nat)
    requires RunsStraight(c, n)
    ensures StepN(c, n).pc == SweepAt(c.mem, c.pc, n)
  {
    hide Step, Straight, Size, DisOf, OpOf, Word;
    WordSame(StepN(c, n).pc);
    if n > 0 {
      WordSame(StepN(c, n - 1).pc);
      var s := StepN(c, n - 1);
      assert s.pc < 0xFFFA && Straight(OpcodeAt(s)) && !DisOf(OpcodeAt(s)).Und? && s.mem[s.pc] == c.mem[s.pc];
      SweepIsRun(c, n - 1);
      SizeIsNext(s);
      SizeSame(s.mem, c.mem, s.pc);
    }
  }

  // The loop of disassemble.
  method Disassemble(memory: array<byte>, begin: word, end: word) returns (visited: seq<word>)
    requires memory.Length == 0x1_0000
    ensures visited == Sweep(memory[..], begin, end)
    ensures forall n: nat :: n < |visited| <==> SweepAt(memory[..], begin, n) <= end
    ensures forall n: nat :: n < |visited| ==> visited[n] == SweepAt(memory[..], begin, n)
  {
    hide Size;
    visited := [];
    var i: nat := begin;
    while i <= end
      invariant visited + Sweep(memory[..], i, end) == Sweep(memory[..], begin, end)
      decreases 0x1_0000 - i
    {
      visited := visited + [i];
      i := i + Size(memory[..], i);
    }
    forall n: nat
      ensures n < |visited| <==> SweepAt(memory[..], begin, n) <= end
      ensures n < |visited| ==> visited[n] == SweepAt(memory[..], begin, n)
    {
      SweepReaches(memory[..], begin, end, n);
      if n < |visited| {
        SweepIndex(memory[..], begin, end, n);
      }
    }
  }
}
