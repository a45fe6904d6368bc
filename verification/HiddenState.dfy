/** Between instructions the machine is its registers, flags and memory: the
    latches of the last instruction and the counters never reach the next. So
    a reset machine's whole run is determined by memory and flags. */
module HiddenState {
  import opened Bytes
  import opened Opcodes
  import opened Cpu
  import Disassembler

  // The same registers, flags and memory.
  predicate Alike(a: Cpu, b: Cpu) {
    && a.pc == b.pc && a.sp == b.sp && a.a == b.a && a.x == b.x && a.y == b.y
    && a.status == b.status && a.mem == b.mem
  }

  // The same instruction, decoded: what its operation may look at.
  predicate Decoded(a: Cpu, b: Cpu) {
    Alike(a, b) && a.opcode == b.opcode && (UsesAddress(ModeOf(a.opcode)) ==> a.ea == b.ea)
  }

  predicate UsesAddress(mode: Mode) {
    !mode.Imp? && !mode.Acc? && !mode.Rel?
  }

  // What the addressing modes write, each as a function of what they read.
  predicate Latched(c: Cpu, r: Cpu) {
    r == c.(pc := r.pc, ea := r.ea, reladdr := r.reladdr, penaltyaddr := r.penaltyaddr)
  }

  lemma AddressLatches(c: Cpu)
    ensures Latched(c, Address(c))
  {
    hide ModeOf, Word, Byte, Read, Read16;
  }

  lemma AddressAlike(a: Cpu, b: Cpu)
    requires Alike(a, b) && a.opcode == b.opcode
    ensures Decoded(Address(a), Address(b))
    ensures ModeOf(a.opcode).Rel? ==> Address(a).reladdr == Address(b).reladdr
    ensures Address(a).opcode == a.opcode
  {
    hide Address, ModeOf;
    AddressLatches(a);
    AddressLatches(b);
    Disassembler.AddressPc(a);
    Disassembler.AddressPc(b);
    AddressSame(a, b);
  }

  lemma AddressSame(a: Cpu, b: Cpu)
    requires a.mem == b.mem && a.pc == b.pc && a.x == b.x && a.y == b.y && a.opcode == b.opcode
    ensures UsesAddress(ModeOf(a.opcode)) ==> Address(a).ea == Address(b).ea
    ensures ModeOf(a.opcode).Rel? ==> Address(a).reladdr == Address(b).reladdr
  {
    hide ModeOf, Word, Byte, Read, Read16, Operand16;
    ReadsAlike(a, b);
  }

  lemma ReadsAlike(a: Cpu, b: Cpu)
    requires a.mem == b.mem && a.pc == b.pc
    ensures Operand16(a) == Operand16(b)
    ensures forall p: int {:trigger Read(a, p)} :: Read(a, p) == Read(b, p)
    ensures forall p: int, q: int {:trigger Read16(a, p, q)} :: Read16(a, p, q) == Read16(b, p, q)
  {
    hide Word;
  }

  // Operations without an operand in memory.
  predicate NeedsNoAddress(o: Op) {
    IsBranch(o) || IsFlagOp(o) || IsRegisterOp(o) || IsStackOp(o) || o.Brk? || o.Rti? || o.Rts? || o.Nop?
  }

  lemma AddressTable(op: opcode)
    ensures UsesAddress(ModeOf(op)) || ModeOf(op).Acc? || NeedsNoAddress(OpOf(op))
  {
    hide OpOf, ModeOf;
    if ModeOf(op).Imp? {
      ImpliedOps(op);
    } else if ModeOf(op).Rel? {
      RelativeOps(op);
    }
  }

  lemma ImpliedOps(op: opcode)
    requires ModeOf(op).Imp?
    ensures NeedsNoAddress(OpOf(op))
  {
  }

  lemma RelativeOps(op: opcode)
    requires ModeOf(op).Rel?
    ensures NeedsNoAddress(OpOf(op))
  {
  }

  // The same operand too.
  predicate Same(a: Cpu, b: Cpu) {
    Alike(a, b) && a.opcode == b.opcode && (ModeOf(a.opcode).Acc? || a.ea == b.ea)
  }

  lemma BasicsSame(a: Cpu, b: Cpu)
    requires Same(a, b)
    ensures Value(a) == Value(b) && CarryIn(a) == CarryIn(b) && Same(Penalise(a), Penalise(b))
    ensures forall v: byte :: Same(LoadA(a, v), LoadA(b, v)) && Same(LoadX(a, v), LoadX(b, v))
    ensures forall v: byte :: Same(LoadY(a, v), LoadY(b, v)) && Same(Compare(a, v), Compare(b, v))
    ensures forall v: byte :: Same(AddWithCarry(a, v), AddWithCarry(b, v))
    ensures forall n: int :: Same(PutValue(a, n), PutValue(b, n))
    ensures forall n: int, s: bv8 :: Same(PutValue(a.(status := s), n), PutValue(b.(status := s), n))
  {
    hide ModeOf, Word, Byte, ZeroSign, Flag, Overflows;
  }

  lemma ModifiesSame(a: Cpu, b: Cpu)
    requires Same(a, b)
    ensures Same(DoRol(a), DoRol(b)) && Same(DoRor(a), DoRor(b))
    ensures Same(DoAsl(a), DoAsl(b)) && Same(DoLsr(a), DoLsr(b))
    ensures Same(DoInc(a), DoInc(b)) && Same(DoDec(a), DoDec(b))
  {
    hide Value, PutValue, ZeroSign, Flag, CarryIn, ModeOf;
    BasicsSame(a, b);
  }

  lemma AccumulatesSame(a: Cpu, b: Cpu)
    requires Same(a, b)
    ensures Same(DoAdc(a), DoAdc(b)) && Same(DoSbc(a), DoSbc(b))
    ensures Same(DoAnd(a), DoAnd(b)) && Same(DoOra(a), DoOra(b)) && Same(DoEor(a), DoEor(b))
  {
    hide Value, LoadA, AddWithCarry, And8, Or8, Xor8, ModeOf;
    BasicsSame(a, b);
    BasicsSame(Penalise(a), Penalise(b));
    ValuePenalised(a);
    ValuePenalised(b);
  }

  lemma ValuePenalised(c: Cpu)
    ensures Value(Penalise(c)) == Value(c)
  {
    hide ModeOf;
  }

  lemma RefundSame(a: Cpu, b: Cpu)
    requires Same(a, b)
    ensures Alike(Combined(a), Combined(b))
  {
    hide ModeOf, Count;
  }

  lemma CombinedAlike(a: Cpu, b: Cpu)
    requires Same(a, b)
    ensures Alike(ExecuteCombined(a), ExecuteCombined(b))
  {
    hide OpOf, DoDcp, DoIsb, DoRla, DoRra, DoSlo, DoSre, DoSax, Alike;
    assert a.opcode == b.opcode;
    ModifiesSame(a, b);
    CombinationsAlike(a, b);
    DcpSaxAlike(a, b);
  }

  lemma CombinationsAlike(a: Cpu, b: Cpu)
    requires Same(a, b)
    ensures Alike(DoIsb(a), DoIsb(b)) && Alike(DoRla(a), DoRla(b)) && Alike(DoRra(a), DoRra(b))
    ensures Alike(DoSlo(a), DoSlo(b)) && Alike(DoSre(a), DoSre(b))
  {
    hide Same, Alike, Combined, DoInc, DoRol, DoRor, DoAsl, DoLsr, DoSbc, DoAnd, DoAdc, DoOra, DoEor;
    ModifiesSame(a, b);
    AccumulatesSame(DoInc(a), DoInc(b));
    AccumulatesSame(DoRol(a), DoRol(b));
    AccumulatesSame(DoRor(a), DoRor(b));
    AccumulatesSame(DoAsl(a), DoAsl(b));
    AccumulatesSame(DoLsr(a), DoLsr(b));
    RefundSame(DoSbc(DoInc(a)), DoSbc(DoInc(b)));
    RefundSame(DoAnd(DoRol(a)), DoAnd(DoRol(b)));
    RefundSame(DoAdc(DoRor(a)), DoAdc(DoRor(b)));
    RefundSame(DoOra(DoAsl(a)), DoOra(DoAsl(b)));
    RefundSame(DoEor(DoLsr(a)), DoEor(DoLsr(b)));
  }

  lemma DcpSaxAlike(a: Cpu, b: Cpu)
    requires Same(a, b)
    ensures Alike(DoDcp(a), DoDcp(b)) && Alike(DoSax(a), DoSax(b))
  {
    hide ModeOf, DoDec, Compare, PutValue, And8, Combined;
    ModifiesSame(a, b);
    var a1, b1 := Penalise(DoDec(a)), Penalise(DoDec(b));
    BasicsSame(a1, b1);
    RefundSame(Compare(a1, a1.a), Compare(b1, b1.a));
    BasicsSame(a, b);
    var a2, b2 := PutValue(a, a.a), PutValue(b, b.a);
    BasicsSame(a2, b2);
    var a3, b3 := PutValue(a2, a.x), PutValue(b2, b.x);
    BasicsSame(a3, b3);
    RefundSame(PutValue(a3, And8(a3.a, a3.x)), PutValue(b3, And8(b3.a, b3.x)));
  }

  lemma LoadStoreAlike(a: Cpu, b: Cpu)
    requires Same(a, b)
    ensures Alike(ExecuteLoadStore(a), ExecuteLoadStore(b))
  {
    hide OpOf, ModeOf, Value, LoadA, LoadX, LoadY, PutValue, Compare;
    BasicsSame(a, b);
    BasicsSame(Penalise(a), Penalise(b));
    BasicsSame(LoadA(Penalise(a), Value(a)), LoadA(Penalise(b), Value(b)));
  }

  lemma BitAlike(a: Cpu, b: Cpu)
    requires Same(a, b)
    ensures Alike(DoBit(a), DoBit(b)) && Alike(DoNop(a), DoNop(b))
  {
    hide Value, ModeOf, Flag, And8;
    BasicsSame(a, b);
  }

  lemma MemoryAlike(a: Cpu, b: Cpu)
    requires Same(a, b)
    ensures Alike(ExecuteMemory(a), ExecuteMemory(b))
  {
    hide OpOf, Alike, DoRol, DoRor, DoAsl, DoLsr, DoInc, DoDec, DoAdc, DoSbc, DoAnd, DoOra, DoEor, DoBit, DoNop, ModeOf;
    ModifiesSame(a, b);
    AccumulatesSame(a, b);
    BitAlike(a, b);
  }

  lemma PushesAlike(a: Cpu, b: Cpu)
    requires Alike(a, b)
    ensures forall v: byte :: Alike(Push8(a, v), Push8(b, v))
    ensures forall w: word :: Alike(Push16(a, w), Push16(b, w))
    ensures Alike(Pull8(a).c, Pull8(b).c) && Pull8(a).v == Pull8(b).v
    ensures Alike(Pull16(a).c, Pull16(b).c) && Pull16(a).v == Pull16(b).v
  {
    hide Word, Byte;
  }

  lemma InterruptAlike(a: Cpu, b: Cpu, pushed: bv8, vector: word)
    requires Alike(a, b)
    ensures Alike(Interrupt(a, pushed, vector), Interrupt(b, pushed, vector))
  {
    hide Push8, Push16, Word;
    PushesAlike(a, b);
    PushesAlike(Push16(a, a.pc), Push16(b, b.pc));
  }

  lemma JumpsAlike(a: Cpu, b: Cpu)
    requires Alike(a, b)
    ensures Alike(DoBrk(a), DoBrk(b)) && Alike(DoRti(a), DoRti(b)) && Alike(DoRts(a), DoRts(b))
    ensures a.ea == b.ea ==> Alike(DoJsr(a), DoJsr(b))
  {
    hide Interrupt, Push16, Pull8, Pull16, Word;
    var a1, b1 := a.(pc := Word(a.pc + 1)), b.(pc := Word(b.pc + 1));
    InterruptAlike(a1, b1, a1.status | BREAK, 0xFFFE);
    PushesAlike(a, b);
    var a2, b2 := Pull8(a).c.(status := Bits(Pull8(a).v)), Pull8(b).c.(status := Bits(Pull8(b).v));
    PushesAlike(a2, b2);
  }

  lemma JumpAlike(a: Cpu, b: Cpu)
    requires Alike(a, b) && a.opcode == b.opcode && (OpOf(a.opcode).Jmp? || OpOf(a.opcode).Jsr? ==> a.ea == b.ea)
    ensures Alike(ExecuteJump(a), ExecuteJump(b))
  {
    hide OpOf, DoBrk, DoRti, DoRts, DoJsr;
    JumpsAlike(a, b);
  }

  lemma RegisterAlike(a: Cpu, b: Cpu)
    requires Alike(a, b) && a.opcode == b.opcode
    ensures Alike(ExecuteRegister(a), ExecuteRegister(b))
  {
    hide OpOf, Byte, LoadA, LoadX, LoadY;
    LoadsAlike(a, b);
  }

  lemma LoadsAlike(a: Cpu, b: Cpu)
    requires Alike(a, b)
    ensures forall v: byte :: Alike(LoadA(a, v), LoadA(b, v))
    ensures forall v: byte :: Alike(LoadX(a, v), LoadX(b, v))
    ensures forall v: byte :: Alike(LoadY(a, v), LoadY(b, v))
  {
    hide ZeroSign;
  }

  lemma FlagAlike(a: Cpu, b: Cpu)
    requires a.status == b.status && a.opcode == b.opcode
    ensures ExecuteFlag(a) == ExecuteFlag(b)
  {
    hide OpOf, Flag;
  }

  lemma StackAlike(a: Cpu, b: Cpu)
    requires Alike(a, b) && a.opcode == b.opcode
    ensures Alike(ExecuteStack(a), ExecuteStack(b))
  {
    hide OpOf, Push8, DoPhp, DoPla, DoPlp, Alike;
    PushedAlike(a, b);
  }

  lemma PushedAlike(a: Cpu, b: Cpu)
    requires Alike(a, b)
    ensures Alike(Push8(a, a.a), Push8(b, b.a)) && a.a == b.a
    ensures Alike(DoPhp(a), DoPhp(b)) && Alike(DoPla(a), DoPla(b)) && Alike(DoPlp(a), DoPlp(b))
  {
    hide Push8, Pull8, LoadA;
    PushesAlike(a, b);
    LoadsAlike(Pull8(a).c, Pull8(b).c);
  }

  lemma TakenAlike(a: Cpu, b: Cpu, taken: bool)
    requires Alike(a, b) && a.reladdr == b.reladdr
    ensures Alike(Branch(a, taken), Branch(b, taken))
  {
    hide Word, Count;
  }

  lemma BranchAlike(a: Cpu, b: Cpu)
    requires Alike(a, b) && a.opcode == b.opcode && a.reladdr == b.reladdr
    ensures Alike(ExecuteBranch(a), ExecuteBranch(b))
  {
    hide OpOf, Branch;
    TakenAlike(a, b, true);
    TakenAlike(a, b, false);
  }

  lemma ExecuteAlike(a: Cpu, b: Cpu)
    requires Decoded(a, b) && (ModeOf(a.opcode).Rel? ==> a.reladdr == b.reladdr)
    ensures Alike(Execute(a), Execute(b))
  {
    hide OpOf, ModeOf, ExecuteBranch, ExecuteFlag, ExecuteRegister, ExecuteJump, ExecuteStack, ExecuteCombined,
         ExecuteLoadStore, ExecuteMemory;
    AddressTable(a.opcode);
    Disassembler.BranchMode(a.opcode);
    var o := OpOf(a.opcode);
    if IsBranch(o) {
      BranchAlike(a, b);
    } else if IsFlagOp(o) {
      FlagAlike(a, b);
    } else if IsRegisterOp(o) {
      RegisterAlike(a, b);
    } else if IsJump(o) {
      JumpModes(a.opcode);
      JumpAlike(a, b);
    } else if IsStackOp(o) {
      StackAlike(a, b);
    } else if o.Nop? {
      NopAlike(a, b);
    } else if IsCombined(o) {
      CombinedAlike(a, b);
    } else if IsLoadOrStore(o) {
      LoadStoreAlike(a, b);
    } else {
      MemoryAlike(a, b);
    }
  }

  lemma JumpModes(op: opcode)
    ensures OpOf(op).Jmp? || OpOf(op).Jsr? ==> UsesAddress(ModeOf(op))
  {
    hide ModeOf;
    JumpOpcodes(op);
    JumpTable();
  }

  lemma JumpOpcodes(op: opcode)
    ensures OpOf(op).Jmp? || OpOf(op).Jsr? ==> op == 0x20 || op == 0x4C || op == 0x6C
  {
  }

  lemma JumpTable()
    ensures UsesAddress(ModeOf(0x20)) && UsesAddress(ModeOf(0x4C)) && UsesAddress(ModeOf(0x6C))
  {
  }

  lemma NopAlike(a: Cpu, b: Cpu)
    requires Alike(a, b) && a.opcode == b.opcode && OpOf(a.opcode).Nop?
    ensures Alike(Execute(a), Execute(b))
  {
    hide OpOf;
  }

  lemma FetchAlike(a: Cpu, b: Cpu)
    requires Alike(a, b)
    ensures Alike(Fetch(a), Fetch(b)) && Fetch(a).opcode == Fetch(b).opcode
  {
    hide Word;
  }

  lemma StepIsExecute(c: Cpu)
    ensures Alike(Execute(Address(Fetch(c))), Step(c))
  {
    hide Execute, Address, Fetch, Ticks, Count;
  }

  /** Machines alike before an instruction are alike after it. */
  lemma StepAlike(a: Cpu, b: Cpu)
    requires Alike(a, b)
    ensures Alike(Step(a), Step(b))
  {
    hide Execute, Address, Fetch, Step, ModeOf;
    FetchAlike(a, b);
    AddressAlike(Fetch(a), Fetch(b));
    ExecuteAlike(Address(Fetch(a)), Address(Fetch(b)));
    StepIsExecute(a);
    StepIsExecute(b);
  }

  /** So they stay alike over every run. */
  lemma {:induction false} RunAlike(a: Cpu, b: Cpu, n: nat)
    requires Alike(a, b)
    ensures Alike(Disassembler.StepN(a, n), Disassembler.StepN(b, n))
  {
    hide Step, Alike;
    if n > 0 {
      RunAlike(a, b, n - 1);
      StepAlike(Disassembler.StepN(a, n - 1), Disassembler.StepN(b, n - 1));
    }
  }

  /** It starts at the reset vector if and only if that happens to be 0. */
  lemma ResetIgnoresVector(c: Cpu)
    ensures ResetCpu(c).pc == Read16(c, 0xFFFC, 0xFFFD) <==> c.mem[0xFFFC] == 0 && c.mem[0xFFFD] == 0
  {
  }

  /** A reset forgets where the machine was: whatever its registers, counters and
      latches, the run from there is determined by memory and flags, and starts
      at address 0. */
  lemma ResetForgets(a: Cpu, b: Cpu, n: nat)
    requires a.mem == b.mem && a.status | CONSTANT == b.status | CONSTANT
    ensures Alike(Disassembler.StepN(ResetCpu(a), n), Disassembler.StepN(ResetCpu(b), n))
    ensures var r := ResetCpu(a);
            && r.pc == 0 && r.sp == 0xFD && r.a == 0 && r.x == 0 && r.y == 0
            && r.status == a.status | CONSTANT && r.mem == a.mem
  {
    hide Disassembler.StepN;
    RunAlike(ResetCpu(a), ResetCpu(b), n);
  }
}
