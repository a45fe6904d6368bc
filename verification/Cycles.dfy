/** Cycle accounting: every instruction charges 2 to 8 cycles, so a run of
    exec6502 and step6502 calls never overshoots its goal by more than 7. */
module Cycles {
  import opened Bytes
  import opened Opcodes
  import opened Cpu

  // The combined opcodes whose second half asks for a page-crossing cycle,
  // which they take back.
  predicate RefundsItself(o: Op) {
    o.Dcp? || o.Isb? || o.Rla? || o.Rra? || o.Slo? || o.Sre?
  }

  lemma TickRange(op: opcode)
    ensures 2 <= Ticks(op) <= 8
  {
  }

  lemma LongestRefund(op: opcode)
    ensures Ticks(op) == 8 ==> RefundsItself(OpOf(op))
  {
  }

  lemma LongIsNoBranch(op: opcode)
    ensures Ticks(op) >= 7 ==> !IsBranch(OpOf(op))
  {
  }

  // Cycles an operation adds by itself: a taken branch, or a refund.
  function Extra(c: Cpu): int {
    var o := OpOf(c.opcode);
    if o.Bcc? then Taken(c, !Has(c, CARRY)) else if o.Bcs? then Taken(c, Has(c, CARRY))
    else if o.Beq? then Taken(c, Has(c, ZERO)) else if o.Bmi? then Taken(c, Has(c, SIGN))
    else if o.Bne? then Taken(c, !Has(c, ZERO)) else if o.Bpl? then Taken(c, !Has(c, SIGN))
    else if o.Bvc? then Taken(c, !Has(c, OVERFLOW)) else if o.Bvs? then Taken(c, Has(c, OVERFLOW))
    else if RefundsItself(o) && c.penaltyaddr then -1 else 0
  }

  function Taken(c: Cpu, taken: bool): (n: int)
    ensures 0 <= n <= 2
  {
    if !taken then 0 else if Word(c.pc + c.reladdr) / 256 != c.pc / 256 then 2 else 1
  }

  // What an operation does to the counters, given no penalty flag yet.
  predicate Accounts(c: Cpu, r: Cpu) {
    && r.ticks == Count(c.ticks + Extra(c))
    && r.goal == c.goal && r.opcode == c.opcode && r.penaltyaddr == c.penaltyaddr && r.instructions == c.instructions
    && (RefundsItself(OpOf(c.opcode)) ==> r.penaltyop)
    && (IsBranch(OpOf(c.opcode)) || OpOf(c.opcode).Sax? ==> !r.penaltyop)
  }

  lemma CountSame(n: count)
    ensures Count(n) == n
  {
  }

  lemma BranchAccounts(c: Cpu)
    requires !c.penaltyop && IsBranch(OpOf(c.opcode))
    ensures Accounts(c, ExecuteBranch(c))
  {
    hide OpOf, Word, Has, Count;
    CountSame(c.ticks);
  }

  // A read-modify-write leaves the counters alone.
  predicate Quiet(c: Cpu, r: Cpu) {
    && r.ticks == c.ticks && r.goal == c.goal && r.opcode == c.opcode && r.instructions == c.instructions
    && r.penaltyaddr == c.penaltyaddr && r.penaltyop == c.penaltyop
  }

  lemma LoadsQuiet()
    ensures forall c: Cpu, v: byte :: Quiet(c, LoadA(c, v))
    ensures forall c: Cpu, v: byte :: Quiet(c, LoadX(c, v))
    ensures forall c: Cpu, v: byte :: Quiet(c, LoadY(c, v))
    ensures forall c: Cpu, n: int :: Quiet(c, PutValue(c, n))
    ensures forall c: Cpu, v: byte :: Quiet(c, Compare(c, v))
    ensures forall c: Cpu, v: byte :: Quiet(c, AddWithCarry(c, v))
  {
    hide ModeOf, ZeroSign, Flag, Overflows, Value, WriteMem, Byte;
    forall c: Cpu, n: int
      ensures Quiet(c, PutValue(c, n))
    {
      WriteQuiet(c, c.ea, Byte(n));
    }
  }

  lemma WriteQuiet(c: Cpu, address: int, v: byte)
    ensures Quiet(c, WriteMem(c, address, v))
  {
  }

  lemma StackQuiet(c: Cpu)
    ensures forall v: byte :: Quiet(c, Push8(c, v))
    ensures Quiet(c, DoPhp(c)) && Quiet(c, DoPla(c)) && Quiet(c, DoPlp(c))
    ensures Quiet(c, DoJsr(c)) && Quiet(c, DoRts(c)) && Quiet(c, DoRti(c)) && Quiet(c, DoBrk(c))
  {
    hide Byte, Word, Read, Read16, LoadA;
    LoadsQuiet();
  }

  lemma ModifiesQuiet(c: Cpu)
    ensures Quiet(c, DoRol(c)) && Quiet(c, DoRor(c)) && Quiet(c, DoAsl(c)) && Quiet(c, DoLsr(c))
    ensures Quiet(c, DoInc(c)) && Quiet(c, DoDec(c))
  {
    hide Value, PutValue, ZeroSign, Flag;
    LoadsQuiet();
  }

  // Accumulator operations only ask for the page-crossing penalty.
  lemma AccumulateQuiet(c: Cpu)
    ensures Quiet(Penalise(c), DoAdc(c)) && Quiet(Penalise(c), DoSbc(c)) && Quiet(Penalise(c), DoAnd(c))
    ensures Quiet(Penalise(c), DoOra(c)) && Quiet(Penalise(c), DoEor(c))
    ensures Quiet(Penalise(c), Compare(Penalise(c), c.a))
  {
    hide Value, LoadA, AddWithCarry, Compare, And8, Or8, Xor8;
    LoadsQuiet();
  }

  // A refund takes back the cycle the penalty flags will add.
  lemma RefundAccounts(c: Cpu, r: Cpu)
    requires RefundsItself(OpOf(c.opcode)) && Quiet(Penalise(c), r)
    ensures Accounts(c, Combined(r))
  {
    hide OpOf, Count;
    CountSame(c.ticks);
  }

  lemma QuietThen(c: Cpu, c1: Cpu, r: Cpu)
    requires Quiet(c, c1) && Quiet(Penalise(c1), r)
    ensures Quiet(Penalise(c), r)
  {
  }

  lemma NoRefund(c: Cpu, r: Cpu)
    requires !c.penaltyop && OpOf(c.opcode).Sax? && Quiet(c, r)
    ensures Accounts(c, Combined(r))
  {
    hide OpOf, Count;
    CountSame(c.ticks);
  }

  lemma DcpAccounts(c: Cpu)
    requires OpOf(c.opcode).Dcp?
    ensures Accounts(c, DoDcp(c))
  {
    hide OpOf, DoDec, Compare, Combined, Accounts, Quiet, Penalise;
    ModifiesQuiet(c);
    var c1 := DoDec(c);
    AccumulateQuiet(c1);
    QuietThen(c, c1, Compare(Penalise(c1), c1.a));
    RefundAccounts(c, Compare(Penalise(c1), c1.a));
  }

  lemma IsbAccounts(c: Cpu)
    requires OpOf(c.opcode).Isb?
    ensures Accounts(c, DoIsb(c))
  {
    hide OpOf, DoInc, DoSbc, Combined, Accounts, Quiet, Penalise;
    ModifiesQuiet(c);
    var c1 := DoInc(c);
    AccumulateQuiet(c1);
    QuietThen(c, c1, DoSbc(c1));
    RefundAccounts(c, DoSbc(c1));
  }

  lemma RlaAccounts(c: Cpu)
    requires OpOf(c.opcode).Rla?
    ensures Accounts(c, DoRla(c))
  {
    hide OpOf, DoRol, DoAnd, Combined, Accounts, Quiet, Penalise;
    ModifiesQuiet(c);
    var c1 := DoRol(c);
    AccumulateQuiet(c1);
    QuietThen(c, c1, DoAnd(c1));
    RefundAccounts(c, DoAnd(c1));
  }

  lemma RraAccounts(c: Cpu)
    requires OpOf(c.opcode).Rra?
    ensures Accounts(c, DoRra(c))
  {
    hide OpOf, DoRor, DoAdc, Combined, Accounts, Quiet, Penalise;
    ModifiesQuiet(c);
    var c1 := DoRor(c);
    AccumulateQuiet(c1);
    QuietThen(c, c1, DoAdc(c1));
    RefundAccounts(c, DoAdc(c1));
  }

  lemma SloAccounts(c: Cpu)
    requires OpOf(c.opcode).Slo?
    ensures Accounts(c, DoSlo(c))
  {
    hide OpOf, DoAsl, DoOra, Combined, Accounts, Quiet, Penalise;
    ModifiesQuiet(c);
    var c1 := DoAsl(c);
    AccumulateQuiet(c1);
    QuietThen(c, c1, DoOra(c1));
    RefundAccounts(c, DoOra(c1));
  }

  lemma SreAccounts(c: Cpu)
    requires OpOf(c.opcode).Sre?
    ensures Accounts(c, DoSre(c))
  {
    hide OpOf, DoLsr, DoEor, Combined, Accounts, Quiet, Penalise;
    ModifiesQuiet(c);
    var c1 := DoLsr(c);
    AccumulateQuiet(c1);
    QuietThen(c, c1, DoEor(c1));
    RefundAccounts(c, DoEor(c1));
  }

  lemma SaxAccounts(c: Cpu)
    requires !c.penaltyop && OpOf(c.opcode).Sax?
    ensures Accounts(c, DoSax(c))
  {
    hide OpOf, PutValue, And8, Combined, Accounts;
    LoadsQuiet();
    var c1 := PutValue(PutValue(c, c.a), c.x);
    NoRefund(c, PutValue(c1, And8(c1.a, c1.x)));
  }

  lemma CombinedAccounts(c: Cpu)
    requires !c.penaltyop && IsCombined(OpOf(c.opcode))
    ensures Accounts(c, ExecuteCombined(c))
  {
    hide OpOf, DoDcp, DoIsb, DoRla, DoRra, DoSlo, DoSre, DoSax, Accounts;
    match OpOf(c.opcode)
    case Dcp => DcpAccounts(c);
    case Isb => IsbAccounts(c);
    case Rla => RlaAccounts(c);
    case Rra => RraAccounts(c);
    case Slo => SloAccounts(c);
    case Sre => SreAccounts(c);
    case Sax => SaxAccounts(c);
  }

  lemma RegisterAccounts(c: Cpu)
    requires !c.penaltyop && IsRegisterOp(OpOf(c.opcode))
    ensures Accounts(c, ExecuteRegister(c))
  {
    hide OpOf, Byte, LoadA, LoadX, LoadY, Count, Taken;
    CountSame(c.ticks);
    LoadsQuiet();
  }

  lemma JumpAccounts(c: Cpu)
    requires !c.penaltyop && IsJump(OpOf(c.opcode))
    ensures Accounts(c, ExecuteJump(c))
  {
    hide OpOf, DoJsr, DoRts, DoRti, DoBrk, Count, Taken;
    CountSame(c.ticks);
    StackQuiet(c);
  }

  lemma StackAccounts(c: Cpu)
    requires !c.penaltyop && IsStackOp(OpOf(c.opcode))
    ensures Accounts(c, ExecuteStack(c))
  {
    hide OpOf, Push8, DoPhp, DoPla, DoPlp, Count, Taken;
    CountSame(c.ticks);
    StackQuiet(c);
  }

  lemma QuietAccounts(c: Cpu, r: Cpu)
    requires !c.penaltyop && !IsCombined(OpOf(c.opcode)) && !IsBranch(OpOf(c.opcode))
    requires Quiet(c, r) || Quiet(Penalise(c), r)
    ensures Accounts(c, r)
  {
    hide OpOf, Count, Taken;
    CountSame(c.ticks);
  }

  lemma LoadStoreQuiet(c: Cpu)
    ensures Quiet(c, ExecuteLoadStore(c)) || Quiet(Penalise(c), ExecuteLoadStore(c))
  {
    hide OpOf, Value, LoadA, LoadX, LoadY, PutValue, Compare;
    LoadsQuiet();
  }

  lemma LoadStoreAccounts(c: Cpu)
    requires !c.penaltyop && IsLoadOrStore(OpOf(c.opcode))
    ensures Accounts(c, ExecuteLoadStore(c))
  {
    hide OpOf, ExecuteLoadStore, Accounts;
    LoadStoreQuiet(c);
    QuietAccounts(c, ExecuteLoadStore(c));
  }

  lemma MemoryAccounts(c: Cpu)
    requires !c.penaltyop
    requires !IsBranch(OpOf(c.opcode)) && !IsCombined(OpOf(c.opcode)) && !IsLoadOrStore(OpOf(c.opcode))
    ensures Accounts(c, ExecuteMemory(c))
  {
    hide OpOf, Value, And8,
         DoRol, DoRor, DoAsl, DoLsr, DoInc, DoDec, DoAdc, DoSbc, DoAnd, DoOra, DoEor, Count, Taken;
    CountSame(c.ticks);
    ModifiesQuiet(c);
    AccumulateQuiet(c);
  }

  lemma ExecuteAccounts(c: Cpu)
    requires !c.penaltyop
    ensures Accounts(c, Execute(c))
  {
    hide ExecuteBranch, ExecuteFlag, ExecuteRegister, ExecuteJump, ExecuteStack, ExecuteCombined,
         ExecuteLoadStore, ExecuteMemory, OpOf, Count, Taken;
    CountSame(c.ticks);
    var o := OpOf(c.opcode);
    if IsBranch(o) {
      BranchAccounts(c);
    } else if IsRegisterOp(o) {
      RegisterAccounts(c);
    } else if IsJump(o) {
      JumpAccounts(c);
    } else if IsStackOp(o) {
      StackAccounts(c);
    } else if IsCombined(o) {
      CombinedAccounts(c);
    } else if IsLoadOrStore(o) {
      LoadStoreAccounts(c);
    } else if !IsFlagOp(o) {
      MemoryAccounts(c);
    }
  }

  lemma AddressAccounts(c: Cpu)
    ensures var r := Address(c);
            && r.ticks == c.ticks && r.goal == c.goal && r.instructions == c.instructions
            && r.opcode == c.opcode && r.penaltyop == c.penaltyop
  {
    hide ModeOf, Read, Read16, Word, Byte;
  }

  // The cycles one instruction charges.
  function Charge(c: Cpu): int {
    var c1 := Address(Fetch(c));
    var c2 := Execute(c1);
    Ticks(c1.opcode) + Extra(c1) + if c2.penaltyop && c2.penaltyaddr then 1 else 0
  }

  /** Every instruction charges between 2 and 8 cycles, and an undocumented
      combined one its table value, page crossed or not. */
  lemma ChargeRange(c: Cpu)
    ensures 2 <= Charge(c) <= 8
    ensures Instruction(c).ticks == Count(c.ticks + Charge(c)) && Instruction(c).goal == c.goal
    ensures Instruction(c).instructions == Count(c.instructions + 1)
    ensures IsCombined(OpOf(Read(c, c.pc))) ==> Charge(c) == Ticks(Read(c, c.pc))
  {
    hide Address, Execute, Ticks, OpOf, Taken;
    var c1 := Address(Fetch(c));
    AddressAccounts(Fetch(c));
    ExecuteAccounts(c1);
    TickRange(c1.opcode);
    LongestRefund(c1.opcode);
    LongIsNoBranch(c1.opcode);
    Added(c.ticks, Extra(c1), Charge(c) - Extra(c1));
  }

  lemma Added(t: int, m: int, n: int)
    ensures Count(Count(t + m) + n) == Count(t + m + n)
  {
  }

  // exec6502's loop: instructions until the goal is reached.
  function RunToGoal(c: Cpu): (r: Cpu)
    requires c.goal <= 0xFFFF_FFF8
    ensures r.goal == c.goal && r.ticks >= c.goal
    ensures c.ticks < c.goal ==> r.ticks <= c.goal + 7
    ensures c.ticks >= c.goal ==> r == c
    decreases c.goal - c.ticks
  {
    hide Instruction, Charge;
    ChargeRange(c);
    if c.ticks < c.goal then RunToGoal(Instruction(c)) else c
  }

  /** Within the loop the counter wraps before the goal is reached if and only if
      the instruction carries it past 2^32, which takes a goal in the last 7
      counts; the loop then starts again from below 8. */
  lemma MissesGoal(c: Cpu)
    requires c.ticks < c.goal
    ensures Instruction(c).ticks < c.ticks <==> c.ticks + Charge(c) >= TWO_32
    ensures Instruction(c).ticks < c.ticks ==> Instruction(c).ticks < 8 && c.goal > 0xFFFF_FFF8
    ensures Instruction(c).ticks >= c.ticks ==> Instruction(c).ticks == c.ticks + Charge(c)
  {
    hide Instruction, Charge;
    ChargeRange(c);
  }

  // exec6502(n), for goals before the last 7 counts. The goal may have wrapped.
  function Exec(c: Cpu, n: nat): Cpu
    requires Count(c.goal + n) <= 0xFFFF_FFF8
  {
    RunToGoal(c.(goal := Count(c.goal + n)))
  }

  datatype Drive = ExecFor(n: nat) | StepOnce

  // Calls that keep the counters clear of the wrap.
  predicate Clear(c: Cpu, calls: seq<Drive>)
    decreases |calls|
  {
    calls == [] ||
    match calls[0]
    case ExecFor(n) => c.goal + n <= 0xFFFF_FFF8 && Clear(Exec(c, n), calls[1..])
    case StepOnce => c.ticks <= 0xFFFF_FFF0 && Clear(Step(c), calls[1..])
  }

  function DriveAll(c: Cpu, calls: seq<Drive>): Cpu
    requires Clear(c, calls)
    decreases |calls|
  {
    if calls == [] then c
    else
      match calls[0]
      case ExecFor(n) => DriveAll(Exec(c, n), calls[1..])
      case StepOnce => DriveAll(Step(c), calls[1..])
  }

  /** After any sequence of exec6502 and step6502 calls from zero counters, the
      cycle count has reached its goal and passed it by at most 7. */
  lemma {:induction false} NeverFarPast(c: Cpu, calls: seq<Drive>)
    requires c.goal <= c.ticks <= c.goal + 7 && Clear(c, calls)
    ensures var r := DriveAll(c, calls); r.goal <= r.ticks <= r.goal + 7
    decreases |calls|
  {
    hide RunToGoal, Instruction;
    if calls != [] {
      match calls[0]
      case ExecFor(n) => NeverFarPast(Exec(c, n), calls[1..]);
      case StepOnce => NeverFarPast(Step(c), calls[1..]);
    }
  }
}
