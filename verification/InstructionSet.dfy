/** What every opcode does, executed from memory: registers, flags and memory
    after one step, by operation, with the operand where the addressing mode
    says. */
module InstructionSet {
  import opened Bytes
  import opened Opcodes
  import opened Cpu
  import Addressing
  import Arithmetic
  import Decoding
  import Disassembler
  import HiddenState
  import Operations
  import Shifts

  // The operation at pc, and the machine as its routine finds it.
  function Operation(c: Cpu): Op {
    OpOf(c.mem[c.pc])
  }

  function Ready(c: Cpu): Cpu {
    Address(Fetch(c))
  }

  // The operand's address, which Addressing determines, and its value.
  function OperandAddress(c: Cpu): word {
    Ready(c).ea
  }

  function InAccumulator(c: Cpu): bool {
    ModeOf(c.mem[c.pc]).Acc?
  }

  function Operand(c: Cpu): byte {
    if InAccumulator(c) then c.a else c.mem[OperandAddress(c)]
  }

  // Where straight-line code goes on.
  function Behind(c: Cpu): int {
    (c.pc + 1 + Disassembler.OperandBytes(ModeOf(c.mem[c.pc]))) % 0x1_0000
  }

  // Registers and memory after an instruction that goes on behind itself.
  predicate Leaves(c: Cpu, r: Cpu, a: int, x: int, y: int, sp: int, m: Memory) {
    r.pc == Behind(c) && r.a == a && r.x == x && r.y == y && r.sp == sp && r.mem == m
  }

  // A new value for the operand; nothing else but flags.
  predicate Rewritten(c: Cpu, r: Cpu, v: byte) {
    if InAccumulator(c) then Leaves(c, r, v, c.x, c.y, c.sp, c.mem)
    else Leaves(c, r, c.a, c.x, c.y, c.sp, c.mem[OperandAddress(c) := v])
  }

  // The flags in `mask` are as they were; CONSTANT counts as set.
  predicate Keeps(c: Cpu, r: Cpu, mask: bv8) {
    r.status & mask == (c.status | CONSTANT) & mask
  }

  // Zero and sign describe v.
  predicate Describes(r: Cpu, v: int) {
    (Has(r, ZERO) <==> v == 0) && (Has(r, SIGN) <==> v >= 128)
  }

  lemma ReadyIs(c: Cpu)
    ensures var c1 := Ready(c);
            && c1.opcode == c.mem[c.pc] && c1.pc == Behind(c) && c1.status == c.status | CONSTANT
            && c1.a == c.a && c1.x == c.x && c1.y == c.y && c1.sp == c.sp && c1.mem == c.mem
            && Value(c1) == Operand(c) && HiddenState.Alike(Execute(c1), Step(c))
            && CarryIn(c1) == CarryIn(c) && !c1.penaltyop
  {
    hide Execute, Step, Address, Fetch, ModeOf, Disassembler.OperandBytes, Addressing.FindsOperand;
    Addressing.AddressingExact(c);
    HiddenState.StepIsExecute(c);
    Disassembler.ConstantFlag(c.status);
  }

  lemma PenaltyOnly(c: Cpu)
    ensures Value(Penalise(c)) == Value(c) && CarryIn(Penalise(c)) == CarryIn(c)
  {
  }

  // What the dispatch runs.
  lemma DispatchLoadStore(c: Cpu)
    ensures var o, r := OpOf(c.opcode), Execute(c);
            && (o.Lda? ==> r == LoadA(Penalise(c), Value(c))) && (o.Ldx? ==> r == LoadX(Penalise(c), Value(c)))
            && (o.Ldy? ==> r == LoadY(Penalise(c), Value(c)))
            && (o.Lax? ==> var c1 := LoadA(Penalise(c), Value(c)); r == LoadX(c1, Value(c1)))
            && (o.Sta? ==> r == PutValue(c, c.a)) && (o.Stx? ==> r == PutValue(c, c.x))
            && (o.Sty? ==> r == PutValue(c, c.y))
            && (o.Cmp? ==> r == Compare(Penalise(c), c.a))
            && (o.Cpx? ==> r == Compare(c, c.x)) && (o.Cpy? ==> r == Compare(c, c.y))
  {
    hide OpOf, LoadA, LoadX, LoadY, PutValue, Compare, Value, ExecuteBranch, ExecuteFlag, ExecuteRegister,
         ExecuteJump, ExecuteStack, ExecuteCombined, ExecuteMemory;
  }

  lemma DispatchMemory(c: Cpu)
    ensures var o, r := OpOf(c.opcode), Execute(c);
            && (o.Adc? ==> r == DoAdc(c)) && (o.Sbc? ==> r == DoSbc(c)) && (o.And? ==> r == DoAnd(c))
            && (o.Ora? ==> r == DoOra(c)) && (o.Eor? ==> r == DoEor(c)) && (o.Bit? ==> r == DoBit(c))
            && (o.Asl? ==> r == DoAsl(c)) && (o.Lsr? ==> r == DoLsr(c)) && (o.Rol? ==> r == DoRol(c))
            && (o.Ror? ==> r == DoRor(c)) && (o.Inc? ==> r == DoInc(c)) && (o.Dec? ==> r == DoDec(c))
  {
    hide OpOf, DoAdc, DoSbc, DoAnd, DoOra, DoEor, DoBit, DoAsl, DoLsr, DoRol, DoRor, DoInc, DoDec, ExecuteBranch,
         ExecuteFlag, ExecuteRegister, ExecuteJump, ExecuteStack, ExecuteCombined, ExecuteLoadStore;
  }

  lemma DispatchCombined(c: Cpu)
    ensures var o, r := OpOf(c.opcode), Execute(c);
            && (o.Slo? ==> r == DoSlo(c)) && (o.Rla? ==> r == DoRla(c)) && (o.Sre? ==> r == DoSre(c))
            && (o.Rra? ==> r == DoRra(c)) && (o.Sax? ==> r == DoSax(c)) && (o.Dcp? ==> r == DoDcp(c))
            && (o.Isb? ==> r == DoIsb(c))
  {
    hide OpOf, DoSlo, DoRla, DoSre, DoRra, DoSax, DoDcp, DoIsb, ExecuteBranch, ExecuteFlag, ExecuteRegister,
         ExecuteJump, ExecuteStack, ExecuteLoadStore, ExecuteMemory;
  }

  lemma DispatchControl(c: Cpu)
    ensures var o, r := OpOf(c.opcode), Execute(c);
            && (o.Jmp? ==> r == c.(pc := c.ea)) && (o.Jsr? ==> r == DoJsr(c)) && (o.Rts? ==> r == DoRts(c))
            && (o.Rti? ==> r == DoRti(c)) && (o.Brk? ==> r == DoBrk(c))
            && (o.Pha? ==> r == Push8(c, c.a)) && (o.Php? ==> r == DoPhp(c))
            && (o.Pla? ==> r == DoPla(c)) && (o.Plp? ==> r == DoPlp(c))
  {
    hide OpOf, DoJsr, DoRts, DoRti, DoBrk, Push8, DoPhp, DoPla, DoPlp, ExecuteBranch, ExecuteFlag, ExecuteRegister,
         ExecuteCombined, ExecuteLoadStore, ExecuteMemory;
  }

  lemma Loaded(s: bv8, v: byte)
    ensures ZeroSign(s, v) & ZERO == ZERO <==> v == 0
    ensures ZeroSign(s, v) & SIGN == SIGN <==> v >= 128
    ensures ZeroSign(s, v) & 0x7D == s & 0x7D
  {
    Operations.Described(s, v);
  }

  /** lda, ldx, ldy, lax. */
  lemma LoadsExact(c: Cpu)
    ensures var o, r, v := Operation(c), Step(c), Operand(c);
            && (o.Lda? ==> Leaves(c, r, v, c.x, c.y, c.sp, c.mem))
            && (o.Ldx? ==> Leaves(c, r, c.a, v, c.y, c.sp, c.mem))
            && (o.Ldy? ==> Leaves(c, r, c.a, c.x, v, c.sp, c.mem))
            && (o.Lax? ==> Leaves(c, r, v, v, c.y, c.sp, c.mem))
            && (o.Lda? || o.Ldx? || o.Ldy? || o.Lax? ==> Describes(r, v) && Keeps(c, r, 0x7D))
  {
    hide OpOf, Step, Execute, Ready, Value, Operand, Behind, ZeroSign;
    ReadyIs(c);
    var c1, v := Ready(c), Operand(c);
    DispatchLoadStore(c1);
    Loaded(c1.status, v);
    LaxTwice(c1);
    Loaded(ZeroSign(c1.status, v), v);
  }

  // No lax has the accumulator for its operand.
  lemma LaxTwice(c: Cpu)
    ensures OpOf(c.opcode).Lax? ==> Value(LoadA(Penalise(c), Value(c))) == Value(c)
  {
    hide OpOf, ModeOf, ZeroSign;
  }

  // Only operations on registers leave the operand to the accumulator.
  lemma StoresToMemory(c: Cpu)
    ensures Decoding.IsStore(Operation(c)) ==> !InAccumulator(c)
  {
    hide OpOf, ModeOf, Ticks, DisOf;
    Decoding.TablesFollowBits(c.mem[c.pc]);
  }

  /** sta, stx, sty and sax, which stores the bits common to a and x. */
  lemma StoresExact(c: Cpu, k: nat)
    ensures var o, r, ea := Operation(c), Step(c), OperandAddress(c);
            && (o.Sta? ==> Leaves(c, r, c.a, c.x, c.y, c.sp, c.mem[ea := c.a]))
            && (o.Stx? ==> Leaves(c, r, c.a, c.x, c.y, c.sp, c.mem[ea := c.x]))
            && (o.Sty? ==> Leaves(c, r, c.a, c.x, c.y, c.sp, c.mem[ea := c.y]))
            && (o.Sax? ==> Leaves(c, r, c.a, c.x, c.y, c.sp, c.mem[ea := And8(c.a, c.x)]))
            && (Operations.BitSet(And8(c.a, c.x), k) <==> Operations.BitSet(c.a, k) && Operations.BitSet(c.x, k))
            && (o.Sta? || o.Stx? || o.Sty? || o.Sax? ==> r.status == c.status | CONSTANT)
  {
    hide OpOf, Step, Execute, Ready, Value, Operand, Behind, And8, ModeOf, Operations.BitSet;
    ReadyIs(c);
    StoresToMemory(c);
    var c1 := Ready(c);
    DispatchLoadStore(c1);
    DispatchCombined(c1);
    Operations.LogicBitwise(c.a, c.x, k);
    if Decoding.IsStore(Operation(c)) {
      StoreIs(c1);
    }
  }

  lemma StoreIs(c: Cpu)
    requires !ModeOf(c.opcode).Acc?
    ensures PutValue(c, c.a) == c.(mem := c.mem[c.ea := c.a]) && PutValue(c, c.x) == c.(mem := c.mem[c.ea := c.x])
    ensures PutValue(c, c.y) == c.(mem := c.mem[c.ea := c.y])
    ensures HiddenState.Alike(DoSax(c), c.(mem := c.mem[c.ea := And8(c.a, c.x)]))
  {
    hide ModeOf, And8, Count;
    assert c.mem[c.ea := c.a][c.ea := c.x][c.ea := And8(c.a, c.x)] == c.mem[c.ea := And8(c.a, c.x)];
  }

  /** cmp, cpx, cpy. */
  lemma ComparesExact(c: Cpu)
    ensures var o, r, v := Operation(c), Step(c), Operand(c);
            o.Cmp? || o.Cpx? || o.Cpy? ==>
              var register := if o.Cmp? then c.a else if o.Cpx? then c.x else c.y;
              && Leaves(c, r, c.a, c.x, c.y, c.sp, c.mem)
              && (Has(r, CARRY) <==> register >= v) && (Has(r, ZERO) <==> register == v)
              && (Has(r, SIGN) <==> (register - v) % 256 >= 128) && Keeps(c, r, 0x7C)
  {
    hide OpOf, Step, Execute, Ready, Value, Operand, Behind, Compare;
    ReadyIs(c);
    var c1 := Ready(c);
    DispatchLoadStore(c1);
    PenaltyOnly(c1);
    Operations.CompareOrders(Penalise(c1), c1.a);
    Operations.CompareOrders(c1, c1.x);
    Operations.CompareOrders(c1, c1.y);
  }

  /** adc and sbc: the sum or difference with carry, signed overflow. */
  lemma SumsExact(c: Cpu)
    ensures var o, r, v := Operation(c), Step(c), Operand(c);
            && (o.Adc? ==>
                  && r.a + 256 * CarryIn(r) == c.a + v + CarryIn(c)
                  && (Has(r, OVERFLOW) <==>
                      !(-128 <= Arithmetic.Signed(c.a) + Arithmetic.Signed(v) + CarryIn(c) < 128)))
            && (o.Sbc? ==>
                  && r.a - 256 * (1 - CarryIn(r)) == c.a - v - (1 - CarryIn(c))
                  && (Has(r, OVERFLOW) <==>
                      !(-128 <= Arithmetic.Signed(c.a) - Arithmetic.Signed(v) - (1 - CarryIn(c)) < 128)))
            && (o.Adc? || o.Sbc? ==>
                  Leaves(c, r, r.a, c.x, c.y, c.sp, c.mem) && Describes(r, r.a) && Keeps(c, r, 0x3C))
  {
    hide OpOf, Step, Execute, Ready, Value, Operand, Behind, AddWithCarry, Xor8, Arithmetic.Signed, CarryIn, Describes;
    ReadyIs(c);
    var c1 := Ready(c);
    DispatchMemory(c1);
    PenaltyOnly(c1);
    Summed(Penalise(c1), Value(c1));
    if Operation(c).Adc? || Operation(c).Sbc? {
      SameFlags(Execute(c1), Step(c));
    }
  }

  lemma SameFlags(a: Cpu, b: Cpu)
    requires a.status == b.status
    ensures CarryIn(a) == CarryIn(b) && (Has(a, OVERFLOW) <==> Has(b, OVERFLOW))
    ensures forall v: int :: Describes(a, v) <==> Describes(b, v)
  {
  }

  lemma Summed(c: Cpu, v: byte)
    ensures var r := AddWithCarry(c, v);
            && r.a + 256 * CarryIn(r) == c.a + v + CarryIn(c)
            && (Has(r, OVERFLOW) <==> !(-128 <= Arithmetic.Signed(c.a) + Arithmetic.Signed(v) + CarryIn(c) < 128))
            && Describes(r, r.a) && r.status & 0x3C == c.status & 0x3C && r == c.(a := r.a, status := r.status)
    ensures var r := AddWithCarry(c, Xor8(v, 0xFF));
            && r.a - 256 * (1 - CarryIn(r)) == c.a - v - (1 - CarryIn(c))
            && (Has(r, OVERFLOW) <==>
                !(-128 <= Arithmetic.Signed(c.a) - Arithmetic.Signed(v) - (1 - CarryIn(c)) < 128))
            && Describes(r, r.a) && r.status & 0x3C == c.status & 0x3C && r == c.(a := r.a, status := r.status)
  {
    hide Flag, Overflows, Xor8, Arithmetic.Signed;
    Arithmetic.AddExact(c, v);
    Arithmetic.SubtractExact(c, v);
  }

  /** and, ora, eor, bit by bit. */
  lemma LogicExact(c: Cpu, k: nat)
    ensures var o, r, v := Operation(c), Step(c), Operand(c);
            && (o.And? ==> (Operations.BitSet(r.a, k) <==> Operations.BitSet(c.a, k) && Operations.BitSet(v, k)))
            && (o.Ora? ==> (Operations.BitSet(r.a, k) <==> Operations.BitSet(c.a, k) || Operations.BitSet(v, k)))
            && (o.Eor? ==> (Operations.BitSet(r.a, k) <==> Operations.BitSet(c.a, k) != Operations.BitSet(v, k)))
            && (o.And? || o.Ora? || o.Eor? ==>
                  Leaves(c, r, r.a, c.x, c.y, c.sp, c.mem) && Describes(r, r.a) && Keeps(c, r, 0x7D))
  {
    hide OpOf, Step, Execute, Ready, Value, Operand, Behind, Operations.BitSet, DoAnd, DoOra, DoEor;
    ReadyIs(c);
    var c1 := Ready(c);
    DispatchMemory(c1);
    Operations.LogicExact(c1, k);
  }

  /** bit. */
  lemma BitExact(c: Cpu)
    requires Operation(c).Bit?
    ensures var r, v := Step(c), Operand(c);
            && Leaves(c, r, c.a, c.x, c.y, c.sp, c.mem)
            && (Has(r, ZERO) <==> !Operations.Overlap(c.a, v))
            && (Has(r, SIGN) <==> v >= 128) && (Has(r, OVERFLOW) <==> v / 64 % 2 == 1) && Keeps(c, r, 0x3D)
  {
    hide OpOf, Step, Execute, Ready, Value, Operand, Behind, Operations.Overlap, DoBit;
    ReadyIs(c);
    DispatchMemory(Ready(c));
    Operations.BitTests(Ready(c));
  }

  /** inc, dec, asl, lsr, rol, ror: what they put back, and the carry out. */
  lemma RewritesExact(c: Cpu)
    ensures var o, r, v := Operation(c), Step(c), Operand(c);
            && (o.Inc? ==> Rewritten(c, r, (v + 1) % 256) && Describes(r, (v + 1) % 256) && Keeps(c, r, 0x7D))
            && (o.Dec? ==> Rewritten(c, r, (v - 1) % 256) && Describes(r, (v - 1) % 256) && Keeps(c, r, 0x7D))
            && (o.Asl? ==> Shifted(c, r, 2 * v % 256, v >= 128))
            && (o.Rol? ==> Shifted(c, r, (2 * v + CarryIn(c)) % 256, v >= 128))
            && (o.Lsr? ==> Shifted(c, r, v / 2, v % 2 == 1))
            && (o.Ror? ==> Shifted(c, r, (v + 256 * CarryIn(c)) / 2, v % 2 == 1))
  {
    hide OpOf, Step, Execute, Ready, Value, Operand, Behind, CarryIn, ModeOf,
         DoInc, DoDec, DoAsl, DoLsr, DoRol, DoRor, Operations.Counted, Shifts.Shifted, Rewritten, Describes, Keeps;
    ReadyIs(c);
    var c1 := Ready(c);
    DispatchMemory(c1);
    Operations.CountExact(c1);
    Shifts.LeftExact(c1);
    Shifts.RightExact(c1);
    CarryBit(c1);
    var o, r := Operation(c), Step(c);
    if o.Inc? {
      CountedHere(c, DoInc(c1), r, (Value(c1) + 1) % 256);
    } else if o.Dec? {
      CountedHere(c, DoDec(c1), r, (Value(c1) - 1) % 256);
    } else if o.Asl? {
      ShiftedHere(c, DoAsl(c1), r);
    } else if o.Rol? {
      ShiftedHere(c, DoRol(c1), r);
    } else if o.Lsr? {
      ShiftedHere(c, DoLsr(c1), r);
    } else if o.Ror? {
      ShiftedHere(c, DoRor(c1), r);
    }
  }

  // The operand as the routine leaves it, seen from before the instruction.
  lemma CountedHere(c: Cpu, e: Cpu, r: Cpu, v: byte)
    requires Operations.Counted(Ready(c), e, v) && HiddenState.Alike(e, r)
    ensures Rewritten(c, r, v) && Describes(r, v) && Keeps(c, r, 0x7D)
  {
    hide Ready, Step, Execute, Behind, ModeOf, Value, Operand;
    ReadyIs(c);
  }

  lemma ShiftedHere(c: Cpu, e: Cpu, r: Cpu)
    requires Shifts.Shifted(Ready(c), e) && HiddenState.Alike(e, r)
    ensures Shifted(c, r, Value(e), Has(e, CARRY)) && CarryIn(e) == if Has(e, CARRY) then 1 else 0
  {
    hide Ready, Step, Execute, Behind, ModeOf, Operand, Read, CarryIn;
    ReadyIs(c);
    CarryBit(e);
  }

  predicate Shifted(c: Cpu, r: Cpu, v: int, carry: bool) {
    0 <= v < 256 && Rewritten(c, r, v) && Describes(r, v) && Keeps(c, r, 0x7C) && (Has(r, CARRY) <==> carry)
  }

  lemma CarryBit(c: Cpu)
    ensures CarryIn(c) == if Has(c, CARRY) then 1 else 0
  {
  }

  lemma DispatchRegister(c: Cpu)
    ensures var o, r := OpOf(c.opcode), Execute(c);
            && (o.Tax? ==> r == LoadX(c, c.a)) && (o.Tay? ==> r == LoadY(c, c.a)) && (o.Tsx? ==> r == LoadX(c, c.sp))
            && (o.Txa? ==> r == LoadA(c, c.x)) && (o.Tya? ==> r == LoadA(c, c.y)) && (o.Txs? ==> r == c.(sp := c.x))
            && (o.Inx? ==> r == LoadX(c, Byte(c.x + 1))) && (o.Iny? ==> r == LoadY(c, Byte(c.y + 1)))
            && (o.Dex? ==> r == LoadX(c, Byte(c.x - 1))) && (o.Dey? ==> r == LoadY(c, Byte(c.y - 1)))
  {
    hide OpOf, LoadA, LoadX, LoadY, Byte, ExecuteBranch, ExecuteFlag, ExecuteJump, ExecuteStack, ExecuteCombined,
         ExecuteLoadStore, ExecuteMemory;
  }

  /** The transfers, and counting in x and y. */
  lemma TransfersExact(c: Cpu)
    ensures var o, r := Operation(c), Step(c);
            && (o.Tax? ==> Moved(c, r, c.a, c.a, c.y, c.a)) && (o.Tay? ==> Moved(c, r, c.a, c.x, c.a, c.a))
            && (o.Tsx? ==> Moved(c, r, c.a, c.sp, c.y, c.sp))
            && (o.Txa? ==> Moved(c, r, c.x, c.x, c.y, c.x)) && (o.Tya? ==> Moved(c, r, c.y, c.x, c.y, c.y))
            && (o.Txs? ==> Leaves(c, r, c.a, c.x, c.y, c.x, c.mem) && r.status == c.status | CONSTANT)
            && (o.Inx? ==> Moved(c, r, c.a, (c.x + 1) % 256, c.y, (c.x + 1) % 256))
            && (o.Dex? ==> Moved(c, r, c.a, (c.x - 1) % 256, c.y, (c.x - 1) % 256))
            && (o.Iny? ==> Moved(c, r, c.a, c.x, (c.y + 1) % 256, (c.y + 1) % 256))
            && (o.Dey? ==> Moved(c, r, c.a, c.x, (c.y - 1) % 256, (c.y - 1) % 256))
  {
    hide OpOf, Step, Execute, Ready, Value, Operand, Behind, LoadA, LoadX, LoadY, Moved;
    ReadyIs(c);
    var c1, r := Ready(c), Step(c);
    DispatchRegister(c1);
    var o := Operation(c);
    var v := if o.Tax? || o.Tay? then c.a else if o.Tsx? then c.sp else if o.Txa? then c.x else if o.Tya? then c.y
             else if o.Inx? then Byte(c.x + 1) else if o.Iny? then Byte(c.y + 1)
             else if o.Dex? then Byte(c.x - 1) else Byte(c.y - 1);
    MovedTo(c, c1, r, v);
  }

  // Registers after a move of v, which zero and sign describe.
  predicate Moved(c: Cpu, r: Cpu, a: int, x: int, y: int, v: int) {
    Leaves(c, r, a, x, y, c.sp, c.mem) && Describes(r, v) && Keeps(c, r, 0x7D)
  }

  lemma MovedTo(c: Cpu, c1: Cpu, r: Cpu, v: byte)
    requires c1.pc == Behind(c) && c1.status == c.status | CONSTANT
    requires c1.a == c.a && c1.x == c.x && c1.y == c.y && c1.sp == c.sp && c1.mem == c.mem
    ensures HiddenState.Alike(LoadA(c1, v), r) ==> Moved(c, r, v, c.x, c.y, v)
    ensures HiddenState.Alike(LoadX(c1, v), r) ==> Moved(c, r, c.a, v, c.y, v)
    ensures HiddenState.Alike(LoadY(c1, v), r) ==> Moved(c, r, c.a, c.x, v, v)
  {
    hide Behind, ZeroSign, Describes, Keeps;
    if HiddenState.Alike(LoadA(c1, v), r) || HiddenState.Alike(LoadX(c1, v), r) || HiddenState.Alike(LoadY(c1, v), r) {
      FlagsMoved(c, r, v);
    }
  }

  lemma FlagsMoved(c: Cpu, r: Cpu, v: byte)
    requires r.status == ZeroSign(c.status | CONSTANT, v)
    ensures Describes(r, v) && Keeps(c, r, 0x7D)
  {
    hide ZeroSign;
    Loaded(c.status | CONSTANT, v);
  }

  lemma DispatchFlag(c: Cpu)
    ensures IsFlagOp(OpOf(c.opcode)) ==> Execute(c) == c.(status := ExecuteFlag(c))
  {
    hide OpOf, ExecuteFlag, ExecuteBranch, ExecuteRegister, ExecuteJump, ExecuteStack, ExecuteCombined,
         ExecuteLoadStore, ExecuteMemory;
  }

  /** The operations on single flags. */
  lemma FlagsExact(c: Cpu)
    requires IsFlagOp(Operation(c))
    ensures var o, r, s := Operation(c), Step(c), c.status | CONSTANT;
            && Leaves(c, r, c.a, c.x, c.y, c.sp, c.mem)
            && (o.Sec? ==> r.status == s | 0x01) && (o.Clc? ==> r.status == s & 0xFE)
            && (o.Sei? ==> r.status == s | 0x04) && (o.Cli? ==> r.status == s & 0xFB)
            && (o.Sed? ==> r.status == s | 0x08) && (o.Cld? ==> r.status == s & 0xF7)
            && (o.Clv? ==> r.status == s & 0xBF)
  {
    hide OpOf, Step, Execute, Ready, Value, Operand, Behind, ExecuteFlag;
    ReadyIs(c);
    DispatchFlag(Ready(c));
    FlagIs(Ready(c));
  }

  lemma FlagIs(c: Cpu)
    requires IsFlagOp(OpOf(c.opcode))
    ensures var o, s, r := OpOf(c.opcode), c.status, ExecuteFlag(c);
            && (o.Sec? ==> r == s | 0x01) && (o.Clc? ==> r == s & 0xFE)
            && (o.Sei? ==> r == s | 0x04) && (o.Cli? ==> r == s & 0xFB)
            && (o.Sed? ==> r == s | 0x08) && (o.Cld? ==> r == s & 0xF7)
            && (o.Clv? ==> r == s & 0xBF)
  {
    hide OpOf, Flag;
    SetOne(c.status);
    ClearOne(c.status);
  }

  lemma SetOne(s: bv8)
    ensures Flag(s, CARRY, true) == s | 0x01 && Flag(s, INTERRUPT, true) == s | 0x04
    ensures Flag(s, DECIMAL, true) == s | 0x08
  {
  }

  lemma ClearOne(s: bv8)
    ensures Flag(s, CARRY, false) == s & 0xFE && Flag(s, INTERRUPT, false) == s & 0xFB
    ensures Flag(s, DECIMAL, false) == s & 0xF7 && Flag(s, OVERFLOW, false) == s & 0xBF
  {
  }

  lemma DispatchBranch(c: Cpu)
    ensures IsBranch(OpOf(c.opcode)) ==> Execute(c) == ExecuteBranch(c)
  {
    hide OpOf, ExecuteFlag, ExecuteBranch, ExecuteRegister, ExecuteJump, ExecuteStack, ExecuteCombined,
         ExecuteLoadStore, ExecuteMemory;
  }

  // The flag a branch tests, and the value it branches on.
  predicate Taken(c: Cpu, o: Op) {
    || (o.Bcc? && c.status & 0x01 == 0) || (o.Bcs? && c.status & 0x01 != 0)
    || (o.Bne? && c.status & 0x02 == 0) || (o.Beq? && c.status & 0x02 != 0)
    || (o.Bvc? && c.status & 0x40 == 0) || (o.Bvs? && c.status & 0x40 != 0)
    || (o.Bpl? && c.status & 0x80 == 0) || (o.Bmi? && c.status & 0x80 != 0)
  }

  /** The branches: by the signed byte behind the opcode, or on. */
  lemma BranchesExact(c: Cpu)
    requires IsBranch(Operation(c))
    ensures var r, d: int := Step(c), Addressing.InstructionByte(c, 1);
            && r.pc == (if Taken(c, Operation(c)) then (Behind(c) + (if d < 128 then d else d - 256)) % 0x1_0000
                        else Behind(c))
            && r.a == c.a && r.x == c.x && r.y == c.y && r.sp == c.sp && r.mem == c.mem
            && r.status == c.status | CONSTANT
  {
    hide OpOf, Step, Execute, Value, Operand, Behind, ModeOf, Address, Fetch, Addressing.FindsOperand,
         Addressing.InstructionByte;
    ReadyIs(c);
    var c1 := Ready(c);
    DispatchBranch(c1);
    Disassembler.BranchMode(c1.opcode);
    Displaced(c);
    Tested(c, c1);
    BranchIs(c1, Taken(c, Operation(c)), Addressing.InstructionByte(c, 1));
  }

  lemma Displaced(c: Cpu)
    requires ModeOf(c.mem[c.pc]).Rel?
    ensures var d: int := Addressing.InstructionByte(c, 1);
            Ready(c).reladdr == if d >= 0x80 then d + 0xFF00 else d
  {
    hide ModeOf, Read, Address, Fetch;
    Addressing.FetchedBytes(c);
    Addressing.AddressPenalises(Fetch(c));
  }

  // The condition of each branch.
  lemma Tested(c: Cpu, c1: Cpu)
    requires c1.status == c.status | CONSTANT && OpOf(c1.opcode) == Operation(c) && IsBranch(Operation(c))
    ensures ExecuteBranch(c1) == Branch(c1, Taken(c, Operation(c)))
  {
    hide OpOf, Branch;
    TestedBits(c.status);
  }

  lemma TestedBits(s: bv8)
    ensures (s | CONSTANT) & CARRY == CARRY <==> s & 0x01 != 0
    ensures (s | CONSTANT) & ZERO == ZERO <==> s & 0x02 != 0
    ensures (s | CONSTANT) & OVERFLOW == OVERFLOW <==> s & 0x40 != 0
    ensures (s | CONSTANT) & SIGN == SIGN <==> s & 0x80 != 0
  {
  }

  lemma BranchIs(c: Cpu, taken: bool, d: byte)
    requires c.reladdr == if d >= 0x80 then d + 0xFF00 else d
    ensures var r := Branch(c, taken);
            var pc := if !taken then c.pc else (c.pc + (if d < 128 then d else d - 256)) % 0x1_0000;
            r == c.(pc := pc, ticks := r.ticks)
  {
    hide Count;
  }

  // The byte n places above the top of the stack, in page 1.
  function StackByte(c: Cpu, n: int): byte {
    c.mem[0x100 + (c.sp + n) % 256]
  }

  // Memory with v pushed n places below the top.
  function PushedAt(m: Memory, sp: int, n: int, v: byte): Memory {
    m[0x100 + (sp - n) % 256 := v]
  }

  // The word in memory at p.
  function WordAt(m: Memory, p: word): int
    requires p < 0xFFFF
  {
    var lo: int, hi: int := m[p], m[p + 1];
    lo + 256 * hi
  }

  lemma PushIs(c: Cpu, v: byte, w: word)
    ensures Push8(c, v) == c.(mem := PushedAt(c.mem, c.sp, 0, v), sp := (c.sp - 1) % 256)
    ensures Push16(c, w) ==
            c.(mem := PushedAt(PushedAt(c.mem, c.sp, 0, w / 256), c.sp, 1, w % 256), sp := (c.sp - 2) % 256)
  {
    StackPage(c.sp);
    StackPage(c.sp - 1);
  }

  lemma StackPage(n: int)
    ensures Word(0x100 + Byte(n)) == 0x100 + n % 256
  {
  }

  lemma PullIs(c: Cpu)
    ensures Pull8(c).c == c.(sp := (c.sp + 1) % 256) && Pull8(c).v == StackByte(c, 1)
    ensures Pull16(c).c == c.(sp := (c.sp + 2) % 256)
    ensures var lo: int, hi: int := StackByte(c, 1), StackByte(c, 2); Pull16(c).v == lo + 256 * hi
  {
    StackPage(c.sp + 1);
    StackPage(c.sp + 2);
  }

  /** pha, php, pla, plp. */
  lemma StackExact(c: Cpu)
    ensures var o, r, s, up := Operation(c), Step(c), c.status | CONSTANT, StackByte(c, 1);
            && (o.Pha? ==> r.status == s &&
                           Leaves(c, r, c.a, c.x, c.y, (c.sp - 1) % 256, PushedAt(c.mem, c.sp, 0, c.a)))
            && (o.Php? ==> r.status == s &&
                           Leaves(c, r, c.a, c.x, c.y, (c.sp - 1) % 256, PushedAt(c.mem, c.sp, 0, FromBits(s | 0x10))))
            && (o.Pla? ==> Leaves(c, r, up, c.x, c.y, (c.sp + 1) % 256, c.mem) && Describes(r, up) && Keeps(c, r, 0x7D))
            && (o.Plp? ==> Leaves(c, r, c.a, c.x, c.y, (c.sp + 1) % 256, c.mem) && r.status == Bits(up) | 0x20)
  {
    hide OpOf, Step, Execute, Ready, Value, Operand, Behind, Push8, Push16, Pull8, Pull16, PushedAt, LoadA,
         FromBits, Bits, Describes, Keeps;
    ReadyIs(c);
    var c1 := Ready(c);
    DispatchControl(c1);
    PushIs(c1, c1.a, 0);
    PushIs(c1, FromBits(c1.status | BREAK), 0);
    PullIs(c1);
    if Operation(c).Pla? {
      PulledA(c, Pull8(c1).c, Step(c), StackByte(c, 1));
    }
  }

  lemma PulledA(c: Cpu, c1: Cpu, r: Cpu, v: byte)
    requires c1.status == c.status | CONSTANT && HiddenState.Alike(LoadA(c1, v), r)
    ensures Describes(r, v) && Keeps(c, r, 0x7D) && r.a == v && r.x == c1.x && r.y == c1.y && r.sp == c1.sp
    ensures r.mem == c1.mem && r.pc == c1.pc
  {
    hide ZeroSign, Describes, Keeps;
    FlagsMoved(c, r, v);
  }

  /** jmp, jsr, rts, rti. */
  lemma JumpsExact(c: Cpu)
    ensures var o, r, s := Operation(c), Step(c), c.status | CONSTANT;
            && (o.Jmp? ==> GoesTo(c, r, OperandAddress(c), c.sp, c.mem) && r.status == s)
            && (o.Jsr? ==>
                  var back := (Behind(c) - 1) % 0x1_0000;
                  && GoesTo(c, r, OperandAddress(c), (c.sp - 2) % 256,
                            PushedAt(PushedAt(c.mem, c.sp, 0, back / 256), c.sp, 1, back % 256))
                  && r.status == s)
            && (o.Rts? ==>
                  var lo: int, hi: int := StackByte(c, 1), StackByte(c, 2);
                  GoesTo(c, r, (lo + 256 * hi + 1) % 0x1_0000, (c.sp + 2) % 256, c.mem) && r.status == s)
            && (o.Rti? ==>
                  var lo: int, hi: int := StackByte(c, 2), StackByte(c, 3);
                  GoesTo(c, r, lo + 256 * hi, (c.sp + 3) % 256, c.mem) && r.status == Bits(StackByte(c, 1)))
  {
    hide OpOf, Step, Execute, Ready, Value, Operand, Behind, Push8, Push16, PushedAt, Bits, StackByte, DoRts, DoRti;
    ReadyIs(c);
    var c1 := Ready(c);
    SameStack(c, c1);
    DispatchControl(c1);
    PushIs(c1, 0, Word(c1.pc - 1));
    ReturnsIs(c1);
  }

  lemma ReturnsIs(c: Cpu)
    ensures var lo: int, hi: int := StackByte(c, 1), StackByte(c, 2);
            DoRts(c) == c.(pc := (lo + 256 * hi + 1) % 0x1_0000, sp := (c.sp + 2) % 256)
    ensures var lo: int, hi: int := StackByte(c, 2), StackByte(c, 3);
            DoRti(c) == c.(pc := lo + 256 * hi, sp := (c.sp + 3) % 256, status := Bits(StackByte(c, 1)))
  {
    hide Pull8, Pull16, Bits;
    PullIs(c);
    var c2 := Pull8(c).c.(status := Bits(Pull8(c).v));
    PullIs(c2);
    Above(c);
  }

  lemma SameStack(c: Cpu, d: Cpu)
    requires c.sp == d.sp && c.mem == d.mem
    ensures forall n: int :: StackByte(c, n) == StackByte(d, n)
  {
  }

  lemma Above(c: Cpu)
    ensures var d := c.(sp := (c.sp + 1) % 256);
            && StackByte(d, 1) == StackByte(c, 2) && StackByte(d, 2) == StackByte(c, 3)
            && (d.sp + 2) % 256 == (c.sp + 3) % 256
  {
  }

  // Control elsewhere, the registers as they were.
  predicate GoesTo(c: Cpu, r: Cpu, pc: int, sp: int, m: Memory) {
    r.pc == pc && r.a == c.a && r.x == c.x && r.y == c.y && r.sp == sp && r.mem == m
  }

  // pc and these flags pushed, and control at the vector with interrupts off.
  predicate Interrupted(c: Cpu, r: Cpu, back: int, pushed: bv8, vector: word)
    requires vector < 0xFFFF && 0 <= back < 0x1_0000
  {
    var m1 := PushedAt(c.mem, c.sp, 0, back / 256);
    var m2 := PushedAt(PushedAt(m1, c.sp, 1, back % 256), c.sp, 2, FromBits(pushed));
    GoesTo(c, r, WordAt(m2, vector), (c.sp - 3) % 256, m2)
  }

  lemma InterruptIs(c: Cpu, pushed: bv8, vector: word)
    requires vector < 0xFFFF
    ensures var r := Interrupt(c, pushed, vector);
            Interrupted(c, r, c.pc, pushed, vector) && r.status == c.status | INTERRUPT
  {
    hide Push8, Push16, PushedAt, FromBits, Read16, WordAt;
    PushIs(c, 0, c.pc);
    var c1 := Push16(c, c.pc);
    PushIs(c1, FromBits(pushed), 0);
    Below(c1.mem, c.sp, FromBits(pushed));
    VectorRead(Push8(c1, FromBits(pushed)), vector);
  }

  lemma Below(m: Memory, sp: byte, v: byte)
    ensures PushedAt(m, (sp - 2) % 256, 0, v) == PushedAt(m, sp, 2, v) && ((sp - 2) % 256 - 1) % 256 == (sp - 3) % 256
  {
  }

  lemma VectorRead(c: Cpu, p: word)
    requires p < 0xFFFF
    ensures Read16(c, p, p + 1) == WordAt(c.mem, p)
  {
  }

  /** irq6502, nmi6502 and brk: what they push, the vector they take, and that
      interrupts are off behind them. brk goes on two bytes behind itself and
      pushes BREAK. */
  lemma InterruptsExact(c: Cpu)
    ensures Interrupted(c, Irq(c), c.pc, c.status, 0xFFFE) && Irq(c).status == c.status | 0x04
    ensures Interrupted(c, Nmi(c), c.pc, c.status, 0xFFFA) && Nmi(c).status == c.status | 0x04
    ensures Operation(c).Brk? ==>
              && Interrupted(c, Step(c), (Behind(c) + 1) % 0x1_0000, c.status | CONSTANT | 0x10, 0xFFFE)
              && Step(c).status == c.status | CONSTANT | 0x04
  {
    hide OpOf, Step, Execute, Ready, Value, Operand, Behind, Interrupt, PushedAt, FromBits, WordAt;
    InterruptIs(c, c.status, 0xFFFE);
    InterruptIs(c, c.status, 0xFFFA);
    ReadyIs(c);
    var c1 := Ready(c);
    DispatchControl(c1);
    var c2 := c1.(pc := Word(c1.pc + 1));
    InterruptIs(c2, c2.status | BREAK, 0xFFFE);
  }

  lemma CombinesInMemory(c: Cpu)
    ensures Decoding.IsUndocumented(Operation(c)) && !Operation(c).Lax? ==> !InAccumulator(c)
  {
    hide OpOf, ModeOf, Ticks, DisOf;
    Decoding.TablesFollowBits(c.mem[c.pc]);
  }

  // Memory and the registers other than the accumulator after w went back.
  predicate PutBack(c: Cpu, r: Cpu, w: byte) {
    Leaves(c, r, r.a, c.x, c.y, c.sp, c.mem[OperandAddress(c) := w])
  }

  // The first half of a combined operation: the operand rewritten to w.
  predicate Halfway(c: Cpu, d: Cpu, w: byte) {
    && d.pc == Behind(c) && d.a == c.a && d.x == c.x && d.y == c.y && d.sp == c.sp
    && d.mem == c.mem[OperandAddress(c) := w] && Value(d) == w && !ModeOf(d.opcode).Acc?
  }

  lemma HalfShifted(c: Cpu, d: Cpu)
    requires Shifts.Shifted(Ready(c), d) && !InAccumulator(c)
    ensures Halfway(c, d, Value(d)) && d.status & 0x7C == (c.status | CONSTANT) & 0x7C
  {
    hide Ready, Step, Execute, Behind, ModeOf, Operand, Value;
    ReadyIs(c);
  }

  lemma HalfCounted(c: Cpu, d: Cpu, v: byte)
    requires Operations.Counted(Ready(c), d, v) && !InAccumulator(c)
    ensures Halfway(c, d, v) && d.status & 0x7D == (c.status | CONSTANT) & 0x7D
  {
    hide Ready, Step, Execute, Behind, ModeOf, Operand, Value;
    ReadyIs(c);
  }

  lemma RefundAlike(d: Cpu)
    ensures HiddenState.Alike(d, Combined(d))
  {
    hide Count;
  }

  // The second half: an accumulator operation on w.
  lemma OraOn(c: Cpu, d: Cpu, w: byte, k: nat)
    requires Halfway(c, d, w) && d.status & 0x7C == (c.status | CONSTANT) & 0x7C
    ensures var r := Combined(DoOra(d));
            && PutBack(c, r, w) && Describes(r, r.a) && Keeps(c, r, 0x7C) && CarryIn(r) == CarryIn(d)
            && (Operations.BitSet(r.a, k) <==> Operations.BitSet(c.a, k) || Operations.BitSet(w, k))
  {
    hide DoOra, DoAnd, DoEor, Combined, Operations.BitSet, Behind, OperandAddress, ModeOf, Value;
    Operations.LogicExact(d, k);
    LogicDone(c, d, DoOra(d), w);
    RefundAlike(DoOra(d));
  }

  lemma AndOn(c: Cpu, d: Cpu, w: byte, k: nat)
    requires Halfway(c, d, w) && d.status & 0x7C == (c.status | CONSTANT) & 0x7C
    ensures var r := Combined(DoAnd(d));
            && PutBack(c, r, w) && Describes(r, r.a) && Keeps(c, r, 0x7C) && CarryIn(r) == CarryIn(d)
            && (Operations.BitSet(r.a, k) <==> Operations.BitSet(c.a, k) && Operations.BitSet(w, k))
  {
    hide DoOra, DoAnd, DoEor, Combined, Operations.BitSet, Behind, OperandAddress, ModeOf, Value;
    Operations.LogicExact(d, k);
    LogicDone(c, d, DoAnd(d), w);
    RefundAlike(DoAnd(d));
  }

  lemma EorOn(c: Cpu, d: Cpu, w: byte, k: nat)
    requires Halfway(c, d, w) && d.status & 0x7C == (c.status | CONSTANT) & 0x7C
    ensures var r := Combined(DoEor(d));
            && PutBack(c, r, w) && Describes(r, r.a) && Keeps(c, r, 0x7C) && CarryIn(r) == CarryIn(d)
            && (Operations.BitSet(r.a, k) <==> Operations.BitSet(c.a, k) != Operations.BitSet(w, k))
  {
    hide DoOra, DoAnd, DoEor, Combined, Operations.BitSet, Behind, OperandAddress, ModeOf, Value;
    Operations.LogicExact(d, k);
    LogicDone(c, d, DoEor(d), w);
    RefundAlike(DoEor(d));
  }

  lemma LogicDone(c: Cpu, d: Cpu, e: Cpu, w: byte)
    requires Halfway(c, d, w) && d.status & 0x7C == (c.status | CONSTANT) & 0x7C
    requires Operations.OnlyA(d, e) && Operations.Describes(d, e, e.a)
    ensures var r := Combined(e);
            PutBack(c, r, w) && Describes(r, r.a) && Keeps(c, r, 0x7C) && CarryIn(r) == CarryIn(d)
  {
    hide Combined, Behind, OperandAddress, ModeOf, Value;
    RefundAlike(e);
    KeptFlags(c.status | CONSTANT, d.status, e.status);
  }

  lemma KeptFlags(s: bv8, t: bv8, u: bv8)
    requires t & 0x7C == s & 0x7C && u & 0x7D == t & 0x7D
    ensures u & 0x7C == s & 0x7C && (u & CARRY == CARRY <==> t & CARRY == CARRY)
  {
  }

  /** slo: shifted left in memory, then ora. */
  lemma SloExact(c: Cpu, k: nat)
    requires Operation(c).Slo?
    ensures var r, v, w := Step(c), Operand(c), 2 * Operand(c) % 256;
            && Combo(c, r, w) && CarryIn(r) == v / 128
            && (Operations.BitSet(r.a, k) <==> Operations.BitSet(c.a, k) || Operations.BitSet(w, k))
  {
    hide OpOf, Step, Execute, Ready, Operand, Behind, CarryIn, Value, Operations.BitSet, Shifts.Shifted, Combined,
         PutBack, Describes, Keeps, Halfway, DoAsl, DoOra, InAccumulator;
    ReadyIs(c);
    CombinesInMemory(c);
    var c1 := Ready(c);
    DispatchCombined(c1);
    Shifts.LeftExact(c1);
    CarryBit(c1);
    var d := DoAsl(c1);
    CarryBit(d);
    HalfShifted(c, d);
    OraOn(c, d, Value(d), k);
    Across(c, DoSlo(c1), Step(c), Value(d));
  }

  /** rla: rotated left in memory, then and. */
  lemma RlaExact(c: Cpu, k: nat)
    requires Operation(c).Rla?
    ensures var r, v, w := Step(c), Operand(c), (2 * Operand(c) + CarryIn(c)) % 256;
            && Combo(c, r, w) && CarryIn(r) == v / 128
            && (Operations.BitSet(r.a, k) <==> Operations.BitSet(c.a, k) && Operations.BitSet(w, k))
  {
    hide OpOf, Step, Execute, Ready, Operand, Behind, CarryIn, Value, Operations.BitSet, Shifts.Shifted, Combined,
         PutBack, Describes, Keeps, Halfway, DoRol, DoAnd, InAccumulator;
    ReadyIs(c);
    CombinesInMemory(c);
    var c1 := Ready(c);
    DispatchCombined(c1);
    Shifts.LeftExact(c1);
    CarryBit(c1);
    var d := DoRol(c1);
    CarryBit(d);
    HalfShifted(c, d);
    AndOn(c, d, Value(d), k);
    Across(c, DoRla(c1), Step(c), Value(d));
  }

  /** sre: shifted right in memory, then eor. */
  lemma SreExact(c: Cpu, k: nat)
    requires Operation(c).Sre?
    ensures var r, v, w := Step(c), Operand(c), Operand(c) / 2;
            && Combo(c, r, w) && CarryIn(r) == v % 2
            && (Operations.BitSet(r.a, k) <==> Operations.BitSet(c.a, k) != Operations.BitSet(w, k))
  {
    hide OpOf, Step, Execute, Ready, Operand, Behind, CarryIn, Value, Operations.BitSet, Shifts.Shifted, Combined,
         PutBack, Describes, Keeps, Halfway, DoLsr, DoEor, InAccumulator;
    ReadyIs(c);
    CombinesInMemory(c);
    var c1 := Ready(c);
    DispatchCombined(c1);
    Shifts.RightExact(c1);
    CarryBit(c1);
    var d := DoLsr(c1);
    CarryBit(d);
    HalfShifted(c, d);
    EorOn(c, d, Value(d), k);
    Across(c, DoSre(c1), Step(c), Value(d));
  }

  predicate Combo(c: Cpu, r: Cpu, w: int) {
    0 <= w < 256 && PutBack(c, r, w) && Describes(r, r.a) && Keeps(c, r, 0x7C)
  }

  // Machines alike satisfy the same.
  lemma Across(c: Cpu, e: Cpu, r: Cpu, w: byte)
    requires HiddenState.Alike(e, r)
    ensures e.a == r.a && CarryIn(e) == CarryIn(r) && (Has(e, OVERFLOW) <==> Has(r, OVERFLOW))
    ensures PutBack(c, e, w) <==> PutBack(c, r, w)
    ensures (Describes(e, e.a) <==> Describes(r, r.a)) && (Keeps(c, e, 0x7C) <==> Keeps(c, r, 0x7C))
    ensures Keeps(c, e, 0x3C) <==> Keeps(c, r, 0x3C)
  {
    hide Behind, OperandAddress;
  }

  /** rra: rotated right in memory, and added with the bit that came out. */
  lemma RotateAddExact(c: Cpu)
    requires Operation(c).Rra?
    ensures var r, v, w := Step(c), Operand(c), (Operand(c) + 256 * CarryIn(c)) / 2;
            && 0 <= w < 256 && PutBack(c, r, w) && Describes(r, r.a) && Keeps(c, r, 0x3C)
            && r.a + 256 * CarryIn(r) == c.a + w + v % 2
            && (Has(r, OVERFLOW) <==> !(-128 <= Arithmetic.Signed(c.a) + Arithmetic.Signed(w) + v % 2 < 128))
  {
    hide OpOf, Step, Execute, Ready, Operand, Behind, CarryIn, Value, Shifts.Shifted, Combined, AddWithCarry,
         PutBack, Describes, Keeps, Halfway, DoRor, InAccumulator, Arithmetic.Signed;
    ReadyIs(c);
    CombinesInMemory(c);
    var c1 := Ready(c);
    DispatchCombined(c1);
    Shifts.RightExact(c1);
    CarryBit(c1);
    var d := DoRor(c1);
    CarryBit(d);
    HalfShifted(c, d);
    HalfwayValue(c, d, Value(d));
    PenaltyOnly(d);
    Summed(Penalise(d), Value(d));
    SumDone(c, d, DoAdc(d), Value(d));
    Across(c, DoRra(c1), Step(c), Value(d));
    Across(c, DoAdc(d), DoRra(c1), Value(d));
  }

  lemma SumDone(c: Cpu, d: Cpu, e: Cpu, w: byte)
    requires Halfway(c, d, w) && d.status & 0x7C == (c.status | CONSTANT) & 0x7C
    requires e == Penalise(d).(a := e.a, status := e.status) && e.status & 0x3C == d.status & 0x3C && Describes(e, e.a)
    ensures PutBack(c, e, w) && Describes(e, e.a) && Keeps(c, e, 0x3C) && HiddenState.Alike(e, Combined(e))
  {
    hide Combined, Behind, OperandAddress, ModeOf, Value, Describes;
    RefundAlike(e);
    KeptFewer(c.status | CONSTANT, d.status, e.status);
  }

  lemma KeptFewer(s: bv8, t: bv8, u: bv8)
    requires t & 0x7C == s & 0x7C && u & 0x3C == t & 0x3C
    ensures u & 0x3C == s & 0x3C
  {
  }

  /** isb: counted up in memory, and subtracted. */
  lemma CountSubtractExact(c: Cpu)
    requires Operation(c).Isb?
    ensures var r, w := Step(c), (Operand(c) + 1) % 256;
            && PutBack(c, r, w) && Describes(r, r.a) && Keeps(c, r, 0x3C)
            && r.a - 256 * (1 - CarryIn(r)) == c.a - w - (1 - CarryIn(c))
            && (Has(r, OVERFLOW) <==>
                !(-128 <= Arithmetic.Signed(c.a) - Arithmetic.Signed(w) - (1 - CarryIn(c)) < 128))
  {
    hide OpOf, Step, Execute, Ready, Operand, Behind, CarryIn, Value, Operations.Counted, Combined, AddWithCarry,
         PutBack, Describes, Keeps, Halfway, DoInc, InAccumulator, Arithmetic.Signed, Xor8;
    ReadyIs(c);
    CombinesInMemory(c);
    var c1, w := Ready(c), (Operand(c) + 1) % 256;
    DispatchCombined(c1);
    Operations.CountExact(c1);
    var d := DoInc(c1);
    HalfCounted(c, d, w);
    HalfwayValue(c, d, w);
    FewerKept(c.status | CONSTANT, d.status);
    SameCarry(c, d);
    PenaltyOnly(d);
    Summed(Penalise(d), w);
    SumDone(c, d, DoSbc(d), w);
    Across(c, DoIsb(c1), Step(c), w);
    Across(c, DoSbc(d), DoIsb(c1), w);
  }

  lemma HalfwayValue(c: Cpu, d: Cpu, w: byte)
    requires Halfway(c, d, w)
    ensures Value(d) == w && d.a == c.a
  {
  }

  lemma FewerKept(s: bv8, t: bv8)
    requires t & 0x7D == s & 0x7D
    ensures t & 0x7C == s & 0x7C && (t & CARRY == CARRY <==> s & CARRY == CARRY)
  {
  }

  lemma SameCarry(c: Cpu, d: Cpu)
    requires d.status & 0x7D == (c.status | CONSTANT) & 0x7D
    ensures CarryIn(d) == CarryIn(c)
  {
    FewerKept(c.status | CONSTANT, d.status);
    Disassembler.ConstantFlag(c.status);
  }

  /** dcp: counted down in memory, and compared with the accumulator. */
  lemma CountCompareExact(c: Cpu)
    requires Operation(c).Dcp?
    ensures var r, w := Step(c), (Operand(c) - 1) % 256;
            && PutBack(c, r, w) && r.a == c.a && Keeps(c, r, 0x7C)
            && (Has(r, CARRY) <==> c.a >= w) && (Has(r, ZERO) <==> c.a == w)
            && (Has(r, SIGN) <==> (c.a - w) % 256 >= 128)
  {
    hide OpOf, Step, Execute, Ready, Operand, Behind, CarryIn, Value, Operations.Counted, Combined, Compare,
         PutBack, Keeps, Halfway, DoDec, InAccumulator;
    ReadyIs(c);
    CombinesInMemory(c);
    var c1, w := Ready(c), (Operand(c) - 1) % 256;
    DispatchCombined(c1);
    Operations.CountExact(c1);
    var d := DoDec(c1);
    HalfCounted(c, d, w);
    HalfwayValue(c, d, w);
    FewerKept(c.status | CONSTANT, d.status);
    PenaltyOnly(d);
    Operations.CompareOrders(Penalise(d), d.a);
    CompareDone(c, d, Compare(Penalise(d), d.a), w);
    Across(c, DoDcp(c1), Step(c), w);
    Across(c, Compare(Penalise(d), d.a), DoDcp(c1), w);
  }

  lemma CompareDone(c: Cpu, d: Cpu, e: Cpu, w: byte)
    requires Halfway(c, d, w) && d.status & 0x7C == (c.status | CONSTANT) & 0x7C
    requires e == Penalise(d).(status := e.status) && e.status & 0x7C == d.status & 0x7C
    ensures PutBack(c, e, w) && Keeps(c, e, 0x7C) && HiddenState.Alike(e, Combined(e))
  {
    hide Combined, Behind, OperandAddress, ModeOf, Value;
    RefundAlike(e);
  }
}
