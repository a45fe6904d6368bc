/** The usual program for numbers of any length: lda x, adc y, sta r for one digit
    after the other, all in page zero, executed from memory. It adds; with sbc in
    place of adc it subtracts. */
module Multibyte {
  import opened Bytes
  import opened Opcodes
  import opened Cpu
  import Arithmetic
  import Disassembler

  const LDA: opcode := 0xA5
  const ADC: opcode := 0x65
  const SBC: opcode := 0xE5
  const STA: opcode := 0x85

  lemma MovesTable()
    ensures ModeOf(0xA5).Zp? && ModeOf(0x85).Zp?
  {
  }

  lemma SumsTable()
    ensures ModeOf(0x65).Zp? && ModeOf(0xE5).Zp?
  {
  }

  lemma MoveOps()
    ensures OpOf(0xA5).Lda? && OpOf(0x85).Sta?
  {
  }

  lemma SumOps()
    ensures OpOf(0x65).Adc? && OpOf(0xE5).Sbc?
  {
  }

  lemma Moves(c: Cpu)
    ensures c.opcode == LDA ==> Execute(c) == LoadA(Penalise(c), Value(c))
    ensures c.opcode == STA ==> Execute(c) == PutValue(c, c.a)
  {
    hide OpOf, LoadA, Value, PutValue, ExecuteBranch, ExecuteFlag, ExecuteRegister, ExecuteJump, ExecuteStack,
         ExecuteCombined, ExecuteMemory;
    MoveOps();
  }

  lemma Summed(c: Cpu)
    ensures c.opcode == ADC ==> Execute(c) == DoAdc(c)
    ensures c.opcode == SBC ==> Execute(c) == DoSbc(c)
  {
    hide OpOf, DoAdc, DoSbc, ExecuteBranch, ExecuteFlag, ExecuteRegister, ExecuteJump, ExecuteStack, ExecuteCombined,
         ExecuteLoadStore;
    SumOps();
  }

  // What a program can see of an instruction with an operand in page zero.
  lemma Decoded(c: Cpu)
    requires ModeOf(c.mem[c.pc]).Zp?
    ensures var c1 := Address(Fetch(c));
            && c1.opcode == c.mem[c.pc] && c1.ea == c.mem[Word(c.pc + 1)] && c1.pc == Word(c.pc + 2)
            && c1.a == c.a && c1.mem == c.mem && CarryIn(c1) == CarryIn(c) && Value(c1) == c.mem[c1.ea]
  {
    hide ModeOf, CarryIn;
    CarryFetched(c);
    WordTwice(c.pc);
  }

  lemma WordTwice(n: int)
    ensures Word(Word(n + 1) + 1) == Word(n + 2) && Word(Word(n + 1)) == Word(n + 1)
  {
  }

  lemma CarryFetched(c: Cpu)
    ensures forall d: Cpu :: d.status == c.status | CONSTANT ==> CarryIn(d) == CarryIn(c)
  {
    Disassembler.ConstantFlag(c.status);
  }

  // The same, of the state behind it.
  lemma Finished(c: Cpu)
    ensures var r := Execute(Address(Fetch(c)));
            Step(c).a == r.a && Step(c).mem == r.mem && Step(c).pc == r.pc && CarryIn(Step(c)) == CarryIn(r)
  {
    hide Execute, Address, Fetch, Ticks, Count;
  }

  // The operand address of the instruction at pc.
  function Operand(c: Cpu): byte {
    c.mem[Word(c.pc + 1)]
  }

  lemma LoadStep(c: Cpu)
    requires c.mem[c.pc] == LDA
    ensures var r := Step(c);
            r.a == c.mem[Operand(c)] && r.mem == c.mem && r.pc == Word(c.pc + 2) && CarryIn(r) == CarryIn(c)
  {
    hide Address, Fetch, Execute, ModeOf, LoadA, Step, Value, CarryIn;
    MovesTable();
    Decoded(c);
    Finished(c);
    var c1 := Address(Fetch(c));
    Moves(c1);
    Loaded(Penalise(c1), Value(c1));
    CarryPenalised(c1);
  }

  lemma Loaded(c: Cpu, v: byte)
    ensures LoadA(c, v).a == v && LoadA(c, v).mem == c.mem && LoadA(c, v).pc == c.pc
    ensures CarryIn(LoadA(c, v)) == CarryIn(c)
  {
    Arithmetic.LoadKeepsCarry(c, v);
  }

  lemma CarryPenalised(c: Cpu)
    ensures CarryIn(Penalise(c)) == CarryIn(c)
  {
  }

  // Carry of an addition, borrow of a subtraction.
  function Carried(c: Cpu, op: opcode): int {
    if op == ADC then CarryIn(c) else 1 - CarryIn(c)
  }

  function Signed(op: opcode, v: int): int {
    if op == ADC then v else -v
  }

  lemma CombineStep(c: Cpu, op: opcode)
    requires c.mem[c.pc] == op && (op == ADC || op == SBC)
    ensures var r := Step(c);
            && r.a + Signed(op, 256 * Carried(r, op)) == c.a + Signed(op, c.mem[Operand(c)] + Carried(c, op))
            && r.mem == c.mem && r.pc == Word(c.pc + 2)
  {
    hide Address, Fetch, Execute, ModeOf, AddWithCarry, Step, Value, Xor8, CarryIn;
    SumsTable();
    Decoded(c);
    Finished(c);
    var c1 := Address(Fetch(c));
    Summed(c1);
    CarryPenalised(c1);
    Sums(Penalise(c1), Value(c1));
    assert Step(c).mem == c.mem;
  }

  lemma Sums(c: Cpu, v: byte)
    ensures var r := AddWithCarry(c, v);
            r.a + 256 * CarryIn(r) == c.a + v + CarryIn(c) && r.mem == c.mem && r.pc == c.pc
    ensures var r := AddWithCarry(c, Xor8(v, 0xFF));
            r.a - 256 * (1 - CarryIn(r)) == c.a - v - (1 - CarryIn(c)) && r.mem == c.mem && r.pc == c.pc
  {
    hide Flag, Overflows, Xor8;
    Arithmetic.AddExact(c, v);
    Arithmetic.SubtractExact(c, v);
  }

  lemma StoreStep(c: Cpu)
    requires c.mem[c.pc] == STA
    ensures var r := Step(c);
            r.mem == c.mem[Operand(c) := c.a] && r.pc == Word(c.pc + 2) && CarryIn(r) == CarryIn(c)
  {
    hide Address, Fetch, Execute, ModeOf, Step, Value, CarryIn;
    MovesTable();
    Decoded(c);
    Finished(c);
    var c1 := Address(Fetch(c));
    Moves(c1);
    Stored(c1);
  }

  lemma Stored(c: Cpu)
    requires ModeOf(c.opcode).Zp?
    ensures var r := PutValue(c, c.a); r.mem == c.mem[c.ea := c.a] && r.pc == c.pc && CarryIn(r) == CarryIn(c)
  {
    hide ModeOf;
  }

  // n digits: lda x, op y, sta r; lda x+1, ...
  predicate Program(m: Memory, p: int, op: opcode, x: int, y: int, r: int, n: nat)
    decreases n
  {
    n == 0 ||
    (&& 0 <= p && p + 6 <= 0x1_0000
     && m[p] == LDA && m[p + 1] == x && m[p + 2] == op && m[p + 3] == y && m[p + 4] == STA && m[p + 5] == r
     && Program(m, p + 6, op, x + 1, y + 1, r + 1, n - 1))
  }

  // The result overwrites neither the program nor digits still to come; it may
  // be one of the operands.
  predicate Separate(p: int, x: int, y: int, r: int, n: nat) {
    && 0 <= x && x + n <= 256 && 0 <= y && y + n <= 256 && 0 <= r && r + n <= 256
    && (r + n <= p || p + 6 * n <= r)
    && !(0 < r - x < n) && !(0 < r - y < n)
  }

  lemma {:induction false} ProgramKept(m: Memory, r0: int, d: byte, p: int, op: opcode, x: int, y: int, r: int, n: nat)
    requires Program(m, p, op, x, y, r, n) && 0 <= r0 < 256 && (r0 < p || p + 6 * n <= r0)
    ensures Program(m[r0 := d], p, op, x, y, r, n)
    decreases n
  {
    if n > 0 {
      ProgramKept(m, r0, d, p + 6, op, x + 1, y + 1, r + 1, n - 1);
    }
  }

  // The little-endian number of n digits at x.
  function NumberAt(m: Memory, x: int, n: nat): nat
    requires 0 <= x && x + n <= 256
  {
    Arithmetic.Number(m[x..x + n])
  }

  lemma NumberSplit(m: Memory, x: int, n: nat)
    requires 0 <= x && x + n <= 256 && n > 0
    ensures NumberAt(m, x, n) == m[x] + 256 * NumberAt(m, x + 1, n - 1)
  {
    assert m[x..x + n][1..] == m[x + 1..x + n];
  }

  lemma NumberSame(m: Memory, m': Memory, x: int, n: nat)
    requires 0 <= x && x + n <= 256 && forall i :: x <= i < x + n ==> m[i] == m'[i]
    ensures NumberAt(m, x, n) == NumberAt(m', x, n)
  {
    assert m[x..x + n] == m'[x..x + n];
  }

  // The first three instructions.
  lemma FirstDigit(m: Memory, p: int, op: opcode, x: int, y: int, r: int, n: nat)
    requires Program(m, p, op, x, y, r, n) && n > 0
    ensures 0 <= p && p + 6 <= 0x1_0000
    ensures m[p] == LDA && m[p + 1] == x && m[p + 2] == op && m[p + 3] == y && m[p + 4] == STA && m[p + 5] == r
    ensures Program(m, p + 6, op, x + 1, y + 1, r + 1, n - 1)
    ensures n > 1 ==> p + 12 <= 0x1_0000
  {
  }

  lemma ThreeSteps(c: Cpu)
    ensures Disassembler.StepN(c, 3) == Step(Step(Step(c)))
  {
    hide Step;
    assert Disassembler.StepN(c, 0) == c;
    assert Disassembler.StepN(c, 1) == Step(c);
    assert Disassembler.StepN(c, 2) == Step(Step(c));
  }

  lemma WordSmall(n: nat)
    ensures n < 0x1_0000 ==> Word(n) == n
  {
  }

  lemma OneDigit(c: Cpu, op: opcode, x: byte, y: byte, r: byte, n: nat)
    requires Program(c.mem, c.pc, op, x, y, r, n) && n > 0 && (op == ADC || op == SBC)
    ensures var c1 := Disassembler.StepN(c, 3);
            && c1.pc == Word(c.pc + 6) && c1.mem == c.mem[r := c1.mem[r]]
            && c1.mem[r] + Signed(op, 256 * Carried(c1, op)) ==
               c.mem[x] + Signed(op, c.mem[y] + Carried(c, op))
  {
    hide Step, CarryIn, Program, Word, Disassembler.StepN;
    var p := c.pc;
    FirstDigit(c.mem, p, op, x, y, r, n);
    ThreeSteps(c);
    var a := Step(c);
    var b := Step(a);
    WordSmall(p + 1);
    WordSmall(p + 2);
    WordSmall(p + 3);
    WordSmall(p + 4);
    WordSmall(p + 5);
    LoadStep(c);
    assert a.pc == p + 2 && a.mem == c.mem;
    CombineStep(a, op);
    assert b.pc == p + 4 && b.mem == c.mem;
    StoreStep(b);
  }

  // Behind the first digit stands the program for the rest.
  lemma Ready(c: Cpu, c1: Cpu, op: opcode, x: int, y: int, r: int, n: nat)
    requires Program(c.mem, c.pc, op, x, y, r, n) && n > 0 && Separate(c.pc, x, y, r, n)
    requires c1.pc == Word(c.pc + 6) && c1.mem == c.mem[r := c1.mem[r]]
    ensures Program(c1.mem, c1.pc, op, x + 1, y + 1, r + 1, n - 1) && Separate(c1.pc, x + 1, y + 1, r + 1, n - 1)
    ensures NumberAt(c1.mem, x + 1, n - 1) == NumberAt(c.mem, x + 1, n - 1)
    ensures NumberAt(c1.mem, y + 1, n - 1) == NumberAt(c.mem, y + 1, n - 1)
  {
    hide Program, NumberAt;
    FirstDigit(c.mem, c.pc, op, x, y, r, n);
    ProgramKept(c.mem, r, c1.mem[r], c.pc + 6, op, x + 1, y + 1, r + 1, n - 1);
    WordSmall(c.pc + 6);
    if n == 1 {
      NoProgram(c1.mem, c1.pc, op, x + 1, y + 1, r + 1);
    }
    NumberSame(c1.mem, c.mem, x + 1, n - 1);
    NumberSame(c1.mem, c.mem, y + 1, n - 1);
  }

  lemma NoProgram(m: Memory, p: int, op: opcode, x: int, y: int, r: int)
    ensures Program(m, p, op, x, y, r, 0)
  {
  }

  // One digit and the rest make n digits.
  lemma Carry(op: opcode, d: int, rest: int, x0: int, x: int, y0: int, y: int, k0: int, k1: int, k: int, p: nat)
    requires d + Signed(op, 256 * k1) == x0 + Signed(op, y0 + k0)
    requires rest + Signed(op, p * k) == x + Signed(op, y + k1)
    ensures d + 256 * rest + Signed(op, 256 * p * k) == x0 + 256 * x + Signed(op, y0 + 256 * y + k0)
  {
    Arithmetic.Shifted(p, k);
  }

  /** Running the program, three instructions a digit, leaves in memory the exact
      sum or difference of the two n-digit numbers that were there, with the
      final carry or borrow; pc is behind it and nothing else in memory has
      changed. */
  lemma {:induction false} ProgramComputes(c: Cpu, op: opcode, x: int, y: int, r: int, n: nat)
    requires Program(c.mem, c.pc, op, x, y, r, n) && (op == ADC || op == SBC) && Separate(c.pc, x, y, r, n)
    ensures var c' := Disassembler.StepN(c, 3 * n);
            && NumberAt(c'.mem, r, n) + Signed(op, Arithmetic.Pow256(n) * Carried(c', op)) ==
               NumberAt(c.mem, x, n) + Signed(op, NumberAt(c.mem, y, n) + Carried(c, op))
            && c'.pc == Word(c.pc + 6 * n) && SameOutside(c.mem, c'.mem, r, n)
    decreases n
  {
    hide Carried, Program, NumberAt, Disassembler.StepN, SameOutside, Signed, Word, Separate, Arithmetic.Pow256;
    if n == 0 {
      NoDigits(c, op, x, y, r);
    } else {
      InRange(c.mem, c.pc, op, x, y, r, n);
      var c1 := Disassembler.StepN(c, 3);
      OneDigit(c, op, x, y, r, n);
      Ready(c, c1, op, x, y, r, n);
      ProgramComputes(c1, op, x + 1, y + 1, r + 1, n - 1);
      Joined(c, c1, op, x, y, r, n);
    }
  }

  predicate SameOutside(a: Memory, b: Memory, r: int, n: nat) {
    forall i :: 0 <= i < 0x1_0000 && !(r <= i < r + n) ==> a[i] == b[i]
  }

  lemma InRange(m: Memory, p: int, op: opcode, x: int, y: int, r: int, n: nat)
    requires Program(m, p, op, x, y, r, n) && n > 0
    ensures 0 <= x < 256 && 0 <= y < 256 && 0 <= r < 256
  {
  }

  lemma NoDigits(c: Cpu, op: opcode, x: int, y: int, r: int)
    requires Separate(c.pc, x, y, r, 0)
    ensures Disassembler.StepN(c, 0) == c && Word(c.pc) == c.pc && SameOutside(c.mem, c.mem, r, 0)
    ensures NumberAt(c.mem, r, 0) == NumberAt(c.mem, x, 0) == NumberAt(c.mem, y, 0) == 0
    ensures Arithmetic.Pow256(0) == 1
  {
  }

  lemma Joined(c: Cpu, c1: Cpu, op: opcode, x: int, y: int, r: int, n: nat)
    requires n > 0 && Separate(c.pc, x, y, r, n) && c1 == Disassembler.StepN(c, 3)
    requires c1.pc == Word(c.pc + 6) && c1.mem == c.mem[r := c1.mem[r]]
    requires c1.mem[r] + Signed(op, 256 * Carried(c1, op)) == c.mem[x] + Signed(op, c.mem[y] + Carried(c, op))
    requires NumberAt(c1.mem, x + 1, n - 1) == NumberAt(c.mem, x + 1, n - 1)
    requires NumberAt(c1.mem, y + 1, n - 1) == NumberAt(c.mem, y + 1, n - 1)
    requires var c' := Disassembler.StepN(c1, 3 * (n - 1));
             && NumberAt(c'.mem, r + 1, n - 1) + Signed(op, Arithmetic.Pow256(n - 1) * Carried(c', op)) ==
                NumberAt(c1.mem, x + 1, n - 1) + Signed(op, NumberAt(c1.mem, y + 1, n - 1) + Carried(c1, op))
             && c'.pc == Word(c1.pc + 6 * (n - 1)) && SameOutside(c1.mem, c'.mem, r + 1, n - 1)
    ensures var c' := Disassembler.StepN(c, 3 * n);
            && NumberAt(c'.mem, r, n) + Signed(op, Arithmetic.Pow256(n) * Carried(c', op)) ==
               NumberAt(c.mem, x, n) + Signed(op, NumberAt(c.mem, y, n) + Carried(c, op))
            && c'.pc == Word(c.pc + 6 * n) && SameOutside(c.mem, c'.mem, r, n)
  {
    hide Carried, NumberAt, Disassembler.StepN, Signed;
    Disassembler.StepsAdd(c1, c, 3, 3 * (n - 1));
    var c' := Disassembler.StepN(c, 3 * n);
    NumberSplit(c'.mem, r, n);
    NumberSplit(c.mem, x, n);
    NumberSplit(c.mem, y, n);
    Carry(op, c1.mem[r], NumberAt(c'.mem, r + 1, n - 1), c.mem[x], NumberAt(c.mem, x + 1, n - 1),
          c.mem[y], NumberAt(c.mem, y + 1, n - 1), Carried(c, op), Carried(c1, op), Carried(c', op),
          Arithmetic.Pow256(n - 1));
  }
}
