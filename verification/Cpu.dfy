/** The 6502 core as a function from machine state to machine state: registers,
    64K of memory, flags and cycle counters. Decimal mode is compiled out and
    the undocumented combined opcodes are compiled in. */
module Cpu {
  import opened Bytes
  import opened Opcodes

  type word = x: int | 0 <= x < 0x1_0000
  type count = x: int | 0 <= x < 0x1_0000_0000
  type Memory = m: bytes | |m| == 0x1_0000 witness seq(0x1_0000, _ => 0)

  const CARRY: bv8 := 0x01
  const ZERO: bv8 := 0x02
  const INTERRUPT: bv8 := 0x04
  const DECIMAL: bv8 := 0x08
  const BREAK: bv8 := 0x10
  const CONSTANT: bv8 := 0x20
  const OVERFLOW: bv8 := 0x40
  const SIGN: bv8 := 0x80

  datatype Cpu = Cpu(
    pc: word, sp: byte, a: byte, x: byte, y: byte, status: bv8,
    ea: word, reladdr: word, opcode: opcode, penaltyop: bool, penaltyaddr: bool,
    ticks: count, goal: count, instructions: count, mem: Memory)

  function Word(n: int): word {
    n % TWO_16
  }

  function Byte(n: int): byte {
    n % TWO_8
  }

  function Count(n: int): count {
    n % TWO_32
  }

  function Read(c: Cpu, address: int): byte {
    c.mem[Word(address)]
  }

  function WriteMem(c: Cpu, address: int, v: byte): Cpu {
    c.(mem := c.mem[Word(address) := v])
  }

  function Read16(c: Cpu, lo: int, hi: int): word {
    FromBytes(Read(c, lo), Read(c, hi))
  }

  function FromBytes(lo: byte, hi: byte): word {
    lo + hi * 256
  }

  function Bits(v: byte): bv8 {
    v as bv8
  }

  function FromBits(s: bv8): byte {
    s as int
  }

  function And8(m: byte, n: byte): byte {
    FromBits(Bits(m) & Bits(n))
  }

  function Or8(m: byte, n: byte): byte {
    FromBits(Bits(m) | Bits(n))
  }

  function Xor8(m: byte, n: byte): byte {
    FromBits(Bits(m) ^ Bits(n))
  }

  function Flag(status: bv8, flag: bv8, on: bool): bv8 {
    if on then status | flag else status & !flag
  }

  predicate Has(c: Cpu, flag: bv8) {
    c.status & flag == flag
  }

  function CarryIn(c: Cpu): int {
    if Has(c, CARRY) then 1 else 0
  }

  // zerocalc and signcalc: bits 0..7 of n.
  function ZeroSign(status: bv8, n: int): bv8 {
    Flag(Flag(status, ZERO, n % 256 == 0), SIGN, n % 256 >= 128)
  }

  // overflowcalc(n, m, o)
  predicate Overflows(n: word, m: word, o: word) {
    ((n as bv16) ^ (m as bv16)) & ((n as bv16) ^ (o as bv16)) & 0x80 != 0
  }

  function AddTicks(c: Cpu, n: int): Cpu {
    c.(ticks := Count(c.ticks + n))
  }

  // The stack, in page 1.
  function Push8(c: Cpu, v: byte): Cpu {
    WriteMem(c, 0x100 + c.sp, v).(sp := Byte(c.sp - 1))
  }

  function Push16(c: Cpu, v: word): Cpu {
    WriteMem(WriteMem(c, 0x100 + c.sp, v / 256), 0x100 + Byte(c.sp - 1), v % 256).(sp := Byte(c.sp - 2))
  }

  datatype Pulled = Pulled(c: Cpu, v: word)

  function Pull8(c: Cpu): (p: Pulled)
    ensures p.v < 256
  {
    var sp := Byte(c.sp + 1);
    Pulled(c.(sp := sp), Read(c, 0x100 + sp))
  }

  function Pull16(c: Cpu): Pulled {
    Pulled(c.(sp := Byte(c.sp + 2)), Read16(c, 0x100 + Byte(c.sp + 1), 0x100 + Byte(c.sp + 2)))
  }

  // An indexed address, and whether it left the page of its base.
  function Indexed(c: Cpu, base: word, index: byte): Cpu {
    var ea := Word(base + index);
    c.(ea := ea, penaltyaddr := c.penaltyaddr || ea / 256 != base / 256)
  }

  function Operand16(c: Cpu): word {
    Read16(c, c.pc, c.pc + 1)
  }

  // The addressing modes, with pc behind the opcode.
  function Address(c: Cpu): Cpu {
    var next, next2 := c.(pc := Word(c.pc + 1)), c.(pc := Word(c.pc + 2));
    var operand := Read(c, c.pc);
    match ModeOf(c.opcode)
    case Imp => c
    case Acc => c
    case Imm => next.(ea := c.pc)
    case Zp => next.(ea := operand)
    case Zpx => next.(ea := Byte(operand + c.x))
    case Zpy => next.(ea := Byte(operand + c.y))
    case Rel => next.(reladdr := if operand >= 0x80 then operand + 0xFF00 else operand)
    case Abso => next2.(ea := Operand16(c))
    case Absx => Indexed(next2, Operand16(c), c.x)
    case Absy => Indexed(next2, Operand16(c), c.y)
    case Ind =>
      var p := Operand16(c);
      next2.(ea := Read16(c, p, p / 256 * 256 + Byte(p + 1)))
    case Indx =>
      var p := Byte(operand + c.x);
      next.(ea := Read16(c, p, Byte(p + 1)))
    case Indy => Indexed(next, Read16(c, operand, Byte(operand + 1)), c.y)
  }

  function Value(c: Cpu): byte {
    if ModeOf(c.opcode).Acc? then c.a else Read(c, c.ea)
  }

  function PutValue(c: Cpu, n: int): Cpu {
    if ModeOf(c.opcode).Acc? then c.(a := Byte(n)) else WriteMem(c, c.ea, Byte(n))
  }

  function Penalise(c: Cpu): Cpu {
    c.(penaltyop := true)
  }

  function LoadA(c: Cpu, v: byte): Cpu {
    c.(a := v, status := ZeroSign(c.status, v))
  }

  function LoadX(c: Cpu, v: byte): Cpu {
    c.(x := v, status := ZeroSign(c.status, v))
  }

  function LoadY(c: Cpu, v: byte): Cpu {
    c.(y := v, status := ZeroSign(c.status, v))
  }

  // Read-modify-write with the flags of the result.
  function Modify(c: Cpu, carry: bool, n: int): Cpu {
    PutValue(c.(status := ZeroSign(Flag(c.status, CARRY, carry), n)), n)
  }

  function AddWithCarry(c: Cpu, value: byte): Cpu {
    var result := c.a + value + CarryIn(c);
    var s1 := Flag(Flag(c.status, CARRY, result >= 256), ZERO, result % 256 == 0);
    var s2 := Flag(Flag(s1, OVERFLOW, Overflows(result, c.a, value)), SIGN, result % 256 >= 128);
    c.(status := s2, a := Byte(result))
  }

  function Compare(c: Cpu, register: byte): Cpu {
    var v := Value(c);
    var s1 := Flag(Flag(c.status, CARRY, register >= v), ZERO, register == v);
    c.(status := Flag(s1, SIGN, (register - v) % 256 >= 128))
  }

  function Branch(c: Cpu, taken: bool): Cpu {
    if !taken then c
    else
      var pc := Word(c.pc + c.reladdr);
      AddTicks(c.(pc := pc), if pc / 256 != c.pc / 256 then 2 else 1)
  }

  function DoRol(c: Cpu): Cpu {
    var n := Value(c) * 2 + CarryIn(c);
    Modify(c, n >= 256, n)
  }

  function DoAsl(c: Cpu): Cpu {
    var n := Value(c) * 2;
    Modify(c, n >= 256, n)
  }

  function DoLsr(c: Cpu): Cpu {
    Modify(c, Value(c) % 2 == 1, Value(c) / 2)
  }

  function DoRor(c: Cpu): Cpu {
    Modify(c, Value(c) % 2 == 1, Value(c) / 2 + 128 * CarryIn(c))
  }

  function DoInc(c: Cpu): Cpu {
    var n := Value(c) + 1;
    PutValue(c.(status := ZeroSign(c.status, n)), n)
  }

  function DoDec(c: Cpu): Cpu {
    var n := Value(c) - 1;
    PutValue(c.(status := ZeroSign(c.status, n)), n)
  }

  function DoAdc(c: Cpu): Cpu {
    AddWithCarry(Penalise(c), Value(c))
  }

  function DoSbc(c: Cpu): Cpu {
    AddWithCarry(Penalise(c), Xor8(Value(c), 0xFF))
  }

  function DoAnd(c: Cpu): Cpu {
    LoadA(Penalise(c), And8(c.a, Value(c)))
  }

  function DoOra(c: Cpu): Cpu {
    LoadA(Penalise(c), Or8(c.a, Value(c)))
  }

  function DoEor(c: Cpu): Cpu {
    LoadA(Penalise(c), Xor8(c.a, Value(c)))
  }

  function DoBit(c: Cpu): Cpu {
    var v := Value(c);
    var s := Flag(c.status, ZERO, And8(c.a, v) == 0);
    c.(status := (s & 0x3F) | ((v as bv8) & 0xC0))
  }

  function Interrupt(c: Cpu, pushed: bv8, vector: word): Cpu {
    var c1 := Push8(Push16(c, c.pc), FromBits(pushed));
    c1.(status := c1.status | INTERRUPT, pc := Read16(c1, vector, vector + 1))
  }

  function DoBrk(c: Cpu): Cpu {
    var c1 := c.(pc := Word(c.pc + 1));
    Interrupt(c1, c1.status | BREAK, 0xFFFE)
  }

  function DoJsr(c: Cpu): Cpu {
    Push16(c, Word(c.pc - 1)).(pc := c.ea)
  }

  function DoRts(c: Cpu): Cpu {
    var p := Pull16(c);
    p.c.(pc := Word(p.v + 1))
  }

  function DoRti(c: Cpu): Cpu {
    var p := Pull8(c);
    var q := Pull16(p.c.(status := Bits(p.v)));
    q.c.(pc := q.v)
  }

  function Irq(c: Cpu): Cpu {
    Interrupt(c, c.status, 0xFFFE)
  }

  function Nmi(c: Cpu): Cpu {
    Interrupt(c, c.status, 0xFFFA)
  }

  // A combined opcode takes back the cycle its second half would cost.
  function Combined(c: Cpu): Cpu {
    if c.penaltyop && c.penaltyaddr then AddTicks(c, -1) else c
  }

  function DoNop(c: Cpu): Cpu {
    if c.opcode in {0x1C, 0x3C, 0x5C, 0x7C, 0xDC, 0xFC} then Penalise(c) else c
  }

  predicate IsBranch(o: Op) {
    o.Bcc? || o.Bcs? || o.Beq? || o.Bmi? || o.Bne? || o.Bpl? || o.Bvc? || o.Bvs?
  }

  function ExecuteBranch(c: Cpu): Cpu {
    match OpOf(c.opcode)
    case Bcc => Branch(c, !Has(c, CARRY))
    case Bcs => Branch(c, Has(c, CARRY))
    case Beq => Branch(c, Has(c, ZERO))
    case Bmi => Branch(c, Has(c, SIGN))
    case Bne => Branch(c, !Has(c, ZERO))
    case Bpl => Branch(c, !Has(c, SIGN))
    case Bvc => Branch(c, !Has(c, OVERFLOW))
    case _ => Branch(c, Has(c, OVERFLOW))
  }

  // Operations on the flags alone.
  predicate IsFlagOp(o: Op) {
    o.Clc? || o.Cld? || o.Cli? || o.Clv? || o.Sec? || o.Sed? || o.Sei?
  }

  function ExecuteFlag(c: Cpu): bv8 {
    match OpOf(c.opcode)
    case Clc => Flag(c.status, CARRY, false)
    case Cld => Flag(c.status, DECIMAL, false)
    case Cli => Flag(c.status, INTERRUPT, false)
    case Clv => Flag(c.status, OVERFLOW, false)
    case Sec => Flag(c.status, CARRY, true)
    case Sed => Flag(c.status, DECIMAL, true)
    case _ => Flag(c.status, INTERRUPT, true)
  }

  // Transfers and counting between registers.
  predicate IsRegisterOp(o: Op) {
    || o.Tax? || o.Tay? || o.Tsx? || o.Txa? || o.Txs? || o.Tya? || o.Dex? || o.Dey? || o.Inx? || o.Iny?
  }

  function ExecuteRegister(c: Cpu): Cpu {
    match OpOf(c.opcode)
    case Dex => LoadX(c, Byte(c.x - 1))
    case Dey => LoadY(c, Byte(c.y - 1))
    case Inx => LoadX(c, Byte(c.x + 1))
    case Iny => LoadY(c, Byte(c.y + 1))
    case Tax => LoadX(c, c.a)
    case Tay => LoadY(c, c.a)
    case Tsx => LoadX(c, c.sp)
    case Txa => LoadA(c, c.x)
    case Txs => c.(sp := c.x)
    case _ => LoadA(c, c.y)
  }

  predicate IsJump(o: Op) {
    o.Brk? || o.Jmp? || o.Jsr? || o.Rti? || o.Rts?
  }

  function ExecuteJump(c: Cpu): Cpu {
    match OpOf(c.opcode)
    case Brk => DoBrk(c)
    case Jmp => c.(pc := c.ea)
    case Jsr => DoJsr(c)
    case Rti => DoRti(c)
    case _ => DoRts(c)
  }

  predicate IsStackOp(o: Op) {
    o.Pha? || o.Php? || o.Pla? || o.Plp?
  }

  function DoPhp(c: Cpu): Cpu {
    Push8(c, FromBits(c.status | BREAK))
  }

  function DoPla(c: Cpu): Cpu {
    var p := Pull8(c);
    LoadA(p.c, p.v)
  }

  function DoPlp(c: Cpu): Cpu {
    var p := Pull8(c);
    p.c.(status := Bits(p.v) | CONSTANT)
  }

  function ExecuteStack(c: Cpu): Cpu {
    match OpOf(c.opcode)
    case Pha => Push8(c, c.a)
    case Php => DoPhp(c)
    case Pla => DoPla(c)
    case _ => DoPlp(c)
  }

  // Undocumented: a read-modify-write and an accumulator operation in one.
  predicate IsCombined(o: Op) {
    o.Dcp? || o.Isb? || o.Rla? || o.Rra? || o.Slo? || o.Sre? || o.Sax?
  }

  function DoDcp(c: Cpu): Cpu {
    var c1 := DoDec(c);
    Combined(Compare(Penalise(c1), c1.a))
  }

  function DoIsb(c: Cpu): Cpu {
    Combined(DoSbc(DoInc(c)))
  }

  function DoRla(c: Cpu): Cpu {
    Combined(DoAnd(DoRol(c)))
  }

  function DoRra(c: Cpu): Cpu {
    Combined(DoAdc(DoRor(c)))
  }

  function DoSlo(c: Cpu): Cpu {
    Combined(DoOra(DoAsl(c)))
  }

  function DoSre(c: Cpu): Cpu {
    Combined(DoEor(DoLsr(c)))
  }

  function DoSax(c: Cpu): Cpu {
    var c1 := PutValue(PutValue(c, c.a), c.x);
    Combined(PutValue(c1, And8(c1.a, c1.x)))
  }

  function ExecuteCombined(c: Cpu): Cpu {
    match OpOf(c.opcode)
    case Dcp => DoDcp(c)
    case Isb => DoIsb(c)
    case Rla => DoRla(c)
    case Rra => DoRra(c)
    case Slo => DoSlo(c)
    case Sre => DoSre(c)
    case _ => DoSax(c)
  }

  predicate IsLoadOrStore(o: Op) {
    o.Lax? || o.Lda? || o.Ldx? || o.Ldy? || o.Sta? || o.Stx? || o.Sty? || o.Cmp? || o.Cpx? || o.Cpy?
  }

  function ExecuteLoadStore(c: Cpu): Cpu {
    match OpOf(c.opcode)
    case Cmp => Compare(Penalise(c), c.a)
    case Cpx => Compare(c, c.x)
    case Cpy => Compare(c, c.y)
    case Lax => var c1 := LoadA(Penalise(c), Value(c)); LoadX(c1, Value(c1))
    case Lda => LoadA(Penalise(c), Value(c))
    case Ldx => LoadX(Penalise(c), Value(c))
    case Ldy => LoadY(Penalise(c), Value(c))
    case Sta => PutValue(c, c.a)
    case Stx => PutValue(c, c.x)
    case _ => PutValue(c, c.y)
  }

  function ExecuteMemory(c: Cpu): Cpu {
    match OpOf(c.opcode)
    case Adc => DoAdc(c)
    case And => DoAnd(c)
    case Asl => DoAsl(c)
    case Bit => DoBit(c)
    case Dec => DoDec(c)
    case Eor => DoEor(c)
    case Inc => DoInc(c)
    case Lsr => DoLsr(c)
    case Ora => DoOra(c)
    case Rol => DoRol(c)
    case Ror => DoRor(c)
    case Sbc => DoSbc(c)
    case _ => DoNop(c)
  }

  function Execute(c: Cpu): Cpu {
    var o := OpOf(c.opcode);
    if IsBranch(o) then ExecuteBranch(c)
    else if IsFlagOp(o) then c.(status := ExecuteFlag(c))
    else if IsRegisterOp(o) then ExecuteRegister(c)
    else if IsJump(o) then ExecuteJump(c)
    else if IsStackOp(o) then ExecuteStack(c)
    else if IsCombined(o) then ExecuteCombined(c)
    else if IsLoadOrStore(o) then ExecuteLoadStore(c)
    else ExecuteMemory(c)
  }

  function Fetch(c: Cpu): Cpu {
    c.(opcode := Read(c, c.pc), pc := Word(c.pc + 1), status := c.status | CONSTANT,
       penaltyop := false, penaltyaddr := false)
  }

  // One instruction, as in exec6502.
  function Instruction(c: Cpu): Cpu {
    var c1 := Execute(Address(Fetch(c)));
    AddTicks(c1, Ticks(c1.opcode) + if c1.penaltyop && c1.penaltyaddr then 1 else 0)
      .(instructions := Count(c1.instructions + 1))
  }

  // step6502
  function Step(c: Cpu): Cpu {
    var c1 := Instruction(c);
    c1.(goal := c1.ticks)
  }

  // reset6502: starts at address 0, whatever the reset vector says.
  function ResetCpu(c: Cpu): Cpu {
    c.(pc := 0, a := 0, x := 0, y := 0, sp := 0xFD, status := c.status | CONSTANT)
  }
}
