/** The emulator as the source has it: registers and memory updated in place
    by one routine per addressing mode and operation, dispatched through the
    opcode tables. Each is proved against module Cpu. */
module CpuObject {
  import opened Bytes
  import opened Opcodes
  import C = Cpu
  import Cycles

  class Cpu6502 {
    var pc: C.word
    var sp: byte
    var a: byte
    var x: byte
    var y: byte
    var status: bv8
    var ea: C.word
    var reladdr: C.word
    var op: opcode
    var penaltyop: bool
    var penaltyaddr: bool
    var clockticks: C.count
    var clockgoal: C.count
    var instructions: C.count
    const mem: array<byte>

    ghost predicate Valid()
    {
      mem.Length == 0x1_0000
    }

    ghost function Abs(): C.Cpu
      requires Valid()
      reads this, mem
    {
      C.Cpu(pc, sp, a, x, y, status, ea, reladdr, op, penaltyop, penaltyaddr,
            clockticks, clockgoal, instructions, mem[..])
    }

    // Zero counters, as the statics start; the registers are arbitrary until reset.
    constructor (image: array<byte>)
      requires image.Length == 0x1_0000
      ensures Valid() && mem == image && clockticks == 0 && clockgoal == 0 && instructions == 0
    {
      mem := image;
      clockticks, clockgoal, instructions := 0, 0, 0;
    }

    function Read(address: int): (v: byte)
      requires Valid()
      reads this, mem
      ensures v == C.Read(Abs(), address)
    {
      mem[address % 0x1_0000]
    }

    method Write(address: int, v: byte)
      requires Valid()
      modifies mem
      ensures Abs() == C.WriteMem(old(Abs()), address, v)
    {
      mem[address % 0x1_0000] := v;
      assert mem[..] == old(mem[..])[address % 0x1_0000 := v];
    }

    method Push16(v: C.word)
      requires Valid()
      modifies this, mem
      ensures Abs() == C.Push16(old(Abs()), v)
    {
      Write(0x100 + sp, v / 256);
      Write(0x100 + C.Byte(sp - 1), v % 256);
      sp := C.Byte(sp - 2);
    }

    method Push8(v: byte)
      requires Valid()
      modifies this, mem
      ensures Abs() == C.Push8(old(Abs()), v)
    {
      Write(0x100 + sp, v);
      sp := C.Byte(sp - 1);
    }

    method Pull16() returns (v: C.word)
      requires Valid()
      modifies this
      ensures C.Pulled(Abs(), v) == C.Pull16(old(Abs()))
    {
      v := C.FromBytes(Read(0x100 + C.Byte(sp + 1)), Read(0x100 + C.Byte(sp + 2)));
      sp := C.Byte(sp + 2);
    }

    method Pull8() returns (v: byte)
      requires Valid()
      modifies this
      ensures C.Pulled(Abs(), v) == C.Pull8(old(Abs()))
    {
      sp := C.Byte(sp + 1);
      v := Read(0x100 + sp);
    }

    method Reset()
      requires Valid()
      modifies this
      ensures Abs() == C.ResetCpu(old(Abs()))
    {
      pc, a, x, y := 0, 0, 0, 0;
      sp := 0xFD;
      status := status | C.CONSTANT;
    }

    // read6502(pc++)
    method NextByte() returns (v: byte)
      requires Valid()
      modifies this
      ensures v == C.Read(old(Abs()), old(pc)) && Abs() == old(Abs()).(pc := C.Word(old(pc) + 1))
    {
      v := Read(pc);
      pc := C.Word(pc + 1);
    }

    method NextWord() returns (v: C.word)
      requires Valid()
      modifies this
      ensures v == C.Operand16(old(Abs())) && Abs() == old(Abs()).(pc := C.Word(old(pc) + 2))
    {
      v := C.FromBytes(Read(pc), Read(pc + 1));
      pc := C.Word(pc + 2);
    }

    method Index(base: C.word, index: byte)
      requires Valid()
      modifies this
      ensures Abs() == C.Indexed(old(Abs()), base, index)
    {
      ea := C.Word(base + index);
      if base / 256 != ea / 256 {
        penaltyaddr := true;
      }
    }

    method Imm()
      requires Valid() && ModeOf(op).Imm?
      modifies this
      ensures Abs() == C.Address(old(Abs()))
    {
      hide ModeOf, C.FromBytes, C.Byte;
      ea := pc;
      pc := C.Word(pc + 1);
    }

    method Zp()
      requires Valid() && ModeOf(op).Zp?
      modifies this
      ensures Abs() == C.Address(old(Abs()))
    {
      hide ModeOf, C.FromBytes, C.Byte;
      var operand: int := NextByte();
      ea := operand;
    }

    method Zpx()
      requires Valid() && ModeOf(op).Zpx?
      modifies this
      ensures Abs() == C.Address(old(Abs()))
    {
      hide ModeOf, C.FromBytes, C.Byte;
      var operand: int := NextByte();
      ea := C.Byte(operand + x);
    }

    method Zpy()
      requires Valid() && ModeOf(op).Zpy?
      modifies this
      ensures Abs() == C.Address(old(Abs()))
    {
      hide ModeOf, C.FromBytes, C.Byte;
      var operand: int := NextByte();
      ea := C.Byte(operand + y);
    }

    method Rel()
      requires Valid() && ModeOf(op).Rel?
      modifies this
      ensures Abs() == C.Address(old(Abs()))
    {
      hide ModeOf, C.FromBytes, C.Byte;
      var operand: int := NextByte();
      reladdr := operand;
      if operand >= 0x80 {
        reladdr := C.Word(operand + 0xFF00);
      }
    }

    method Abso()
      requires Valid() && ModeOf(op).Abso?
      modifies this
      ensures Abs() == C.Address(old(Abs()))
    {
      hide ModeOf, C.FromBytes, C.Byte;
      var w := NextWord();
      ea := w;
    }

    method Absx()
      requires Valid() && ModeOf(op).Absx?
      modifies this
      ensures Abs() == C.Address(old(Abs()))
    {
      hide ModeOf, C.FromBytes, C.Byte;
      var w := NextWord();
      Index(w, x);
    }

    method Absy()
      requires Valid() && ModeOf(op).Absy?
      modifies this
      ensures Abs() == C.Address(old(Abs()))
    {
      hide ModeOf, C.FromBytes, C.Byte;
      var w := NextWord();
      Index(w, y);
    }

    method Ind()
      requires Valid() && ModeOf(op).Ind?
      modifies this
      ensures Abs() == C.Address(old(Abs()))
    {
      hide ModeOf, C.FromBytes, C.Byte;
      var eahelp: int := NextWord();
      var eahelp2 := eahelp / 256 * 256 + C.Byte(eahelp + 1);
      ea := C.FromBytes(Read(eahelp), Read(eahelp2));
    }

    method Indx()
      requires Valid() && ModeOf(op).Indx?
      modifies this
      ensures Abs() == C.Address(old(Abs()))
    {
      hide ModeOf, C.FromBytes, C.Byte;
      var operand: int := NextByte();
      var eahelp: int := C.Byte(operand + x);
      ea := C.FromBytes(Read(eahelp), Read(C.Byte(eahelp + 1)));
    }

    method Indy()
      requires Valid() && ModeOf(op).Indy?
      modifies this
      ensures Abs() == C.Address(old(Abs()))
    {
      hide ModeOf, C.FromBytes, C.Byte;
      var eahelp: int := NextByte();
      var w := C.FromBytes(Read(eahelp), Read(C.Byte(eahelp + 1)));
      Index(w, y);
    }

    // (*addrtable[opcode])()
    method Address()
      requires Valid()
      modifies this
      ensures Abs() == C.Address(old(Abs()))
    {
      hide ModeOf;
      match ModeOf(op)
      case Imp =>
      case Acc =>
      case Imm => Imm();
      case Zp => Zp();
      case Zpx => Zpx();
      case Zpy => Zpy();
      case Rel => Rel();
      case Abso => Abso();
      case Absx => Absx();
      case Absy => Absy();
      case Ind => Ind();
      case Indx => Indx();
      case Indy => Indy();
    }

    predicate Is(flag: bv8): (b: bool)
      requires Valid()
      reads this, mem
      ensures b == C.Has(Abs(), flag)
    {
      status & flag == flag
    }

    function GetValue(): (v: byte)
      requires Valid()
      reads this, mem
      ensures v == C.Value(Abs())
    {
      if ModeOf(op).Acc? then a else Read(ea)
    }

    method PutValue(n: int)
      requires Valid()
      modifies this, mem
      ensures Abs() == C.PutValue(old(Abs()), n)
    {
      if ModeOf(op).Acc? {
        a := n % 256;
      } else {
        Write(ea, n % 256);
      }
    }

    method SetFlag(flag: bv8, on: bool)
      requires Valid()
      modifies this
      ensures Abs() == old(Abs()).(status := C.Flag(old(status), flag, on))
    {
      if on {
        status := status | flag;
      } else {
        status := status & !flag;
      }
    }

    // zerocalc, signcalc
    method ZeroSign(n: int)
      requires Valid()
      modifies this
      ensures Abs() == old(Abs()).(status := C.ZeroSign(old(status), n))
    {
      hide C.Flag;
      SetFlag(C.ZERO, n % 256 == 0);
      SetFlag(C.SIGN, n % 256 >= 128);
    }

    method AddWithCarry(value: byte)
      requires Valid()
      modifies this
      ensures Abs() == C.AddWithCarry(old(Abs()), value)
    {
      hide C.Flag, C.Overflows;
      var result := a + value + if Is(C.CARRY) then 1 else 0;
      SetFlag(C.CARRY, result >= 256);
      SetFlag(C.ZERO, result % 256 == 0);
      SetFlag(C.OVERFLOW, C.Overflows(result, a, value));
      SetFlag(C.SIGN, result % 256 >= 128);
      a := result % 256;
    }

    method Adc()
      requires Valid()
      modifies this
      ensures Abs() == C.DoAdc(old(Abs()))
    {
      hide C.AddWithCarry;
      penaltyop := true;
      AddWithCarry(GetValue());
    }

    method Sbc()
      requires Valid()
      modifies this
      ensures Abs() == C.DoSbc(old(Abs()))
    {
      hide C.AddWithCarry, C.Xor8;
      penaltyop := true;
      AddWithCarry(C.Xor8(GetValue(), 0xFF));
    }

    method And()
      requires Valid()
      modifies this
      ensures Abs() == C.DoAnd(old(Abs()))
    {
      hide C.And8, C.ZeroSign;
      penaltyop := true;
      a := C.And8(a, GetValue());
      ZeroSign(a);
    }

    method Ora()
      requires Valid()
      modifies this
      ensures Abs() == C.DoOra(old(Abs()))
    {
      hide C.Or8, C.ZeroSign;
      penaltyop := true;
      a := C.Or8(a, GetValue());
      ZeroSign(a);
    }

    method Eor()
      requires Valid()
      modifies this
      ensures Abs() == C.DoEor(old(Abs()))
    {
      hide C.Xor8, C.ZeroSign;
      penaltyop := true;
      a := C.Xor8(a, GetValue());
      ZeroSign(a);
    }

    method Asl()
      requires Valid()
      modifies this, mem
      ensures Abs() == C.DoAsl(old(Abs()))
    {
      hide C.Flag, C.ZeroSign, C.WriteMem;
      var result := GetValue() * 2;
      SetFlag(C.CARRY, result >= 256);
      ZeroSign(result);
      PutValue(result);
    }

    method Rol()
      requires Valid()
      modifies this, mem
      ensures Abs() == C.DoRol(old(Abs()))
    {
      hide C.Flag, C.ZeroSign, C.WriteMem;
      var result := GetValue() * 2 + if Is(C.CARRY) then 1 else 0;
      SetFlag(C.CARRY, result >= 256);
      ZeroSign(result);
      PutValue(result);
    }

    method Lsr()
      requires Valid()
      modifies this, mem
      ensures Abs() == C.DoLsr(old(Abs()))
    {
      hide C.Flag, C.ZeroSign, C.WriteMem;
      var value := GetValue();
      SetFlag(C.CARRY, value % 2 == 1);
      ZeroSign(value / 2);
      PutValue(value / 2);
    }

    method Ror()
      requires Valid()
      modifies this, mem
      ensures Abs() == C.DoRor(old(Abs()))
    {
      hide C.Flag, C.ZeroSign, C.WriteMem;
      var value := GetValue();
      var result := value / 2 + 128 * if Is(C.CARRY) then 1 else 0;
      SetFlag(C.CARRY, value % 2 == 1);
      ZeroSign(result);
      PutValue(result);
    }

    method Inc()
      requires Valid()
      modifies this, mem
      ensures Abs() == C.DoInc(old(Abs()))
    {
      hide C.ZeroSign, C.WriteMem;
      var result := GetValue() + 1;
      ZeroSign(result);
      PutValue(result);
    }

    method Dec()
      requires Valid()
      modifies this, mem
      ensures Abs() == C.DoDec(old(Abs()))
    {
      hide C.ZeroSign, C.WriteMem;
      var result := GetValue() - 1;
      ZeroSign(result);
      PutValue(result);
    }

    method Bit()
      requires Valid()
      modifies this
      ensures Abs() == C.DoBit(old(Abs()))
    {
      hide C.Flag, C.And8;
      var value := GetValue();
      SetFlag(C.ZERO, C.And8(a, value) == 0);
      status := (status & 0x3F) | ((value as bv8) & 0xC0);
    }

    method Compare(register: byte)
      requires Valid()
      modifies this
      ensures Abs() == C.Compare(old(Abs()), register)
    {
      hide C.Flag;
      var value := GetValue();
      SetFlag(C.CARRY, register >= value);
      SetFlag(C.ZERO, register == value);
      SetFlag(C.SIGN, (register - value) % 256 >= 128);
    }

    // The body the eight branch operations share.
    method Branch(taken: bool)
      requires Valid()
      modifies this
      ensures Abs() == C.Branch(old(Abs()), taken)
    {
      hide C.Count;
      if taken {
        var oldpc := pc;
        pc := C.Word(pc + reladdr);
        if oldpc / 256 != pc / 256 {
          clockticks := C.Count(clockticks + 2);
        } else {
          clockticks := C.Count(clockticks + 1);
        }
      }
    }

    method LoadA(v: byte)
      requires Valid()
      modifies this
      ensures Abs() == C.LoadA(old(Abs()), v)
    {
      hide C.ZeroSign;
      a := v;
      ZeroSign(a);
    }

    method LoadX(v: byte)
      requires Valid()
      modifies this
      ensures Abs() == C.LoadX(old(Abs()), v)
    {
      hide C.ZeroSign;
      x := v;
      ZeroSign(x);
    }

    method LoadY(v: byte)
      requires Valid()
      modifies this
      ensures Abs() == C.LoadY(old(Abs()), v)
    {
      hide C.ZeroSign;
      y := v;
      ZeroSign(y);
    }

    // irq6502, nmi6502 and the second half of brk.
    method Interrupt(pushed: bv8, vector: C.word)
      requires Valid()
      modifies this, mem
      ensures Abs() == C.Interrupt(old(Abs()), pushed, vector)
    {
      hide C.Push8, C.Push16, C.FromBits, C.FromBytes;
      Push16(pc);
      Push8(C.FromBits(pushed));
      status := status | C.INTERRUPT;
      pc := C.FromBytes(Read(vector), Read(vector + 1));
    }

    method Irq()
      requires Valid()
      modifies this, mem
      ensures Abs() == C.Irq(old(Abs()))
    {
      hide C.Interrupt;
      Interrupt(status, 0xFFFE);
    }

    method Nmi()
      requires Valid()
      modifies this, mem
      ensures Abs() == C.Nmi(old(Abs()))
    {
      hide C.Interrupt;
      Interrupt(status, 0xFFFA);
    }

    method Brk()
      requires Valid()
      modifies this, mem
      ensures Abs() == C.DoBrk(old(Abs()))
    {
      hide C.Interrupt;
      pc := C.Word(pc + 1);
      Interrupt(status | C.BREAK, 0xFFFE);
    }

    method Jsr()
      requires Valid()
      modifies this, mem
      ensures Abs() == C.DoJsr(old(Abs()))
    {
      hide C.Byte;
      Push16(C.Word(pc - 1));
      pc := ea;
    }

    method Rts()
      requires Valid()
      modifies this
      ensures Abs() == C.DoRts(old(Abs()))
    {
      hide C.Pull16;
      var value: int := Pull16();
      pc := C.Word(value + 1);
    }

    method Rti()
      requires Valid()
      modifies this
      ensures Abs() == C.DoRti(old(Abs()))
    {
      hide C.Pull16, C.Pull8, C.Bits;
      var s := Pull8();
      status := C.Bits(s);
      var value := Pull16();
      pc := value;
    }

    method Nop()
      requires Valid()
      modifies this
      ensures Abs() == C.DoNop(old(Abs()))
    {
      if op in {0x1C, 0x3C, 0x5C, 0x7C, 0xDC, 0xFC} {
        penaltyop := true;
      }
    }

    // if (penaltyop && penaltyaddr) clockticks6502--
    method Refund()
      requires Valid()
      modifies this
      ensures Abs() == C.Combined(old(Abs()))
    {
      hide C.Count;
      if penaltyop && penaltyaddr {
        clockticks := C.Count(clockticks - 1);
      }
    }

    method Isb()
      requires Valid()
      modifies this, mem
      ensures Abs() == C.DoIsb(old(Abs()))
    {
      hide C.DoInc, C.DoSbc, C.Combined;
      Inc();
      Sbc();
      Refund();
    }

    method Rla()
      requires Valid()
      modifies this, mem
      ensures Abs() == C.DoRla(old(Abs()))
    {
      hide C.DoRol, C.DoAnd, C.Combined;
      Rol();
      And();
      Refund();
    }

    method Rra()
      requires Valid()
      modifies this, mem
      ensures Abs() == C.DoRra(old(Abs()))
    {
      hide C.DoRor, C.DoAdc, C.Combined;
      Ror();
      Adc();
      Refund();
    }

    method Slo()
      requires Valid()
      modifies this, mem
      ensures Abs() == C.DoSlo(old(Abs()))
    {
      hide C.DoAsl, C.DoOra, C.Combined;
      Asl();
      Ora();
      Refund();
    }

    method Sre()
      requires Valid()
      modifies this, mem
      ensures Abs() == C.DoSre(old(Abs()))
    {
      hide C.DoLsr, C.DoEor, C.Combined;
      Lsr();
      Eor();
      Refund();
    }

    method Dcp()
      requires Valid()
      modifies this, mem
      ensures Abs() == C.DoDcp(old(Abs()))
    {
      hide C.DoDec, C.Compare, C.Combined;
      Dec();
      penaltyop := true;
      Compare(a);
      Refund();
    }

    method Sax()
      requires Valid()
      modifies this, mem
      ensures Abs() == C.DoSax(old(Abs()))
    {
      hide ModeOf, C.And8, C.Combined;
      PutValue(a);
      PutValue(x);
      PutValue(C.And8(a, x));
      Refund();
    }

    method BranchOp()
      requires Valid()
      modifies this
      ensures Abs() == C.ExecuteBranch(old(Abs()))
    {
      hide OpOf, C.Branch, C.Has;
      var taken := match OpOf(op)
        case Bcc => !Is(C.CARRY)
        case Bcs => Is(C.CARRY)
        case Beq => Is(C.ZERO)
        case Bmi => Is(C.SIGN)
        case Bne => !Is(C.ZERO)
        case Bpl => !Is(C.SIGN)
        case Bvc => !Is(C.OVERFLOW)
        case _ => Is(C.OVERFLOW);
      Branch(taken);
    }

    method FlagOp()
      requires Valid()
      modifies this
      ensures Abs() == old(Abs()).(status := C.ExecuteFlag(old(Abs())))
    {
      hide OpOf, C.Flag;
      var o := OpOf(op);
      var flag := match o
        case Clc => C.CARRY
        case Cld => C.DECIMAL
        case Cli => C.INTERRUPT
        case Clv => C.OVERFLOW
        case Sec => C.CARRY
        case Sed => C.DECIMAL
        case _ => C.INTERRUPT;
      SetFlag(flag, !(o.Clc? || o.Cld? || o.Cli? || o.Clv?));
    }

    method RegisterOp()
      requires Valid()
      modifies this
      ensures Abs() == C.ExecuteRegister(old(Abs()))
    {
      hide OpOf, C.LoadA, C.LoadX, C.LoadY;
      var o := OpOf(op);
      if o.Dex? {
        LoadX(C.Byte(x - 1));
      } else if o.Dey? {
        LoadY(C.Byte(y - 1));
      } else if o.Inx? {
        LoadX(C.Byte(x + 1));
      } else if o.Iny? {
        LoadY(C.Byte(y + 1));
      } else if o.Tax? {
        LoadX(a);
      } else if o.Tay? {
        LoadY(a);
      } else if o.Tsx? {
        LoadX(sp);
      } else if o.Txa? {
        LoadA(x);
      } else if o.Txs? {
        sp := x;
      } else {
        LoadA(y);
      }
    }

    method Php()
      requires Valid()
      modifies this, mem
      ensures Abs() == C.DoPhp(old(Abs()))
    {
      hide C.Push8, C.FromBits;
      Push8(C.FromBits(status | C.BREAK));
    }

    method Pla()
      requires Valid()
      modifies this
      ensures Abs() == C.DoPla(old(Abs()))
    {
      hide C.Pull8, C.LoadA;
      var v := Pull8();
      LoadA(v);
    }

    method Plp()
      requires Valid()
      modifies this
      ensures Abs() == C.DoPlp(old(Abs()))
    {
      hide C.Pull8, C.Bits;
      var v := Pull8();
      status := C.Bits(v) | C.CONSTANT;
    }

    method StackOp()
      requires Valid()
      modifies this, mem
      ensures Abs() == C.ExecuteStack(old(Abs()))
    {
      hide OpOf, C.Push8, C.DoPhp, C.DoPla, C.DoPlp;
      var o := OpOf(op);
      if o.Pha? {
        Push8(a);
      } else if o.Php? {
        Php();
      } else if o.Pla? {
        Pla();
      } else {
        Plp();
      }
    }

    method JumpOp()
      requires Valid()
      modifies this, mem
      ensures Abs() == C.ExecuteJump(old(Abs()))
    {
      hide OpOf, C.DoBrk, C.DoJsr, C.DoRti, C.DoRts;
      var o := OpOf(op);
      if o.Brk? {
        Brk();
      } else if o.Jmp? {
        pc := ea;
      } else if o.Jsr? {
        Jsr();
      } else if o.Rti? {
        Rti();
      } else {
        Rts();
      }
    }

    method CombinedOp()
      requires Valid()
      modifies this, mem
      ensures Abs() == C.ExecuteCombined(old(Abs()))
    {
      hide OpOf, C.DoDcp, C.DoIsb, C.DoRla, C.DoRra, C.DoSlo, C.DoSre, C.DoSax;
      var o := OpOf(op);
      if o.Dcp? {
        Dcp();
      } else if o.Isb? {
        Isb();
      } else if o.Rla? {
        Rla();
      } else if o.Rra? {
        Rra();
      } else if o.Slo? {
        Slo();
      } else if o.Sre? {
        Sre();
      } else {
        Sax();
      }
    }

    method LoadStoreOp()
      requires Valid()
      modifies this, mem
      ensures Abs() == C.ExecuteLoadStore(old(Abs()))
    {
      hide OpOf, ModeOf, C.PutValue, C.LoadA, C.LoadX, C.LoadY, C.Compare;
      var o := OpOf(op);
      if o.Cmp? {
        penaltyop := true;
        Compare(a);
      } else if o.Cpx? {
        Compare(x);
      } else if o.Cpy? {
        Compare(y);
      } else if o.Lax? {
        penaltyop := true;
        LoadA(GetValue());
        LoadX(GetValue());
      } else if o.Lda? {
        penaltyop := true;
        LoadA(GetValue());
      } else if o.Ldx? {
        penaltyop := true;
        LoadX(GetValue());
      } else if o.Ldy? {
        penaltyop := true;
        LoadY(GetValue());
      } else if o.Sta? {
        PutValue(a);
      } else if o.Stx? {
        PutValue(x);
      } else {
        PutValue(y);
      }
    }

    method MemoryOp()
      requires Valid()
      modifies this, mem
      ensures Abs() == C.ExecuteMemory(old(Abs()))
    {
      hide OpOf, ModeOf, C.DoNop, C.DoBit, C.DoAdc, C.DoSbc, C.DoAnd, C.DoOra, C.DoEor, C.DoAsl, C.DoLsr,
           C.DoRol, C.DoRor, C.DoInc, C.DoDec;
      var o := OpOf(op);
      if o.Adc? {
        Adc();
      } else if o.And? {
        And();
      } else if o.Asl? {
        Asl();
      } else if o.Bit? {
        Bit();
      } else if o.Dec? {
        Dec();
      } else if o.Eor? {
        Eor();
      } else if o.Inc? {
        Inc();
      } else if o.Lsr? {
        Lsr();
      } else if o.Ora? {
        Ora();
      } else if o.Rol? {
        Rol();
      } else if o.Ror? {
        Ror();
      } else if o.Sbc? {
        Sbc();
      } else {
        Nop();
      }
    }

    // (*optable[opcode])()
    method Execute()
      requires Valid()
      modifies this, mem
      ensures Abs() == C.Execute(old(Abs()))
    {
      hide OpOf, C.ExecuteBranch, C.ExecuteFlag, C.ExecuteRegister, C.ExecuteJump, C.ExecuteStack, C.ExecuteCombined,
           C.ExecuteLoadStore, C.ExecuteMemory;
      var o := OpOf(op);
      if C.IsBranch(o) {
        BranchOp();
      } else if C.IsFlagOp(o) {
        FlagOp();
      } else if C.IsRegisterOp(o) {
        RegisterOp();
      } else if C.IsJump(o) {
        JumpOp();
      } else if C.IsStackOp(o) {
        StackOp();
      } else if C.IsCombined(o) {
        CombinedOp();
      } else if C.IsLoadOrStore(o) {
        LoadStoreOp();
      } else {
        MemoryOp();
      }
    }

    method Fetch()
      requires Valid()
      modifies this
      ensures Abs() == C.Fetch(old(Abs()))
    {
      op := Read(pc);
      pc := C.Word(pc + 1);
      status := status | C.CONSTANT;
      penaltyop, penaltyaddr := false, false;
    }

    method Instruction()
      requires Valid()
      modifies this, mem
      ensures Abs() == C.Instruction(old(Abs()))
    {
      hide C.Fetch, C.Address, C.Execute, Ticks, C.Count;
      Fetch();
      Address();
      Execute();
      var extra := if penaltyop && penaltyaddr then 1 else 0;
      clockticks := C.Count(clockticks + (Ticks(op) + extra));
      instructions := C.Count(instructions + 1);
    }

    // step6502
    method Step()
      requires Valid()
      modifies this, mem
      ensures Abs() == C.Step(old(Abs()))
    {
      hide C.Instruction;
      Instruction();
      clockgoal := clockticks;
    }

    // exec6502, as long as the goal stays clear of the 32-bit wrap.
    method Exec(tickcount: nat)
      requires Valid() && C.Count(clockgoal + tickcount) <= 0xFFFF_FFF8
      modifies this, mem
      ensures Abs() == Cycles.Exec(old(Abs()), tickcount)
    {
      hide C.Instruction, Cycles.Charge;
      clockgoal := C.Count(clockgoal + tickcount);
      while clockticks < clockgoal
        invariant clockgoal == C.Count(old(clockgoal) + tickcount)
        invariant Cycles.RunToGoal(Abs()) == Cycles.Exec(old(Abs()), tickcount)
        decreases clockgoal - clockticks
      {
        Cycles.ChargeRange(Abs());
        Instruction();
      }
    }
  }
}
