/** The opcode byte decoded by its bit fields aaabbbcc: the four tables of emulator
    and disassembler hold nothing else, so they agree wherever both know an
    opcode. */
module Decoding {
  import opened Opcodes

  // The addressing mode, from bbb and cc; aaa matters only where an operation has
  // no operand, or its register is y.
  function ModeBits(a: int, b: int, c: int): Mode {
    var usesY := a == 4 || a == 5;
    if b == 1 then Zp
    else if b == 3 then (if a == 3 && c == 0 then Ind else Abso)
    else if b == 5 then (if c >= 2 && usesY then Zpy else Zpx)
    else if b == 7 then (if c >= 2 && usesY then Absy else Absx)
    else if c == 1 || c == 3 then (if b == 0 then Indx else if b == 2 then Imm else if b == 4 then Indy else Absy)
    else if b == 0 then (if a >= 4 then Imm else if a == 1 && c == 0 then Abso else Imp)
    else if b == 2 then (if c == 2 && a < 4 then Acc else Imp)
    else if b == 4 && c == 0 then Rel
    else Imp
  }

  // The accumulator operations.
  function Arithmetic(a: int): Op {
    if a == 0 then Ora else if a == 1 then And else if a == 2 then Eor else if a == 3 then Adc
    else if a == 4 then Sta else if a == 5 then Lda else if a == 6 then Cmp else Sbc
  }

  // Read-modify-write, and x.
  function Modifying(a: int): Op {
    if a == 0 then Asl else if a == 1 then Rol else if a == 2 then Lsr else if a == 3 then Ror
    else if a == 4 then Stx else if a == 5 then Ldx else if a == 6 then Dec else Inc
  }

  // Undocumented: a modifying and an accumulator operation in one.
  function Both(a: int): Op {
    if a == 0 then Slo else if a == 1 then Rla else if a == 2 then Sre else if a == 3 then Rra
    else if a == 4 then Sax else if a == 5 then Lax else if a == 6 then Dcp else Isb
  }

  function Branches(a: int): Op {
    if a == 0 then Bpl else if a == 1 then Bmi else if a == 2 then Bvc else if a == 3 then Bvs
    else if a == 4 then Bcc else if a == 5 then Bcs else if a == 6 then Bne else Beq
  }

  function Flags(a: int): Op {
    if a == 0 then Clc else if a == 1 then Sec else if a == 2 then Cli else if a == 3 then Sei
    else if a == 4 then Tya else if a == 5 then Clv else if a == 6 then Cld else Sed
  }

  function Stacked(a: int): Op {
    if a == 0 then Php else if a == 1 then Plp else if a == 2 then Pha else if a == 3 then Pla
    else if a == 4 then Dey else if a == 5 then Tay else if a == 6 then Iny else Inx
  }

  // y, the comparisons with x and y, and control.
  function Others(a: int, b: int): Op {
    if a == 5 then Ldy
    else if b == 0 then
      (if a == 0 then Brk else if a == 1 then Jsr else if a == 2 then Rti else if a == 3 then Rts
       else if a == 4 then Nop else if a == 6 then Cpy else Cpx)
    else if a == 4 && b != 7 then Sty
    else if (a == 6 || a == 7) && b <= 3 then (if a == 6 then Cpy else Cpx)
    else if a == 1 && b <= 3 then Bit
    else if (a == 2 || a == 3) && b == 3 then Jmp
    else Nop
  }

  function OpBits(a: int, b: int, c: int): Op {
    if c == 1 then (if a == 4 && b == 2 then Nop else Arithmetic(a))
    else if c == 3 then
      (if b == 2 then (if a == 7 then Sbc else Nop)
       else if a == 4 && (b == 4 || b >= 6) then Nop
       else Both(a))
    else if c == 2 then
      (if b == 0 then (if a == 5 then Ldx else Nop)
       else if b == 2 && a >= 4 then (if a == 4 then Txa else if a == 5 then Tax else if a == 6 then Dex else Nop)
       else if b == 6 && (a == 4 || a == 5) then (if a == 4 then Txs else Tsx)
       else if b == 4 || b == 6 || (a == 4 && b == 7) then Nop
       else Modifying(a))
    else
      (if b == 2 then Stacked(a) else if b == 4 then Branches(a) else if b == 6 then Flags(a) else Others(a, b))
  }

  predicate IsStore(o: Op) {
    o.Sta? || o.Stx? || o.Sty? || o.Sax?
  }

  // Documented operations that read, change and write back their operand.
  predicate Rewrites(o: Op) {
    o.Asl? || o.Rol? || o.Lsr? || o.Ror? || o.Inc? || o.Dec?
  }

  predicate IsUndocumented(o: Op) {
    o.Slo? || o.Rla? || o.Sre? || o.Rra? || o.Sax? || o.Lax? || o.Dcp? || o.Isb?
  }

  // Cycles of an access to the operand; one more to write it indexed, as the
  // address is settled first, and two to write it back.
  function AccessCycles(mode: Mode, store: bool, rewrite: bool): int {
    var fixed := store || rewrite;
    (match mode
     case Imp => 2 case Acc => 2 case Imm => 2 case Rel => 2
     case Zp => 3 case Zpx => 4 case Zpy => 4 case Abso => 4
     case Absx => if fixed then 5 else 4
     case Absy => if fixed then 5 else 4
     case Ind => 5
     case Indx => 6
     case Indy => if fixed then 6 else 5) +
    if rewrite && !mode.Acc? then 2 else 0
  }

  // An opcode without an operation costs what a store or a read would, by the
  // place it has in the table.
  function CyclesBits(a: int, o: Op, mode: Mode): int {
    if o.Brk? then 7
    else if o.Jsr? || o.Rts? || o.Rti? then 6
    else if o.Jmp? then (if mode.Ind? then 5 else 3)
    else if o.Pha? || o.Php? then 3
    else if o.Pla? || o.Plp? then 4
    else AccessCycles(mode, IsStore(o) || (o.Nop? && a == 4), Rewrites(o) || (IsUndocumented(o) && !o.Sax? && !o.Lax?))
  }

  // How the disassembler shows an addressing mode.
  function ShownAs(mode: Mode): DisType {
    match mode
    case Imp => NoOperand case Acc => ARegister case Imm => Immediate case Rel => Relative
    case Zp => ZeroPage case Zpx => ZeroPageX case Zpy => ZeroPageY
    case Abso => Absolute case Absx => AbsoluteX case Absy => AbsoluteY
    case Ind => AbsoluteIndirect case Indx => PreIndexed case Indy => PostIndexed
  }

  // It knows the documented opcodes: of those for nop and sbc only one each.
  predicate Documented(a: int, b: int, c: int, o: Op) {
    !IsUndocumented(o) && (o.Nop? ==> a == 7 && b == 2 && c == 2) && (o.Sbc? ==> c == 1)
  }

  predicate Decoded(op: opcode, a: int, b: int, c: int) {
    && OpOf(op) == OpBits(a, b, c) && ModeOf(op) == ModeBits(a, b, c)
  }

  predicate Timed(op: opcode, a: int, b: int, c: int) {
    && Ticks(op) == CyclesBits(a, OpBits(a, b, c), ModeBits(a, b, c))
  }

  predicate Listed(op: opcode, a: int, b: int, c: int) {
    && DisOf(op) == if Documented(a, b, c, OpBits(a, b, c)) then ShownAs(ModeBits(a, b, c)) else Und
  }

  lemma Decoded0(op: opcode, b: int, c: int)
    requires op == 0 + 4 * b + c && 0 <= b < 8 && 0 <= c < 4
    ensures Decoded(op, 0, b, c)
  {
    if c == 0 {
    } else if c == 1 {
    } else if c == 2 {
    } else {
    }
  }

  lemma TimedPlain0(op: opcode, b: int, c: int)
    requires op == 0 + 4 * b + c && 0 <= b < 8 && 0 <= c < 2
    ensures Timed(op, 0, b, c)
  {
    if c == 0 {
    } else {
    }
  }

  lemma TimedWide0(op: opcode, b: int, c: int)
    requires op == 0 + 4 * b + c && 0 <= b < 8 && 2 <= c < 4
    ensures Timed(op, 0, b, c)
  {
    if c == 2 {
    } else {
    }
  }

  lemma Listed0(op: opcode, b: int, c: int)
    requires op == 0 + 4 * b + c && 0 <= b < 8 && 0 <= c < 4
    ensures Listed(op, 0, b, c)
  {
    if c == 0 {
    } else if c == 1 {
    } else if c == 2 {
    } else {
    }
  }

  lemma Decoded1(op: opcode, b: int, c: int)
    requires op == 32 + 4 * b + c && 0 <= b < 8 && 0 <= c < 4
    ensures Decoded(op, 1, b, c)
  {
    if c == 0 {
    } else if c == 1 {
    } else if c == 2 {
    } else {
    }
  }

  lemma TimedPlain1(op: opcode, b: int, c: int)
    requires op == 32 + 4 * b + c && 0 <= b < 8 && 0 <= c < 2
    ensures Timed(op, 1, b, c)
  {
    if c == 0 {
    } else {
    }
  }

  lemma TimedWide1(op: opcode, b: int, c: int)
    requires op == 32 + 4 * b + c && 0 <= b < 8 && 2 <= c < 4
    ensures Timed(op, 1, b, c)
  {
    if c == 2 {
    } else {
    }
  }

  lemma Listed1(op: opcode, b: int, c: int)
    requires op == 32 + 4 * b + c && 0 <= b < 8 && 0 <= c < 4
    ensures Listed(op, 1, b, c)
  {
    if c == 0 {
    } else if c == 1 {
    } else if c == 2 {
    } else {
    }
  }

  lemma Decoded2(op: opcode, b: int, c: int)
    requires op == 64 + 4 * b + c && 0 <= b < 8 && 0 <= c < 4
    ensures Decoded(op, 2, b, c)
  {
    if c == 0 {
    } else if c == 1 {
    } else if c == 2 {
    } else {
    }
  }

  lemma TimedPlain2(op: opcode, b: int, c: int)
    requires op == 64 + 4 * b + c && 0 <= b < 8 && 0 <= c < 2
    ensures Timed(op, 2, b, c)
  {
    if c == 0 {
    } else {
    }
  }

  lemma TimedWide2(op: opcode, b: int, c: int)
    requires op == 64 + 4 * b + c && 0 <= b < 8 && 2 <= c < 4
    ensures Timed(op, 2, b, c)
  {
    if c == 2 {
    } else {
    }
  }

  lemma Listed2(op: opcode, b: int, c: int)
    requires op == 64 + 4 * b + c && 0 <= b < 8 && 0 <= c < 4
    ensures Listed(op, 2, b, c)
  {
    if c == 0 {
    } else if c == 1 {
    } else if c == 2 {
    } else {
    }
  }

  lemma Decoded3(op: opcode, b: int, c: int)
    requires op == 96 + 4 * b + c && 0 <= b < 8 && 0 <= c < 4
    ensures Decoded(op, 3, b, c)
  {
    if c == 0 {
    } else if c == 1 {
    } else if c == 2 {
    } else {
    }
  }

  lemma TimedPlain3(op: opcode, b: int, c: int)
    requires op == 96 + 4 * b + c && 0 <= b < 8 && 0 <= c < 2
    ensures Timed(op, 3, b, c)
  {
    if c == 0 {
    } else {
    }
  }

  lemma TimedWide3(op: opcode, b: int, c: int)
    requires op == 96 + 4 * b + c && 0 <= b < 8 && 2 <= c < 4
    ensures Timed(op, 3, b, c)
  {
    if c == 2 {
    } else {
    }
  }

  lemma Listed3(op: opcode, b: int, c: int)
    requires op == 96 + 4 * b + c && 0 <= b < 8 && 0 <= c < 4
    ensures Listed(op, 3, b, c)
  {
    if c == 0 {
    } else if c == 1 {
    } else if c == 2 {
    } else {
    }
  }

  lemma Decoded4(op: opcode, b: int, c: int)
    requires op == 128 + 4 * b + c && 0 <= b < 8 && 0 <= c < 4
    ensures Decoded(op, 4, b, c)
  {
    if c == 0 {
    } else if c == 1 {
    } else if c == 2 {
    } else {
    }
  }

  lemma TimedPlain4(op: opcode, b: int, c: int)
    requires op == 128 + 4 * b + c && 0 <= b < 8 && 0 <= c < 2
    ensures Timed(op, 4, b, c)
  {
    if c == 0 {
    } else {
    }
  }

  lemma TimedWide4(op: opcode, b: int, c: int)
    requires op == 128 + 4 * b + c && 0 <= b < 8 && 2 <= c < 4
    ensures Timed(op, 4, b, c)
  {
    if c == 2 {
    } else {
    }
  }

  lemma Listed4(op: opcode, b: int, c: int)
    requires op == 128 + 4 * b + c && 0 <= b < 8 && 0 <= c < 4
    ensures Listed(op, 4, b, c)
  {
    if c == 0 {
    } else if c == 1 {
    } else if c == 2 {
    } else {
    }
  }

  lemma Decoded5(op: opcode, b: int, c: int)
    requires op == 160 + 4 * b + c && 0 <= b < 8 && 0 <= c < 4
    ensures Decoded(op, 5, b, c)
  {
    if c == 0 {
    } else if c == 1 {
    } else if c == 2 {
    } else {
    }
  }

  lemma TimedPlain5(op: opcode, b: int, c: int)
    requires op == 160 + 4 * b + c && 0 <= b < 8 && 0 <= c < 2
    ensures Timed(op, 5, b, c)
  {
    if c == 0 {
    } else {
    }
  }

  lemma TimedWide5(op: opcode, b: int, c: int)
    requires op == 160 + 4 * b + c && 0 <= b < 8 && 2 <= c < 4
    ensures Timed(op, 5, b, c)
  {
    if c == 2 {
    } else {
    }
  }

  lemma Listed5(op: opcode, b: int, c: int)
    requires op == 160 + 4 * b + c && 0 <= b < 8 && 0 <= c < 4
    ensures Listed(op, 5, b, c)
  {
    if c == 0 {
    } else if c == 1 {
    } else if c == 2 {
    } else {
    }
  }

  lemma Decoded6(op: opcode, b: int, c: int)
    requires op == 192 + 4 * b + c && 0 <= b < 8 && 0 <= c < 4
    ensures Decoded(op, 6, b, c)
  {
    if c == 0 {
    } else if c == 1 {
    } else if c == 2 {
    } else {
    }
  }

  lemma TimedPlain6(op: opcode, b: int, c: int)
    requires op == 192 + 4 * b + c && 0 <= b < 8 && 0 <= c < 2
    ensures Timed(op, 6, b, c)
  {
    if c == 0 {
    } else {
    }
  }

  lemma TimedWide6(op: opcode, b: int, c: int)
    requires op == 192 + 4 * b + c && 0 <= b < 8 && 2 <= c < 4
    ensures Timed(op, 6, b, c)
  {
    if c == 2 {
    } else {
    }
  }

  lemma Listed6(op: opcode, b: int, c: int)
    requires op == 192 + 4 * b + c && 0 <= b < 8 && 0 <= c < 4
    ensures Listed(op, 6, b, c)
  {
    if c == 0 {
    } else if c == 1 {
    } else if c == 2 {
    } else {
    }
  }

  lemma Decoded7(op: opcode, b: int, c: int)
    requires op == 224 + 4 * b + c && 0 <= b < 8 && 0 <= c < 4
    ensures Decoded(op, 7, b, c)
  {
    if c == 0 {
    } else if c == 1 {
    } else if c == 2 {
    } else {
    }
  }

  lemma TimedPlain7(op: opcode, b: int, c: int)
    requires op == 224 + 4 * b + c && 0 <= b < 8 && 0 <= c < 2
    ensures Timed(op, 7, b, c)
  {
    if c == 0 {
    } else {
    }
  }

  lemma TimedWide7(op: opcode, b: int, c: int)
    requires op == 224 + 4 * b + c && 0 <= b < 8 && 2 <= c < 4
    ensures Timed(op, 7, b, c)
  {
    if c == 2 {
    } else {
    }
  }

  lemma Listed7(op: opcode, b: int, c: int)
    requires op == 224 + 4 * b + c && 0 <= b < 8 && 0 <= c < 4
    ensures Listed(op, 7, b, c)
  {
    if c == 0 {
    } else if c == 1 {
    } else if c == 2 {
    } else {
    }
  }

  lemma Fields(op: opcode) returns (a: int, b: int, c: int)
    ensures a == op / 32 && b == op / 4 % 8 && c == op % 4
    ensures op == 32 * a + 4 * b + c && 0 <= a < 8 && 0 <= b < 8 && 0 <= c < 4
  {
    a, b, c := op / 32, op / 4 % 8, op % 4;
  }

  /** All four tables, for every opcode, from its bit fields. */
  lemma TablesFollowBits(op: opcode)
    ensures OpOf(op) == OpBits(op / 32, op / 4 % 8, op % 4)
    ensures ModeOf(op) == ModeBits(op / 32, op / 4 % 8, op % 4)
    ensures Ticks(op) == CyclesBits(op / 32, OpOf(op), ModeOf(op))
    ensures DisOf(op) == if Documented(op / 32, op / 4 % 8, op % 4, OpOf(op)) then ShownAs(ModeOf(op)) else Und
  {
    hide OpOf, ModeOf, Ticks, DisOf, OpBits, ModeBits, CyclesBits, Documented, ShownAs;
    var a, b, c := Fields(op);
    match a
    case 0 =>
      Decoded0(op, b, c);
      if c < 2 {
        TimedPlain0(op, b, c);
      } else {
        TimedWide0(op, b, c);
      }
      Listed0(op, b, c);
    case 1 =>
      Decoded1(op, b, c);
      if c < 2 {
        TimedPlain1(op, b, c);
      } else {
        TimedWide1(op, b, c);
      }
      Listed1(op, b, c);
    case 2 =>
      Decoded2(op, b, c);
      if c < 2 {
        TimedPlain2(op, b, c);
      } else {
        TimedWide2(op, b, c);
      }
      Listed2(op, b, c);
    case 3 =>
      Decoded3(op, b, c);
      if c < 2 {
        TimedPlain3(op, b, c);
      } else {
        TimedWide3(op, b, c);
      }
      Listed3(op, b, c);
    case 4 =>
      Decoded4(op, b, c);
      if c < 2 {
        TimedPlain4(op, b, c);
      } else {
        TimedWide4(op, b, c);
      }
      Listed4(op, b, c);
    case 5 =>
      Decoded5(op, b, c);
      if c < 2 {
        TimedPlain5(op, b, c);
      } else {
        TimedWide5(op, b, c);
      }
      Listed5(op, b, c);
    case 6 =>
      Decoded6(op, b, c);
      if c < 2 {
        TimedPlain6(op, b, c);
      } else {
        TimedWide6(op, b, c);
      }
      Listed6(op, b, c);
    case _ =>
      Decoded7(op, b, c);
      if c < 2 {
        TimedPlain7(op, b, c);
      } else {
        TimedWide7(op, b, c);
      }
      Listed7(op, b, c);
  }

  /** Whatever the disassembler knows it shows in the addressing mode the emulator
      uses, and what it does not know is undocumented. */
  lemma DecodersAgree(op: opcode)
    ensures DisOf(op).Und? || DisOf(op) == ShownAs(ModeOf(op))
    ensures DisOf(op).Und? ==> IsUndocumented(OpOf(op)) || OpOf(op).Nop? || op == 0xEB
    ensures IsUndocumented(OpOf(op)) ==> DisOf(op).Und?
  {
    hide OpOf, ModeOf, Ticks, DisOf, ModeBits;
    TablesFollowBits(op);
    var a, b, c := Fields(op);
  }
}
