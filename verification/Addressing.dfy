/** Where each addressing mode finds its operand, from the bytes of the
    instruction and the index registers. */
module Addressing {
  import opened Bytes
  import opened Opcodes
  import opened Cpu
  import Disassembler

  // The n-th byte of the instruction at pc, and its operand as a word.
  function InstructionByte(c: Cpu, n: nat): byte {
    c.mem[(c.pc + n) % 0x1_0000]
  }

  function OperandWord(c: Cpu): word {
    var lo: int, hi: int := InstructionByte(c, 1), InstructionByte(c, 2);
    lo + 256 * hi
  }

  // The pointer at p in page zero, whose second byte wraps within the page.
  function ZeroPagePointer(c: Cpu, p: int): word {
    var lo: int, hi: int := c.mem[p % 256], c.mem[(p + 1) % 256];
    lo + 256 * hi
  }

  // The pointer at w, whose second byte comes from the same page.
  function PagePointer(c: Cpu, w: word): word
  {
    var lo: int, hi: int := c.mem[w], c.mem[if w % 256 == 255 then w - 255 else w + 1];
    lo + 256 * hi
  }

  /** The effective address of the instruction at pc. */
  predicate FindsOperand(c: Cpu, mode: Mode, ea: int) {
    && (mode.Imm? ==> ea == (c.pc + 1) % 0x1_0000)
    && (mode.Zp? ==> ea == InstructionByte(c, 1))
    && (mode.Zpx? ==> ea == (InstructionByte(c, 1) + c.x) % 256)
    && (mode.Zpy? ==> ea == (InstructionByte(c, 1) + c.y) % 256)
    && (mode.Abso? ==> ea == OperandWord(c))
    && (mode.Absx? ==> ea == (OperandWord(c) + c.x) % 0x1_0000)
    && (mode.Absy? ==> ea == (OperandWord(c) + c.y) % 0x1_0000)
    && (mode.Ind? ==> ea == PagePointer(c, OperandWord(c)))
    && (mode.Indx? ==> ea == ZeroPagePointer(c, InstructionByte(c, 1) + c.x))
    && (mode.Indy? ==> ea == (ZeroPagePointer(c, InstructionByte(c, 1)) + c.y) % 0x1_0000)
  }

  // Indexing carries into the high byte of the address.
  predicate CrossesPage(c: Cpu, mode: Mode) {
    || (mode.Absx? && OperandWord(c) % 256 + c.x >= 256)
    || (mode.Absy? && OperandWord(c) % 256 + c.y >= 256)
    || (mode.Indy? && ZeroPagePointer(c, InstructionByte(c, 1)) % 256 + c.y >= 256)
  }

  // All that fetching and addressing change.
  predicate OnlyDecodes(c: Cpu, r: Cpu) {
    r == c.(pc := r.pc, ea := r.ea, reladdr := r.reladdr, opcode := c.mem[c.pc], status := c.status | CONSTANT,
            penaltyop := false, penaltyaddr := r.penaltyaddr)
  }

  lemma FetchedBytes(c: Cpu)
    ensures var f := Fetch(c);
            && f.opcode == c.mem[c.pc] && Read(f, f.pc) == InstructionByte(c, 1)
            && Operand16(f) == OperandWord(c) && f.x == c.x && f.y == c.y && f.mem == c.mem
            && f.pc == (c.pc + 1) % 0x1_0000 && !f.penaltyaddr
  {
  }

  lemma ZeroPageRead(c: Cpu, p: int)
    ensures Read16(c, Byte(p), Byte(Byte(p) + 1)) == ZeroPagePointer(c, p)
  {
    assert Byte(Byte(p) + 1) == Byte(p + 1);
    assert Word(Byte(p)) == p % 256 && Word(Byte(p + 1)) == (p + 1) % 256;
  }

  lemma SmallByte(p: byte)
    ensures Byte(p) == p
  {
  }

  lemma PagePointers(c: Cpu, w: word)
    ensures Read16(c, w, w / 256 * 256 + Byte(w + 1)) == PagePointer(c, w)
  {
  }

  lemma PageCarry(base: word, index: byte)
    ensures Word(base + index) / 256 != base / 256 <==> base % 256 + index >= 256
  {
  }

  // One mode after the other, behind the opcode.
  lemma AddressFinds(f: Cpu)
    ensures var r, m, p := Address(f), f.mem, f.pc;
            && (ModeOf(f.opcode).Imm? ==> r.ea == p)
            && (ModeOf(f.opcode).Zp? ==> r.ea == Read(f, p))
            && (ModeOf(f.opcode).Zpx? ==> r.ea == Byte(Read(f, p) + f.x))
            && (ModeOf(f.opcode).Zpy? ==> r.ea == Byte(Read(f, p) + f.y))
            && (ModeOf(f.opcode).Abso? ==> r.ea == Operand16(f))
            && (ModeOf(f.opcode).Absx? ==> r.ea == Word(Operand16(f) + f.x))
            && (ModeOf(f.opcode).Absy? ==> r.ea == Word(Operand16(f) + f.y))
            && (ModeOf(f.opcode).Ind? ==> r.ea == PagePointer(f, Operand16(f)))
            && (ModeOf(f.opcode).Indx? ==> r.ea == ZeroPagePointer(f, Read(f, p) + f.x))
            && (ModeOf(f.opcode).Indy? ==> r.ea == Word(ZeroPagePointer(f, Read(f, p)) + f.y))
  {
    hide ModeOf, Read, Read16, Word, Byte, Operand16, PagePointer, ZeroPagePointer;
    ZeroPageRead(f, Read(f, f.pc));
    SmallByte(Read(f, f.pc));
    ZeroPageRead(f, Read(f, f.pc) + f.x);
    PagePointers(f, Operand16(f));
  }

  // Penalty and relative address of the same.
  lemma AddressPenalises(f: Cpu)
    ensures var r, p, mode := Address(f), f.pc, ModeOf(f.opcode);
            var w, z := Operand16(f), ZeroPagePointer(f, Read(f, p));
            && r.penaltyaddr == (f.penaltyaddr ||
                                 (mode.Absx? && Word(w + f.x) / 256 != w / 256) ||
                                 (mode.Absy? && Word(w + f.y) / 256 != w / 256) ||
                                 (mode.Indy? && Word(z + f.y) / 256 != z / 256))
            && (mode.Rel? ==> r.reladdr == if Read(f, p) >= 0x80 then Read(f, p) + 0xFF00 else Read(f, p))
            && r == f.(pc := r.pc, ea := r.ea, reladdr := r.reladdr, penaltyaddr := r.penaltyaddr)
  {
    hide ModeOf, Read, Read16, Word, Byte, Operand16, ZeroPagePointer;
    ZeroPageRead(f, Read(f, f.pc));
    SmallByte(Read(f, f.pc));
  }

  // Fetching leaves the pointers as they were.
  lemma SamePointers(c: Cpu, f: Cpu)
    requires f.mem == c.mem
    ensures forall p: int :: ZeroPagePointer(f, p) == ZeroPagePointer(c, p)
    ensures forall w: word :: PagePointer(f, w) == PagePointer(c, w)
  {
  }

  /** Every addressing mode finds its operand where its name says, crosses a page
      when indexing carries, and changes nothing but the latches. */
  lemma AddressingExact(c: Cpu)
    ensures var r, mode := Address(Fetch(c)), ModeOf(c.mem[c.pc]);
            && FindsOperand(c, mode, r.ea)
            && (r.penaltyaddr <==> CrossesPage(c, mode))
            && r.pc == (c.pc + 1 + Disassembler.OperandBytes(mode)) % 0x1_0000
            && OnlyDecodes(c, r)
  {
    hide ModeOf, Address, Disassembler.OperandBytes, Fetch, FindsOperand, CrossesPage;
    OperandFound(c);
    PagesCrossed(c);
    Disassembler.FetchedPc(c);
    FetchedOnly(c);
    AddressPenalises(Fetch(c));
  }

  lemma OperandFound(c: Cpu)
    ensures FindsOperand(c, ModeOf(c.mem[c.pc]), Address(Fetch(c)).ea)
  {
    hide ModeOf, Read, Operand16, ZeroPagePointer, PagePointer, Address, InstructionByte, OperandWord, Fetch;
    FetchedBytes(c);
    SamePointers(c, Fetch(c));
    AddressFinds(Fetch(c));
  }

  lemma PagesCrossed(c: Cpu)
    ensures Address(Fetch(c)).penaltyaddr <==> CrossesPage(c, ModeOf(c.mem[c.pc]))
  {
    hide ModeOf, Read, Operand16, ZeroPagePointer, PagePointer, Address, InstructionByte, OperandWord, Fetch, Word;
    FetchedBytes(c);
    SamePointers(c, Fetch(c));
    AddressPenalises(Fetch(c));
    PageCarry(OperandWord(c), c.x);
    PageCarry(OperandWord(c), c.y);
    PageCarry(ZeroPagePointer(c, InstructionByte(c, 1)), c.y);
  }

  lemma FetchedOnly(c: Cpu)
    ensures var f := Fetch(c);
            f == c.(pc := f.pc, opcode := c.mem[c.pc], status := c.status | CONSTANT,
                    penaltyop := false, penaltyaddr := false)
  {
  }
}
