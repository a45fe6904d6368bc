/** The shifts and rotates act on operand and carry as one nine-bit number;
    rotating one way undoes rotating the other. */
module Shifts {
  import opened Opcodes
  import opened Cpu

  // The flags of a shift: carry, then zero and sign of the stored byte.
  lemma ThreeFlags(s: bv8, carry: bool, zero: bool, sign: bool)
    ensures var r := Flag(Flag(Flag(s, CARRY, carry), ZERO, zero), SIGN, sign);
            && (r & CARRY == CARRY <==> carry) && (r & ZERO == ZERO <==> zero) && (r & SIGN == SIGN <==> sign)
            && r & 0x7C == s & 0x7C
  {
  }

  // Nothing but the operand and the flags carry, zero and sign has changed,
  // and zero and sign describe the operand.
  predicate Shifted(c: Cpu, r: Cpu) {
    && (Has(r, ZERO) <==> Value(r) == 0) && (Has(r, SIGN) <==> Value(r) >= 128)
    && r.status & 0x7C == c.status & 0x7C
    && r == if ModeOf(c.opcode).Acc? then c.(status := r.status, a := r.a)
            else c.(status := r.status, mem := c.mem[c.ea := Value(r)])
  }

  lemma PutStores(c: Cpu, n: int)
    ensures var r := PutValue(c, n);
            && Value(r) == n % 256
            && r == if ModeOf(c.opcode).Acc? then c.(a := Value(r)) else c.(mem := c.mem[c.ea := Value(r)])
  {
    hide ModeOf;
  }

  lemma ModifyStatus(c: Cpu, carry: bool, n: int)
    ensures Modify(c, carry, n).status == ZeroSign(Flag(c.status, CARRY, carry), n)
  {
    hide ModeOf, ZeroSign, Flag;
  }

  lemma Modifies(c: Cpu, carry: bool, n: int)
    ensures var r := Modify(c, carry, n);
            Value(r) == n % 256 && (Has(r, CARRY) <==> carry) && Shifted(c, r)
  {
    hide ModeOf, Flag, PutValue, Value;
    var r, status := Modify(c, carry, n), ZeroSign(Flag(c.status, CARRY, carry), n);
    ModifyStatus(c, carry, n);
    ThreeFlags(c.status, carry, n % 256 == 0, n % 256 >= 128);
    PutStores(c.(status := status), n);
    assert status == Flag(Flag(Flag(c.status, CARRY, carry), ZERO, n % 256 == 0), SIGN, n % 256 >= 128);
    assert r == PutValue(c.(status := status), n);
  }

  /** asl and rol double the operand, with the carry on both sides. */
  lemma LeftExact(c: Cpu)
    ensures Value(DoAsl(c)) + 256 * CarryIn(DoAsl(c)) == 2 * Value(c)
    ensures Value(DoRol(c)) + 256 * CarryIn(DoRol(c)) == 2 * Value(c) + CarryIn(c)
    ensures Shifted(c, DoAsl(c)) && Shifted(c, DoRol(c))
  {
    hide Modify, Value, Has, Shifted;
    var v := Value(c);
    Modifies(c, v * 2 >= 256, v * 2);
    Modifies(c, v * 2 + CarryIn(c) >= 256, v * 2 + CarryIn(c));
  }

  /** lsr and ror halve it, the bit shifted out being the remainder. */
  lemma RightExact(c: Cpu)
    ensures 2 * Value(DoLsr(c)) + CarryIn(DoLsr(c)) == Value(c)
    ensures 2 * Value(DoRor(c)) + CarryIn(DoRor(c)) == Value(c) + 256 * CarryIn(c)
    ensures Shifted(c, DoLsr(c)) && Shifted(c, DoRor(c))
  {
    hide Modify, Value, Has, Shifted;
    var v := Value(c);
    Modifies(c, v % 2 == 1, v / 2);
    Modifies(c, v % 2 == 1, v / 2 + 128 * CarryIn(c));
  }

  // All that a rotate may change, but for the zero and sign flags.
  predicate Same(c: Cpu, r: Cpu) {
    r == c.(status := r.status) && r.status & 0x7D == c.status & 0x7D
  }

  lemma SameStatus(s: bv8, t: bv8)
    requires s & 0x7C == t & 0x7C && (s & CARRY == CARRY <==> t & CARRY == CARRY)
    ensures s & 0x7D == t & 0x7D
  {
  }

  // Two shifts after which operand and carry are the old ones change nothing else.
  lemma Restored(c: Cpu, c1: Cpu, r: Cpu)
    requires Shifted(c, c1) && Shifted(c1, r) && Value(r) == Value(c) && CarryIn(r) == CarryIn(c)
    ensures Same(c, r)
  {
    hide ModeOf;
    SameStatus(r.status, c.status);
    if ModeOf(c.opcode).Acc? {
    } else {
      assert c.mem[c.ea := Value(c1)][c.ea := Value(r)] == c.mem;
    }
  }

  /** ror undoes rol and rol undoes ror: operand, carry and the rest of the
      machine are back, but for the zero and sign flags. */
  lemma RotateBack(c: Cpu)
    ensures Same(c, DoRor(DoRol(c))) && Same(c, DoRol(DoRor(c)))
  {
    hide DoRol, DoRor, Value, Has, Shifted, Same;
    LeftExact(c);
    RightExact(DoRol(c));
    Restored(c, DoRol(c), DoRor(DoRol(c)));
    RightExact(c);
    LeftExact(DoRor(c));
    Restored(c, DoRor(c), DoRol(DoRor(c)));
  }
}
