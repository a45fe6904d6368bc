/** What the remaining operations compute: comparison as unsigned order, the
    logical operations bit by bit, counting modulo 256, and the test of bits. */
module Operations {
  import opened Bytes
  import opened Opcodes
  import opened Cpu
  import opened BitFacts
  import Shifts
  import Disassembler

  // Bit k of a number.
  predicate BitSet(v: nat, k: nat)
    decreases k
  {
    if k == 0 then v % 2 == 1 else BitSet(v / 2, k - 1)
  }

  lemma HalfBits(w: bv8)
    ensures FromBits(w >> 1) == FromBits(w) / 2
    ensures w & 1 != 0 <==> FromBits(w) % 2 == 1
  {
  }

  // x & y, half of it and its lowest bit.
  lemma AndHalf(x: bv8, y: bv8, z: bv8)
    requires z == x & y
    ensures z >> 1 == (x >> 1) & (y >> 1)
    ensures z & 1 != 0 <==> x & 1 != 0 && y & 1 != 0
  {
  }

  lemma {:induction false} AndBit(x: bv8, y: bv8, z: bv8, k: nat)
    requires z == x & y
    ensures BitSet(FromBits(z), k) <==> BitSet(FromBits(x), k) && BitSet(FromBits(y), k)
    decreases k
  {
    HalfBits(x);
    HalfBits(y);
    HalfBits(z);
    AndHalf(x, y, z);
    if k > 0 {
      AndBit(x >> 1, y >> 1, z >> 1, k - 1);
    }
  }

  // x | y, half of it and its lowest bit.
  lemma OrHalf(x: bv8, y: bv8, z: bv8)
    requires z == x | y
    ensures z >> 1 == (x >> 1) | (y >> 1)
    ensures z & 1 != 0 <==> x & 1 != 0 || y & 1 != 0
  {
  }

  lemma {:induction false} OrBit(x: bv8, y: bv8, z: bv8, k: nat)
    requires z == x | y
    ensures BitSet(FromBits(z), k) <==> BitSet(FromBits(x), k) || BitSet(FromBits(y), k)
    decreases k
  {
    HalfBits(x);
    HalfBits(y);
    HalfBits(z);
    OrHalf(x, y, z);
    if k > 0 {
      OrBit(x >> 1, y >> 1, z >> 1, k - 1);
    }
  }

  // x ^ y, half of it and its lowest bit.
  lemma XorHalf(x: bv8, y: bv8, z: bv8)
    requires z == x ^ y
    ensures z >> 1 == (x >> 1) ^ (y >> 1)
    ensures z & 1 != 0 <==> (x & 1 != 0) != (y & 1 != 0)
  {
  }

  lemma {:induction false} XorBit(x: bv8, y: bv8, z: bv8, k: nat)
    requires z == x ^ y
    ensures BitSet(FromBits(z), k) <==> BitSet(FromBits(x), k) != BitSet(FromBits(y), k)
    decreases k
  {
    HalfBits(x);
    HalfBits(y);
    HalfBits(z);
    XorHalf(x, y, z);
    if k > 0 {
      XorBit(x >> 1, y >> 1, z >> 1, k - 1);
    }
  }

  lemma BitsFound(m: byte) returns (x: bv8)
    ensures FromBits(x) == m && Bits(m) == x
  {
    x := BitsOf(m);
    BitsRoundTrip(x);
  }

  lemma AndIs(m: byte, n: byte, x: bv8, y: bv8)
    requires Bits(m) == x && Bits(n) == y
    ensures And8(m, n) == FromBits(x & y)
  {
    hide Bits, FromBits;
  }

  lemma AndBitwise(m: byte, n: byte, k: nat)
    ensures BitSet(And8(m, n), k) <==> BitSet(m, k) && BitSet(n, k)
  {
    hide BitSet, Bits, FromBits, And8;
    var x := BitsFound(m);
    var y := BitsFound(n);
    AndIs(m, n, x, y);
    AndBit(x, y, x & y, k);
  }

  lemma OrIs(m: byte, n: byte, x: bv8, y: bv8)
    requires Bits(m) == x && Bits(n) == y
    ensures Or8(m, n) == FromBits(x | y)
  {
    hide Bits, FromBits;
  }

  lemma OrBitwise(m: byte, n: byte, k: nat)
    ensures BitSet(Or8(m, n), k) <==> BitSet(m, k) || BitSet(n, k)
  {
    hide BitSet, Bits, FromBits, Or8;
    var x := BitsFound(m);
    var y := BitsFound(n);
    OrIs(m, n, x, y);
    OrBit(x, y, x | y, k);
  }

  lemma XorIs(m: byte, n: byte, x: bv8, y: bv8)
    requires Bits(m) == x && Bits(n) == y
    ensures Xor8(m, n) == FromBits(x ^ y)
  {
    hide Bits, FromBits;
  }

  lemma XorBitwise(m: byte, n: byte, k: nat)
    ensures BitSet(Xor8(m, n), k) <==> BitSet(m, k) != BitSet(n, k)
  {
    hide BitSet, Bits, FromBits, Xor8;
    var x := BitsFound(m);
    var y := BitsFound(n);
    XorIs(m, n, x, y);
    XorBit(x, y, x ^ y, k);
  }

  /** and, ora and eor combine their operands bit by bit. */
  lemma LogicBitwise(m: byte, n: byte, k: nat)
    ensures BitSet(And8(m, n), k) <==> BitSet(m, k) && BitSet(n, k)
    ensures BitSet(Or8(m, n), k) <==> BitSet(m, k) || BitSet(n, k)
    ensures BitSet(Xor8(m, n), k) <==> BitSet(m, k) != BitSet(n, k)
  {
    hide BitSet, And8, Or8, Xor8;
    AndBitwise(m, n, k);
    OrBitwise(m, n, k);
    XorBitwise(m, n, k);
  }

  // The zero and sign flags alone, set for v.
  predicate Describes(c: Cpu, r: Cpu, v: int) {
    && (Has(r, ZERO) <==> v == 0) && (Has(r, SIGN) <==> v >= 128)
    && r.status & 0x7D == c.status & 0x7D
  }

  lemma Described(s: bv8, v: byte)
    ensures ZeroSign(s, v) & ZERO == ZERO <==> v == 0
    ensures ZeroSign(s, v) & SIGN == SIGN <==> v >= 128
    ensures ZeroSign(s, v) & 0x7D == s & 0x7D
  {
  }

  // Only the accumulator, the flags and the page-crossing penalty differ.
  predicate OnlyA(c: Cpu, r: Cpu) {
    r == c.(a := r.a, status := r.status, penaltyop := true)
  }

  /** and, ora and eor: every bit of the new accumulator, its flags, and nothing
      else. */
  lemma LogicExact(c: Cpu, k: nat)
    ensures var r := DoAnd(c);
            OnlyA(c, r) && Describes(c, r, r.a) && (BitSet(r.a, k) <==> BitSet(c.a, k) && BitSet(Value(c), k))
    ensures var r := DoOra(c);
            OnlyA(c, r) && Describes(c, r, r.a) && (BitSet(r.a, k) <==> BitSet(c.a, k) || BitSet(Value(c), k))
    ensures var r := DoEor(c);
            OnlyA(c, r) && Describes(c, r, r.a) && (BitSet(r.a, k) <==> BitSet(c.a, k) != BitSet(Value(c), k))
  {
    hide BitSet, And8, Or8, Xor8, LoadA, Describes, OnlyA, ModeOf;
    LogicBitwise(c.a, Value(c), k);
    Loaded(c, And8(c.a, Value(c)));
    Loaded(c, Or8(c.a, Value(c)));
    Loaded(c, Xor8(c.a, Value(c)));
    assert Value(Penalise(c)) == Value(c);
  }

  lemma Loaded(c: Cpu, v: byte)
    ensures var r := LoadA(Penalise(c), v); OnlyA(c, r) && Describes(c, r, v) && r.a == v
  {
    hide ZeroSign;
    Described(c.status, v);
  }

  /** cmp, cpx, cpy: carry is unsigned order, zero is equality, sign is bit 7 of
      the difference, and nothing else changes; so the two flags together decide
      the order. */
  lemma CompareOrders(c: Cpu, register: byte)
    ensures var r, v := Compare(c, register), Value(c);
            && (Has(r, CARRY) <==> register >= v) && (Has(r, ZERO) <==> register == v)
            && (Has(r, SIGN) <==> (register - v) % 256 >= 128)
            && (Has(r, CARRY) && !Has(r, ZERO) <==> register > v)
            && r.status & 0x7C == c.status & 0x7C && r == c.(status := r.status)
  {
    hide Value, Flag, BitSet;
    var v := Value(c);
    Shifts.ThreeFlags(c.status, register >= v, register == v, (register - v) % 256 >= 128);
  }

  /** bit: zero says whether accumulator and operand share a bit, sign and
      overflow are bits 7 and 6 of the operand, and nothing else changes. */
  lemma BitTests(c: Cpu)
    ensures var r, v := DoBit(c), Value(c);
            && (Has(r, ZERO) <==> !Overlap(c.a, v))
            && (Has(r, SIGN) <==> v >= 128) && (Has(r, OVERFLOW) <==> v / 64 % 2 == 1)
            && r.status & 0x3D == c.status & 0x3D && r == c.(status := r.status)
  {
    hide Value, Flag, Overlap, And8, Has, FromBits;
    var v := Value(c);
    var w := BitsFound(v);
    BitFlags(c.status, And8(c.a, v) == 0, w);
    HasIs(DoBit(c));
    TopBits(w);
    NoCommonBit(c.a, v);
  }

  lemma HasIs(c: Cpu)
    ensures Has(c, ZERO) == (c.status & ZERO == ZERO) && Has(c, SIGN) == (c.status & SIGN == SIGN)
    ensures Has(c, OVERFLOW) == (c.status & OVERFLOW == OVERFLOW)
  {
  }

  lemma BitFlags(s: bv8, zero: bool, w: bv8)
    ensures var r := (Flag(s, ZERO, zero) & 0x3F) | (w & 0xC0);
            && (r & ZERO == ZERO <==> zero) && (r & SIGN == SIGN <==> w & 0x80 != 0)
            && (r & OVERFLOW == OVERFLOW <==> w & 0x40 != 0) && r & 0x3D == s & 0x3D
  {
  }

  lemma TopBits(w: bv8)
    ensures w & 0x80 != 0 <==> FromBits(w) >= 128
    ensures w & 0x40 != 0 <==> FromBits(w) / 64 % 2 == 1
  {
  }

  // Some bit below 8 is set in both.
  predicate Overlap(m: byte, n: byte) {
    exists k: nat :: k < 8 && BitSet(m, k) && BitSet(n, k)
  }

  lemma NoCommonBit(m: byte, n: byte)
    ensures And8(m, n) == 0 <==> !Overlap(m, n)
  {
    hide And8;
    if And8(m, n) == 0 {
      forall k: nat | k < 8
        ensures !(BitSet(m, k) && BitSet(n, k))
      {
        ZeroBit(k);
        AndBitwise(m, n, k);
      }
    } else {
      var k := SomeBit(And8(m, n), 8);
      AndBitwise(m, n, k);
    }
  }

  // A number below 2^n other than 0 has one of its n bits.
  lemma {:induction false} SomeBit(v: nat, n: nat) returns (k: nat)
    requires 0 < v < Power(n)
    ensures k < n && BitSet(v, k)
    decreases n
  {
    k := 0;
    if v % 2 == 0 {
      var j := SomeBit(v / 2, n - 1);
      k := j + 1;
    }
  }

  lemma {:induction false} ZeroBit(k: nat)
    ensures !BitSet(0, k)
  {
    if k > 0 {
      ZeroBit(k - 1);
    }
  }

  function Power(n: nat): nat {
    if n == 0 then 1 else 2 * Power(n - 1)
  }

  // The operand has become v, zero and sign describe it, nothing else differs.
  predicate Counted(c: Cpu, r: Cpu, v: int) {
    && Value(r) == v && Describes(c, r, v)
    && r == if ModeOf(c.opcode).Acc? then c.(status := r.status, a := Value(r))
            else c.(status := r.status, mem := c.mem[c.ea := Value(r)])
  }

  lemma CountedBy(c: Cpu, n: int)
    ensures Counted(c, PutValue(c.(status := ZeroSign(c.status, n)), n), n % 256)
  {
    hide ModeOf, PutValue, Value, ZeroSign, Describes;
    var status := ZeroSign(c.status, n);
    Shifts.PutStores(c.(status := status), n);
    ZeroSignMod(c.status, n);
    DescribedBy(c, PutValue(c.(status := status), n), n % 256);
  }

  lemma DescribedBy(c: Cpu, r: Cpu, v: byte)
    requires r.status == ZeroSign(c.status, v)
    ensures Describes(c, r, v)
  {
    hide ZeroSign;
    Described(c.status, v);
  }

  lemma ZeroSignMod(s: bv8, n: int)
    ensures ZeroSign(s, n) == ZeroSign(s, n % 256)
  {
    hide Flag;
  }

  /** inc and dec count modulo 256, with the flags of the result; each undoes the
      other, carry, overflow and everything else as before. */
  lemma CountExact(c: Cpu)
    ensures Counted(c, DoInc(c), (Value(c) + 1) % 256) && Counted(c, DoDec(c), (Value(c) - 1) % 256)
    ensures Shifts.Same(c, DoDec(DoInc(c))) && Shifts.Same(c, DoInc(DoDec(c)))
  {
    hide DoInc, DoDec, Value, Counted, Shifts.Same;
    CountsUp(c);
    CountsDown(c);
    CountsDown(DoInc(c));
    CountsUp(DoDec(c));
    ThereAndBack(c, DoInc(c), DoDec(DoInc(c)));
    ThereAndBack(c, DoDec(c), DoInc(DoDec(c)));
  }

  lemma CountsUp(c: Cpu)
    ensures Counted(c, DoInc(c), Value(DoInc(c))) && Value(DoInc(c)) == (Value(c) + 1) % 256
  {
    hide PutValue, Value, ZeroSign, Describes, ModeOf;
    CountedBy(c, Value(c) + 1);
  }

  lemma CountsDown(c: Cpu)
    ensures Counted(c, DoDec(c), Value(DoDec(c))) && Value(DoDec(c)) == (Value(c) - 1) % 256
  {
    hide PutValue, Value, ZeroSign, Describes, ModeOf;
    CountedBy(c, Value(c) - 1);
  }

  lemma ThereAndBack(c: Cpu, c1: Cpu, r: Cpu)
    requires Counted(c, c1, Value(c1)) && Counted(c1, r, Value(r)) && Value(r) == Value(c)
    ensures Shifts.Same(c, r)
  {
    hide ModeOf, Has;
    if !ModeOf(c.opcode).Acc? {
      assert c.mem[c.ea := Value(c1)][c.ea := Value(r)] == c.mem;
    }
  }

  lemma ExecuteNop(c: Cpu)
    requires OpOf(c.opcode).Nop?
    ensures Execute(c) == c.(penaltyop := Execute(c).penaltyop)
  {
    hide OpOf;
  }

  /** Every opcode without an operation just goes on behind its operand. */
  lemma NopOnlyAdvances(c: Cpu)
    requires OpOf(c.mem[c.pc]).Nop?
    ensures var r := Step(c);
            && r.pc == Word(c.pc + 1 + Disassembler.OperandBytes(ModeOf(c.mem[c.pc])))
            && r.sp == c.sp && r.a == c.a && r.x == c.x && r.y == c.y && r.mem == c.mem
            && r.status == c.status | CONSTANT
  {
    hide OpOf, ModeOf, Address, Execute, Ticks, Word, Disassembler.OperandBytes;
    Disassembler.FetchedPc(c);
    FetchedRegisters(c);
    ExecuteNop(Address(Fetch(c)));
  }

  lemma FetchedRegisters(c: Cpu)
    ensures var c1 := Address(Fetch(c)); c1.sp == c.sp && c1.a == c.a && c1.x == c.x && c1.y == c.y
  {
    hide ModeOf, Read16, Word, Byte;
  }
}
