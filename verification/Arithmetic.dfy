/** adc and sbc compute exact sums and differences, and so do chains of them
    over numbers of any length. */
module Arithmetic {
  import opened Bytes
  import opened Cpu
  import opened BitFacts

  function Bit(c: Cpu, flag: bv8): int {
    if Has(c, flag) then 1 else 0
  }

  function Signed(v: byte): int {
    if v < 128 then v else v - 256
  }

  // Setting or clearing the four flags of an addition, one after the other.
  lemma FourFlags(s: bv8, carry: bool, zero: bool, overflow: bool, sign: bool)
    ensures var r := Flag(Flag(Flag(Flag(s, CARRY, carry), ZERO, zero), OVERFLOW, overflow), SIGN, sign);
            && (r & CARRY == CARRY <==> carry) && (r & ZERO == ZERO <==> zero)
            && (r & OVERFLOW == OVERFLOW <==> overflow) && (r & SIGN == SIGN <==> sign)
            && r & 0x3C == s & 0x3C
  {
  }

  lemma TwoFlags(s: bv8, zero: bool, sign: bool)
    ensures Flag(Flag(s, ZERO, zero), SIGN, sign) & CARRY == s & CARRY
  {
  }

  lemma SignBit(n: word)
    ensures ((n as bv16) & 0x80 != 0) == (n / 128 % 2 == 1)
  {
  }

  // Overflow: both operands have the sign the result lacks.
  lemma OverflowBits(n: word, m: word, o: word)
    ensures Overflows(n, m, o) <==> n / 128 % 2 != m / 128 % 2 && n / 128 % 2 != o / 128 % 2
  {
    SignBit(n);
    SignBit(m);
    SignBit(o);
    XorBit(n as bv16, m as bv16, o as bv16);
  }

  lemma XorBit(n: bv16, m: bv16, o: bv16)
    ensures ((n ^ m) & (n ^ o) & 0x80 != 0) <==> (n & 0x80 != m & 0x80) && (n & 0x80 != o & 0x80)
    ensures n & 0x80 == 0 || n & 0x80 == 0x80
    ensures m & 0x80 == 0 || m & 0x80 == 0x80
    ensures o & 0x80 == 0 || o & 0x80 == 0x80
  {
  }

  // The four flags an addition leaves.
  lemma AddFlags(c: Cpu, value: byte)
    ensures var r, sum := AddWithCarry(c, value), c.a + value + CarryIn(c);
            && (Has(r, CARRY) <==> sum >= 256) && (Has(r, ZERO) <==> sum % 256 == 0)
            && (Has(r, SIGN) <==> sum % 256 >= 128) && (Has(r, OVERFLOW) <==> Overflows(sum, c.a, value))
            && r.status & 0x3C == c.status & 0x3C
  {
    hide Overflows, Flag;
    var sum := c.a + value + CarryIn(c);
    FourFlags(c.status, sum >= 256, sum % 256 == 0, Overflows(sum, c.a, value), sum % 256 >= 128);
  }

  /** adc: the sum is exact, with carry; N and Z describe it, and V is set
      exactly when the signed sum does not fit. */
  lemma AddExact(c: Cpu, value: byte)
    ensures var r := AddWithCarry(c, value);
            && r.a + 256 * Bit(r, CARRY) == c.a + value + Bit(c, CARRY)
            && (Has(r, ZERO) <==> r.a == 0) && (Has(r, SIGN) <==> r.a >= 128)
            && (Has(r, OVERFLOW) <==> !(-128 <= Signed(c.a) + Signed(value) + Bit(c, CARRY) < 128))
            && r.status & 0x3C == c.status & 0x3C && r.x == c.x && r.y == c.y && r.sp == c.sp && r.mem == c.mem
  {
    hide Overflows, Flag;
    AddFlags(c, value);
    OverflowBits(c.a + value + CarryIn(c), c.a, value);
  }

  lemma Complement(v: byte)
    ensures Xor8(v, 0xFF) == 255 - v
  {
    ByteRoundTrip(v);
    ComplementBits(v as bv8);
  }

  /** sbc: the difference is exact, the carry being "no borrow"; V is set
      exactly when the signed difference does not fit. */
  lemma SubtractExact(c: Cpu, value: byte)
    ensures var r := AddWithCarry(c, Xor8(value, 0xFF));
            && r.a - 256 * (1 - Bit(r, CARRY)) == c.a - value - (1 - Bit(c, CARRY))
            && (Has(r, ZERO) <==> r.a == 0) && (Has(r, SIGN) <==> r.a >= 128)
            && (Has(r, OVERFLOW) <==> !(-128 <= Signed(c.a) - Signed(value) - (1 - Bit(c, CARRY)) < 128))
            && r.status & 0x3C == c.status & 0x3C && r.x == c.x && r.y == c.y && r.sp == c.sp && r.mem == c.mem
  {
    hide AddWithCarry, Has;
    Complement(value);
    AddExact(c, Xor8(value, 0xFF));
  }

  // Little-endian numbers.
  function Number(xs: bytes): nat {
    if xs == [] then 0 else xs[0] + 256 * Number(xs[1..])
  }

  function Pow256(n: nat): nat {
    if n == 0 then 1 else 256 * Pow256(n - 1)
  }

  datatype Sum = Sum(c: Cpu, digits: bytes)

  // lda x; adc y (or sbc y); sta r, for one digit after the other.
  function Chain(c: Cpu, xs: bytes, ys: bytes, subtract: bool): (s: Sum)
    requires |xs| == |ys|
    ensures |s.digits| == |xs|
    decreases |xs|
  {
    if xs == [] then Sum(c, [])
    else
      var r := AddWithCarry(Penalise(LoadA(c, xs[0])), if subtract then Xor8(ys[0], 0xFF) else ys[0]);
      var rest := Chain(r, xs[1..], ys[1..], subtract);
      Sum(rest.c, [r.a] + rest.digits)
  }

  lemma LoadKeepsCarry(c: Cpu, v: byte)
    ensures Bit(LoadA(c, v), CARRY) == Bit(c, CARRY) && LoadA(c, v).a == v
  {
    hide Flag;
    TwoFlags(c.status, v % 256 == 0, v % 256 >= 128);
  }

  /** A chain of adc over n bytes is n-byte addition with a final carry. */
  lemma {:induction false} ChainAdds(c: Cpu, xs: bytes, ys: bytes)
    requires |xs| == |ys|
    ensures var s := Chain(c, xs, ys, false);
            Number(s.digits) + Pow256(|xs|) * Bit(s.c, CARRY) == Number(xs) + Number(ys) + Bit(c, CARRY)
    decreases |xs|
  {
    hide AddWithCarry, LoadA;
    if xs != [] {
      var r := AddWithCarry(Penalise(LoadA(c, xs[0])), ys[0]);
      LoadKeepsCarry(c, xs[0]);
      AddExact(Penalise(LoadA(c, xs[0])), ys[0]);
      ChainAdds(r, xs[1..], ys[1..]);
      var s, rest := Chain(c, xs, ys, false), Chain(r, xs[1..], ys[1..], false);
      assert s.digits[1..] == rest.digits;
      Shifted(Pow256(|xs| - 1), Bit(s.c, CARRY));
    }
  }

  /** A chain of sbc over n bytes is n-byte subtraction with a final borrow. */
  lemma {:induction false} ChainSubtracts(c: Cpu, xs: bytes, ys: bytes)
    requires |xs| == |ys|
    ensures var s := Chain(c, xs, ys, true);
            Number(s.digits) - Pow256(|xs|) * (1 - Bit(s.c, CARRY)) == Number(xs) - Number(ys) - (1 - Bit(c, CARRY))
    decreases |xs|
  {
    hide AddWithCarry, LoadA, Xor8;
    if xs != [] {
      var r := AddWithCarry(Penalise(LoadA(c, xs[0])), Xor8(ys[0], 0xFF));
      LoadKeepsCarry(c, xs[0]);
      SubtractExact(Penalise(LoadA(c, xs[0])), ys[0]);
      ChainSubtracts(r, xs[1..], ys[1..]);
      var s, rest := Chain(c, xs, ys, true), Chain(r, xs[1..], ys[1..], true);
      assert s.digits[1..] == rest.digits;
      Shifted(Pow256(|xs| - 1), 1 - Bit(s.c, CARRY));
    }
  }

  lemma Shifted(p: nat, b: int)
    ensures 256 * p * b == 256 * (p * b)
  {
  }
}

/** Bytes as bit vectors and back. */
module BitFacts {

  lemma ComplementBits(v: bv8)
    ensures (v ^ 0xFF) as int == 255 - (v as int)
  {
  }

  lemma Increment(w: bv8)
    requires w != 0xFF
    ensures (w + 1) as int == (w as int) + 1
  {
  }

  lemma BitsRoundTrip(w: bv8)
    ensures (w as int) as bv8 == w
  {
  }

  // Every byte value has its bits, found by counting up.
  lemma {:induction false} BitsOf(v: int) returns (w: bv8)
    requires 0 <= v < 256
    ensures w as int == v
    decreases v
  {
    if v == 0 {
      w := 0;
    } else {
      var u := BitsOf(v - 1);
      Increment(u);
      w := u + 1;
    }
  }

  lemma ByteRoundTrip(v: int)
    requires 0 <= v < 256
    ensures (v as bv8) as int == v
  {
    var w := BitsOf(v);
    BitsRoundTrip(w);
  }
}
