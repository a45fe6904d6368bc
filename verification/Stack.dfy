/** The stack in page 1 is a last-in first-out store of up to 256 bytes from
    any stack pointer, so calls return and interrupts resume. */
module Stack {
  import opened Bytes
  import opened Cpu

  datatype StackOp = PushByte(b: byte) | PushWord(w: word) | PullByte | PullWord

  // Where the i-th byte pushed from stack pointer sp goes.
  function Slot(sp: byte, i: int): word {
    0x100 + Byte(sp - i)
  }

  /** The machine holds this stack, pushed from base; its top is at the end. */
  predicate OnStack(c: Cpu, base: byte, st: bytes) {
    && |st| <= 256 && c.sp == Byte(base - |st|)
    && forall i :: 0 <= i < |st| ==> c.mem[Slot(base, i)] == st[i]
  }

  // Nothing but the stack pointer and page 1 differs.
  predicate OnlyStack(a: Cpu, b: Cpu) {
    && a.(sp := b.sp, mem := b.mem) == b
    && forall p: word :: !(0x100 <= p < 0x200) ==> a.mem[p] == b.mem[p]
  }

  lemma SlotsDiffer(base: byte, i: int, j: int)
    requires 0 <= i < j < 256
    ensures Slot(base, i) != Slot(base, j)
  {
  }

  lemma SlotTop(base: byte, n: int)
    ensures Slot(base, n) == 0x100 + Byte(base - n)
    ensures Byte(Byte(base - n) - 1) == Byte(base - (n + 1)) && Byte(Byte(base - n) + 1) == Byte(base - (n - 1))
    ensures Byte(Byte(base - n) - 2) == Byte(base - (n + 2)) && Byte(Byte(base - n) + 2) == Byte(base - (n - 2))
  {
    hide Byte;
    ByteTwice(base - n, -1);
    ByteTwice(base - n, 1);
    ByteTwice(base - n, -2);
    ByteTwice(base - n, 2);
  }

  lemma ByteTwice(m: int, n: int)
    ensures Byte(Byte(m) + n) == Byte(m + n)
  {
  }

  lemma PushOne(c: Cpu, base: byte, st: bytes, b: byte)
    requires OnStack(c, base, st) && |st| < 256
    ensures OnStack(Push8(c, b), base, st + [b]) && OnlyStack(c, Push8(c, b))
  {
    hide Byte;
    var n := |st|;
    SlotTop(base, n);
    forall i | 0 <= i < n
      ensures Slot(base, i) != Slot(base, n)
    {
      SlotsDiffer(base, i, n);
    }
  }

  // A word is its high byte, then its low byte.
  lemma WordIsTwo(c: Cpu, w: word)
    ensures Push16(c, w) == Push8(Push8(c, w / 256), w % 256)
  {
    assert Byte(Byte(c.sp - 1) - 1) == Byte(c.sp - 2);
  }

  lemma PushTwo(c: Cpu, base: byte, st: bytes, w: word)
    requires OnStack(c, base, st) && |st| < 255
    ensures OnStack(Push16(c, w), base, st + [w / 256, w % 256]) && OnlyStack(c, Push16(c, w))
  {
    WordIsTwo(c, w);
    PushOne(c, base, st, w / 256);
    PushOne(Push8(c, w / 256), base, st + [w / 256], w % 256);
    assert st + [w / 256] + [w % 256] == st + [w / 256, w % 256];
  }

  lemma PullOne(c: Cpu, base: byte, st: bytes)
    requires OnStack(c, base, st) && st != []
    ensures Pull8(c).v == st[|st| - 1] && OnStack(Pull8(c).c, base, st[..|st| - 1]) && OnlyStack(c, Pull8(c).c)
  {
    hide Byte;
    SlotTop(base, |st|);
    SlotTop(base, |st| - 1);
  }

  lemma PullTwo(c: Cpu, base: byte, st: bytes)
    requires OnStack(c, base, st) && |st| >= 2
    ensures var n := |st|;
            && Pull16(c).v == FromBytes(st[n - 1], st[n - 2])
            && OnStack(Pull16(c).c, base, st[..n - 2]) && OnlyStack(c, Pull16(c).c)
  {
    hide Byte;
    SlotTop(base, |st|);
    SlotTop(base, |st| - 1);
    SlotTop(base, |st| - 2);
  }

  // The machine running stack operations, and what the pulls return.
  datatype Ran = Ran(c: Cpu, pulled: seq<word>)

  function RunOps(c: Cpu, ops: seq<StackOp>): Ran
    decreases |ops|
  {
    if ops == [] then Ran(c, [])
    else
      match ops[0]
      case PushByte(b) => RunOps(Push8(c, b), ops[1..])
      case PushWord(w) => RunOps(Push16(c, w), ops[1..])
      case PullByte => var p := Pull8(c); var r := RunOps(p.c, ops[1..]); Ran(r.c, [p.v] + r.pulled)
      case PullWord => var p := Pull16(c); var r := RunOps(p.c, ops[1..]); Ran(r.c, [p.v] + r.pulled)
  }

  // The same operations on a list of bytes.
  datatype Ideal = Ideal(st: bytes, pulled: seq<word>)

  // Never above 256 bytes, never below the first `floor`.
  predicate Within(st: bytes, ops: seq<StackOp>, floor: nat)
    decreases |ops|
  {
    floor <= |st| <= 256 &&
    (ops == [] ||
     match ops[0]
     case PushByte(b) => Within(st + [b], ops[1..], floor)
     case PushWord(w) => Within(st + [w / 256, w % 256], ops[1..], floor)
     case PullByte => floor < |st| && Within(st[..|st| - 1], ops[1..], floor)
     case PullWord => floor + 1 < |st| && Within(st[..|st| - 2], ops[1..], floor))
  }

  function IdealRun(st: bytes, ops: seq<StackOp>, floor: nat): Ideal
    requires Within(st, ops, floor)
    decreases |ops|
  {
    if ops == [] then Ideal(st, [])
    else
      var n := |st|;
      match ops[0]
      case PushByte(b) => IdealRun(st + [b], ops[1..], floor)
      case PushWord(w) => IdealRun(st + [w / 256, w % 256], ops[1..], floor)
      case PullByte =>
        var r := IdealRun(st[..n - 1], ops[1..], floor);
        Ideal(r.st, [st[n - 1]] + r.pulled)
      case PullWord =>
        var r := IdealRun(st[..n - 2], ops[1..], floor);
        Ideal(r.st, [FromBytes(st[n - 1], st[n - 2])] + r.pulled)
  }

  lemma OnlyStackTrans(a: Cpu, b: Cpu, c: Cpu)
    requires OnlyStack(a, b) && OnlyStack(b, c)
    ensures OnlyStack(a, c)
  {
  }

  /** From any stack pointer, every run that stays within 256 bytes returns
      what the list returns, leaves the same stack, and touches nothing else. */
  lemma {:induction false} RunIsLifo(c: Cpu, base: byte, st: bytes, ops: seq<StackOp>, floor: nat)
    requires OnStack(c, base, st) && Within(st, ops, floor)
    ensures var r, ideal := RunOps(c, ops), IdealRun(st, ops, floor);
            r.pulled == ideal.pulled && OnStack(r.c, base, ideal.st) && OnlyStack(c, r.c)
    ensures st[..floor] <= IdealRun(st, ops, floor).st
    decreases |ops|
  {
    hide OnStack, OnlyStack, Push8, Push16, Pull8, Pull16;
    assert |st| <= 256;
    if ops == [] {
      OnlyStackRefl(c);
    } else {
      match ops[0]
      case PushByte(b) =>
        PushOne(c, base, st, b);
        RunIsLifo(Push8(c, b), base, st + [b], ops[1..], floor);
        OnlyStackTrans(c, Push8(c, b), RunOps(c, ops).c);
        assert (st + [b])[..floor] == st[..floor];
      case PushWord(w) =>
        PushTwo(c, base, st, w);
        RunIsLifo(Push16(c, w), base, st + [w / 256, w % 256], ops[1..], floor);
        OnlyStackTrans(c, Push16(c, w), RunOps(c, ops).c);
        assert (st + [w / 256, w % 256])[..floor] == st[..floor];
      case PullByte =>
        PullOne(c, base, st);
        RunIsLifo(Pull8(c).c, base, st[..|st| - 1], ops[1..], floor);
        OnlyStackTrans(c, Pull8(c).c, RunOps(c, ops).c);
        assert st[..|st| - 1][..floor] == st[..floor];
      case PullWord =>
        PullTwo(c, base, st);
        RunIsLifo(Pull16(c).c, base, st[..|st| - 2], ops[1..], floor);
        OnlyStackTrans(c, Pull16(c).c, RunOps(c, ops).c);
        assert st[..|st| - 2][..floor] == st[..floor];
    }
  }

  lemma OnlyStackRefl(c: Cpu)
    ensures OnlyStack(c, c)
  {
  }

  // Every state starts an empty stack at its own stack pointer.
  lemma EmptyStack(c: Cpu)
    ensures OnStack(c, c.sp, [])
  {
  }

  /** Balanced operations restore the stack pointer and keep every live byte. */
  lemma Balanced(c: Cpu, base: byte, st: bytes, ops: seq<StackOp>)
    requires OnStack(c, base, st) && Within(st, ops, |st|)
    requires |IdealRun(st, ops, |st|).st| == |st|
    ensures OnStack(RunOps(c, ops).c, base, st) && RunOps(c, ops).c.sp == c.sp
  {
    hide RunOps;
    RunIsLifo(c, base, st, ops, |st|);
    assert st[..|st|] == st;
  }

  /** jsr ... rts: with pc behind the operand, whatever happens in between, if
      it leaves the stack pointer and the two bytes pushed as they were, rts
      resumes there with the old stack pointer. */
  lemma CallReturns(c: Cpu, back: Cpu)
    requires OnStack(back, c.sp, [Word(c.pc - 1) / 256, Word(c.pc - 1) % 256])
    ensures DoRts(back).pc == c.pc && DoRts(back).sp == c.sp
  {
    hide Pull16, OnStack;
    var w := Word(c.pc - 1);
    PullTwo(back, c.sp, [w / 256, w % 256]);
    StackPointer(Pull16(back).c, c.sp, [w / 256, w % 256][..0]);
  }

  lemma OnStackOf(a: Cpu, b: Cpu, base: byte, st: bytes)
    requires OnStack(a, base, st) && a.sp == b.sp && a.mem == b.mem
    ensures OnStack(b, base, st)
  {
  }

  lemma CallPushes(c: Cpu)
    ensures OnStack(DoJsr(c), c.sp, [Word(c.pc - 1) / 256, Word(c.pc - 1) % 256])
  {
    hide Push16;
    var w := Word(c.pc - 1);
    EmptyStack(c);
    PushTwo(c, c.sp, [], w);
    assert [] + [w / 256, w % 256] == [w / 256, w % 256];
    OnStackOf(Push16(c, w), DoJsr(c), c.sp, [w / 256, w % 256]);
  }

  // What an interrupt leaves on the stack.
  function Saved(c: Cpu, pushed: bv8): bytes {
    [c.pc / 256, c.pc % 256, FromBits(pushed)]
  }

  lemma InterruptPushes(c: Cpu, pushed: bv8, vector: word)
    ensures OnStack(Interrupt(c, pushed, vector), c.sp, Saved(c, pushed))
  {
    hide Push8, Push16, Read16;
    EmptyStack(c);
    PushTwo(c, c.sp, [], c.pc);
    assert [] + [c.pc / 256, c.pc % 256] == [c.pc / 256, c.pc % 256];
    PushOne(Push16(c, c.pc), c.sp, [c.pc / 256, c.pc % 256], FromBits(pushed));
    assert [c.pc / 256, c.pc % 256] + [FromBits(pushed)] == Saved(c, pushed);
    OnStackOf(Push8(Push16(c, c.pc), FromBits(pushed)), Interrupt(c, pushed, vector), c.sp, Saved(c, pushed));
  }

  lemma StatusByte(s: bv8)
    ensures Bits(FromBits(s)) == s
  {
  }

  /** rti undoes an interrupt: from any state that left the stack pointer and
      the three bytes pushed as they were, it restores pc, status and sp. */
  lemma InterruptReturns(c: Cpu, pushed: bv8, back: Cpu)
    requires OnStack(back, c.sp, Saved(c, pushed))
    ensures DoRti(back).pc == c.pc && DoRti(back).status == pushed && DoRti(back).sp == c.sp
  {
    hide Pull8, Pull16, OnStack;
    PullOne(back, c.sp, Saved(c, pushed));
    StatusByte(pushed);
    var p := Pull8(back);
    var c1 := p.c.(status := Bits(p.v));
    assert Saved(c, pushed)[..2] == [c.pc / 256, c.pc % 256];
    OnStackOf(p.c, c1, c.sp, [c.pc / 256, c.pc % 256]);
    PullTwo(c1, c.sp, [c.pc / 256, c.pc % 256]);
    StackPointer(Pull16(c1).c, c.sp, [c.pc / 256, c.pc % 256][..0]);
  }

  lemma StackPointer(c: Cpu, base: byte, st: bytes)
    requires OnStack(c, base, st) && st == []
    ensures c.sp == base
  {
  }
}
