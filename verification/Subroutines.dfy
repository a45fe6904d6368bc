/** Calls and interrupts around any body: whatever instructions run in between,
    nested calls and interrupts included, the caller resumes as long as the body
    is balanced and does not overwrite the bytes saved for the return. */
module Subroutines {
  import opened Bytes
  import opened Opcodes
  import opened Cpu
  import opened Stack
  import Operations

  /** The machine is `depth` bytes below base, and the first of them, the live
      ones, still hold what was pushed. */
  predicate Guards(c: Cpu, base: byte, live: bytes, depth: int) {
    && |live| <= depth <= 256 && c.sp == Byte(base - depth)
    && forall i :: 0 <= i < |live| ==> c.mem[Slot(base, i)] == live[i]
  }

  // The first n bytes pushed from base are the same.
  predicate SameLive(a: Cpu, b: Cpu, base: byte, n: nat) {
    forall i :: 0 <= i < n ==> a.mem[Slot(base, i)] == b.mem[Slot(base, i)]
  }

  lemma GuardsAll(c: Cpu, base: byte, live: bytes)
    ensures Guards(c, base, live, |live|) <==> OnStack(c, base, live)
  {
  }

  lemma GuardPush(c: Cpu, base: byte, live: bytes, depth: int, b: byte)
    requires Guards(c, base, live, depth) && depth < 256
    ensures Guards(Push8(c, b), base, live, depth + 1)
  {
    hide Byte;
    SlotTop(base, depth);
    forall i | 0 <= i < |live|
      ensures Slot(base, i) != Slot(base, depth)
    {
      SlotsDiffer(base, i, depth);
    }
  }

  lemma GuardPushWord(c: Cpu, base: byte, live: bytes, depth: int, w: word)
    requires Guards(c, base, live, depth) && depth < 255
    ensures Guards(Push16(c, w), base, live, depth + 2)
  {
    hide Guards, Push8, Push16;
    WordIsTwo(c, w);
    GuardPush(c, base, live, depth, w / 256);
    GuardPush(Push8(c, w / 256), base, live, depth + 1, w % 256);
  }

  lemma GuardPull(c: Cpu, base: byte, live: bytes, depth: int)
    requires Guards(c, base, live, depth)
    ensures depth > |live| ==> Guards(Pull8(c).c, base, live, depth - 1)
    ensures depth > |live| + 1 ==> Guards(Pull16(c).c, base, live, depth - 2)
  {
    hide Byte;
    SlotTop(base, depth);
  }

  lemma GuardOther(c: Cpu, next: Cpu, base: byte, live: bytes, depth: int)
    requires Guards(c, base, live, depth) && next.sp == c.sp && SameLive(c, next, base, |live|)
    ensures Guards(next, base, live, depth)
  {
  }

  // A body in the abstract: stack operations, and anything else that keeps
  // the stack pointer and the live bytes.
  datatype BodyStep = Op(op: StackOp) | Other(next: Cpu)

  function Effect(op: StackOp): int {
    match op
    case PushByte(_) => 1
    case PushWord(_) => 2
    case PullByte => -1
    case PullWord => -2
  }

  function Do(c: Cpu, step: BodyStep): Cpu {
    match step
    case Other(next) => next
    case Op(PushByte(b)) => Push8(c, b)
    case Op(PushWord(w)) => Push16(c, w)
    case Op(PullByte) => Pull8(c).c
    case Op(PullWord) => Pull16(c).c
  }

  predicate MayDo(c: Cpu, step: BodyStep, base: byte, n: nat, depth: int) {
    match step
    case Op(op) => n <= depth + Effect(op) <= 256
    case Other(next) => next.sp == c.sp && SameLive(c, next, base, n)
  }

  function DepthAfter(step: BodyStep, depth: int): int {
    if step.Op? then depth + Effect(step.op) else depth
  }

  // Never above 256 bytes, never into the n live ones, and as deep at the end
  // as those.
  predicate BalancedBody(c: Cpu, body: seq<BodyStep>, base: byte, n: nat, depth: int)
    decreases |body|
  {
    if body == [] then depth == n
    else
      && MayDo(c, body[0], base, n, depth)
      && BalancedBody(Do(c, body[0]), body[1..], base, n, DepthAfter(body[0], depth))
  }

  function RunBody(c: Cpu, body: seq<BodyStep>): Cpu
    decreases |body|
  {
    if body == [] then c else RunBody(Do(c, body[0]), body[1..])
  }

  /** Whatever a balanced body does, it ends with the live bytes on the stack. */
  lemma {:induction false} BodyKeeps(c: Cpu, body: seq<BodyStep>, base: byte, live: bytes, depth: int)
    requires Guards(c, base, live, depth) && BalancedBody(c, body, base, |live|, depth)
    ensures OnStack(RunBody(c, body), base, live)
    decreases |body|
  {
    hide Guards, Push8, Push16, Pull8, Pull16, OnStack, SameLive;
    if body == [] {
      GuardsAll(c, base, live);
    } else {
      BodyStepKeeps(c, body[0], base, live, depth);
      BodyKeeps(Do(c, body[0]), body[1..], base, live, DepthAfter(body[0], depth));
    }
  }

  lemma BodyStepKeeps(c: Cpu, step: BodyStep, base: byte, live: bytes, depth: int)
    requires Guards(c, base, live, depth) && MayDo(c, step, base, |live|, depth)
    ensures Guards(Do(c, step), base, live, DepthAfter(step, depth))
  {
    hide Guards, Push8, Push16, Pull8, Pull16, SameLive;
    match step
    case Other(next) => GuardOther(c, next, base, live, depth);
    case Op(PushByte(b)) => GuardPush(c, base, live, depth, b);
    case Op(PushWord(w)) => GuardPushWord(c, base, live, depth, w);
    case Op(PullByte) => GuardPull(c, base, live, depth);
    case Op(PullWord) => GuardPull(c, base, live, depth);
  }

  // The return address jsr saves, with pc behind its operand.
  function ReturnBytes(pc: word): bytes {
    [Word(pc - 1) / 256, Word(pc - 1) % 256]
  }

  /** jsr and rts around any balanced body. */
  lemma CallOfBalancedBody(c: Cpu, body: seq<BodyStep>)
    requires BalancedBody(DoJsr(c), body, c.sp, 2, 2)
    ensures var r := DoRts(RunBody(DoJsr(c), body)); r.pc == c.pc && r.sp == c.sp
  {
    hide RunBody, BalancedBody, DoJsr, DoRts, OnStack, Guards;
    CallPushes(c);
    GuardsAll(DoJsr(c), c.sp, ReturnBytes(c.pc));
    BodyKeeps(DoJsr(c), body, c.sp, ReturnBytes(c.pc), 2);
    CallReturns(c, RunBody(DoJsr(c), body));
  }

  /** An interrupt and rti around any balanced body. */
  lemma InterruptOfBalancedBody(c: Cpu, pushed: bv8, vector: word, body: seq<BodyStep>)
    requires BalancedBody(Interrupt(c, pushed, vector), body, c.sp, 3, 3)
    ensures var r := DoRti(RunBody(Interrupt(c, pushed, vector), body));
            r.pc == c.pc && r.status == pushed && r.sp == c.sp
  {
    hide RunBody, BalancedBody, DoRti, Interrupt, OnStack, Guards;
    InterruptPushes(c, pushed, vector);
    GuardsAll(Interrupt(c, pushed, vector), c.sp, Saved(c, pushed));
    BodyKeeps(Interrupt(c, pushed, vector), body, c.sp, Saved(c, pushed), 3);
    InterruptReturns(c, pushed, RunBody(Interrupt(c, pushed, vector), body));
  }

  /** So irq6502 ... rti resumes exactly where it was, and so does nmi6502. */
  lemma IrqResumes(c: Cpu, body: seq<BodyStep>)
    ensures BalancedBody(Irq(c), body, c.sp, 3, 3) ==>
              var r := DoRti(RunBody(Irq(c), body)); r.pc == c.pc && r.status == c.status && r.sp == c.sp
    ensures BalancedBody(Nmi(c), body, c.sp, 3, 3) ==>
              var r := DoRti(RunBody(Nmi(c), body)); r.pc == c.pc && r.status == c.status && r.sp == c.sp
  {
    hide RunBody, BalancedBody, DoRti, Interrupt;
    if BalancedBody(Irq(c), body, c.sp, 3, 3) {
      InterruptOfBalancedBody(c, c.status, 0xFFFE, body);
    }
    if BalancedBody(Nmi(c), body, c.sp, 3, 3) {
      InterruptOfBalancedBody(c, c.status, 0xFFFA, body);
    }
  }

  // What happens next to a running machine.
  datatype Happening = Instruction | IrqLine | NmiLine

  function Next(c: Cpu, h: Happening): Cpu {
    match h
    case Instruction => Step(c)
    case IrqLine => Irq(c)
    case NmiLine => Nmi(c)
  }

  function RunAll(c: Cpu, hs: seq<Happening>): Cpu
    decreases |hs|
  {
    if hs == [] then c else RunAll(Next(c, hs[0]), hs[1..])
  }

  // Bytes an instruction pushes or pulls.
  function OpEffect(o: Op): int {
    match o
    case Pha => 1
    case Php => 1
    case Jsr => 2
    case Brk => 3
    case Pla => -1
    case Plp => -1
    case Rts => -2
    case Rti => -3
    case _ => 0
  }

  function HappeningEffect(c: Cpu, h: Happening): int {
    if h.Instruction? then OpEffect(OpOf(c.mem[c.pc])) else 3
  }

  predicate MayHappen(c: Cpu, h: Happening, base: byte, n: nat, depth: int) {
    && n <= depth + HappeningEffect(c, h) <= 256
    && (HappeningEffect(c, h) == 0 ==> Next(c, h).sp == c.sp && SameLive(c, Next(c, h), base, n))
  }

  /** A run of real instructions and interrupts that is balanced over n live
      bytes. */
  predicate BalancedRun(c: Cpu, hs: seq<Happening>, base: byte, n: nat, depth: int)
    decreases |hs|
  {
    if hs == [] then depth == n
    else
      && MayHappen(c, hs[0], base, n, depth)
      && BalancedRun(Next(c, hs[0]), hs[1..], base, n, depth + HappeningEffect(c, hs[0]))
  }

  predicate SameStack(a: Cpu, b: Cpu) {
    a.sp == b.sp && a.mem == b.mem
  }

  lemma GuardSame(a: Cpu, b: Cpu, base: byte, live: bytes, depth: int)
    requires SameStack(a, b)
    ensures Guards(a, base, live, depth) <==> Guards(b, base, live, depth)
  {
  }

  // What an instruction executes, and that finishing it leaves the stack be.
  lemma StepIs(c: Cpu)
    ensures var c1 := Address(Fetch(c));
            && c1.opcode == c.mem[c.pc] && SameStack(c, c1)
            && var r := Execute(c1); SameStack(r, Step(c)) && r.pc == Step(c).pc && r.status == Step(c).status
  {
    hide ModeOf, Execute, Ticks, OpOf;
    AddressStack(Fetch(c));
  }

  lemma StepRegisters(c: Cpu)
    ensures var c1 := Address(Fetch(c)); c1.a == c.a && c1.status == c.status | CONSTANT && Execute(c1).a == Step(c).a
  {
    hide ModeOf, Execute, Ticks, OpOf, Read, Read16, Word, Byte;
  }

  lemma PullQuiet(c: Cpu)
    ensures Pull8(c).c.status == c.status
  {
  }

  lemma AddressStack(c: Cpu)
    ensures SameStack(c, Address(c)) && Address(c).opcode == c.opcode && Address(c).status == c.status
  {
    hide ModeOf, Read, Read16, Word, Byte;
  }

  lemma InterruptKeeps(c: Cpu, pushed: bv8, vector: word, base: byte, live: bytes, depth: int)
    requires Guards(c, base, live, depth) && depth < 254
    ensures Guards(Interrupt(c, pushed, vector), base, live, depth + 3)
  {
    hide Guards, Push8, Push16, Read16;
    GuardPushWord(c, base, live, depth, c.pc);
    GuardPush(Push16(c, c.pc), base, live, depth + 2, FromBits(pushed));
    GuardSame(Push8(Push16(c, c.pc), FromBits(pushed)), Interrupt(c, pushed, vector), base, live, depth + 3);
  }

  lemma PushesKeep(c: Cpu, base: byte, live: bytes, depth: int)
    requires Guards(c, base, live, depth) && OpEffect(OpOf(c.opcode)) > 0
    requires depth + OpEffect(OpOf(c.opcode)) <= 256
    ensures Guards(Execute(c), base, live, depth + OpEffect(OpOf(c.opcode)))
  {
    hide Guards, Push8, Push16, Interrupt, OpOf, Word;
    match OpOf(c.opcode)
    case Pha => GuardPush(c, base, live, depth, c.a);
    case Php => GuardPush(c, base, live, depth, FromBits(c.status | BREAK));
    case Jsr =>
      GuardPushWord(c, base, live, depth, Word(c.pc - 1));
      GuardSame(Push16(c, Word(c.pc - 1)), Execute(c), base, live, depth + 2);
    case Brk =>
      var c1 := c.(pc := Word(c.pc + 1));
      GuardSame(c, c1, base, live, depth);
      InterruptKeeps(c1, c1.status | BREAK, 0xFFFE, base, live, depth);
  }

  lemma PullsKeep(c: Cpu, base: byte, live: bytes, depth: int)
    requires Guards(c, base, live, depth) && OpEffect(OpOf(c.opcode)) < 0
    requires |live| <= depth + OpEffect(OpOf(c.opcode))
    ensures Guards(Execute(c), base, live, depth + OpEffect(OpOf(c.opcode)))
  {
    hide Guards, Pull8, Pull16, OpOf, Word, ZeroSign;
    GuardPull(c, base, live, depth);
    match OpOf(c.opcode)
    case Pla => GuardSame(Pull8(c).c, Execute(c), base, live, depth - 1);
    case Plp => GuardSame(Pull8(c).c, Execute(c), base, live, depth - 1);
    case Rts => GuardSame(Pull16(c).c, Execute(c), base, live, depth - 2);
    case Rti =>
      var c1 := Pull8(c).c.(status := Bits(Pull8(c).v));
      GuardSame(Pull8(c).c, c1, base, live, depth - 1);
      GuardPull(c1, base, live, depth - 1);
      GuardSame(Pull16(c1).c, Execute(c), base, live, depth - 3);
  }

  lemma HappeningKeeps(c: Cpu, h: Happening, base: byte, live: bytes, depth: int)
    requires Guards(c, base, live, depth) && MayHappen(c, h, base, |live|, depth)
    ensures Guards(Next(c, h), base, live, depth + HappeningEffect(c, h))
  {
    hide Guards, Step, Address, Fetch, Execute, Interrupt, OpOf, SameLive;
    match h
    case IrqLine => InterruptKeeps(c, c.status, 0xFFFE, base, live, depth);
    case NmiLine => InterruptKeeps(c, c.status, 0xFFFA, base, live, depth);
    case Instruction =>
      var c1, n := Address(Fetch(c)), HappeningEffect(c, h);
      StepIs(c);
      GuardSame(c, c1, base, live, depth);
      if n > 0 {
        PushesKeep(c1, base, live, depth);
      } else if n < 0 {
        PullsKeep(c1, base, live, depth);
      }
      if n == 0 {
        GuardOther(c, Step(c), base, live, depth);
      } else {
        GuardSame(Execute(c1), Step(c), base, live, depth + n);
      }
  }

  /** Whatever a balanced run does, it ends with the live bytes on the stack. */
  lemma {:induction false} RunKeeps(c: Cpu, hs: seq<Happening>, base: byte, live: bytes, depth: int)
    requires Guards(c, base, live, depth) && BalancedRun(c, hs, base, |live|, depth)
    ensures OnStack(RunAll(c, hs), base, live)
    decreases |hs|
  {
    hide Guards, OnStack, MayHappen, Next, HappeningEffect;
    if hs == [] {
      GuardsAll(c, base, live);
    } else {
      HappeningKeeps(c, hs[0], base, live, depth);
      RunKeeps(Next(c, hs[0]), hs[1..], base, live, depth + HappeningEffect(c, hs[0]));
    }
  }

  // Two states with the same stack hold the same bytes.
  lemma OnStackSame(a: Cpu, b: Cpu, base: byte, st: bytes)
    requires SameStack(a, b) && OnStack(a, base, st)
    ensures OnStack(b, base, st)
  {
  }

  /** Executing jsr saves the address of its last byte. */
  lemma JsrPushes(c: Cpu)
    requires c.mem[c.pc] == 0x20
    ensures OnStack(Step(c), c.sp, ReturnBytes(Word(c.pc + 3)))
  {
    hide Execute, Step, OnStack, Address, Fetch, DoJsr;
    StepIs(c);
    var c1 := Address(Fetch(c));
    JsrIs(c1);
    JsrFetched(c);
    CallPushes(c1);
    OnStackSame(DoJsr(c1), Step(c), c.sp, ReturnBytes(c1.pc));
  }

  lemma JsrIs(c: Cpu)
    ensures c.opcode == 0x20 ==> Execute(c) == DoJsr(c)
    ensures c.opcode == 0x60 ==> Execute(c) == DoRts(c)
    ensures c.opcode == 0x40 ==> Execute(c) == DoRti(c)
    ensures c.opcode == 0x00 ==> Execute(c) == DoBrk(c)
  {
    hide DoJsr, DoRts, DoRti, DoBrk, OpOf, ExecuteBranch, ExecuteFlag, ExecuteRegister, ExecuteStack, ExecuteCombined,
         ExecuteLoadStore, ExecuteMemory;
    JumpOpcodes();
  }

  lemma JumpOpcodes()
    ensures OpOf(0x20).Jsr? && OpOf(0x60).Rts? && OpOf(0x40).Rti? && OpOf(0x00).Brk?
  {
  }

  lemma JsrFetched(c: Cpu)
    requires c.mem[c.pc] == 0x20
    ensures Address(Fetch(c)).pc == Word(c.pc + 3)
  {
    hide Read16, ModeOf;
    JsrMode();
  }

  lemma BrkFetched(c: Cpu)
    requires c.mem[c.pc] == 0x00
    ensures Word(Address(Fetch(c)).pc + 1) == Word(c.pc + 2)
  {
    hide Read16, ModeOf;
    JsrMode();
  }

  lemma JsrMode()
    ensures ModeOf(0x20).Abso? && ModeOf(0x00).Imp?
  {
  }

  /** A subroutine returns: from jsr, through any balanced run of instructions
      and interrupts that keeps the two bytes of the return address, an rts goes
      on at the instruction after the call with the stack pointer of before. */
  lemma CallResumes(c: Cpu, hs: seq<Happening>)
    requires c.mem[c.pc] == 0x20 && BalancedRun(Step(c), hs, c.sp, 2, 2)
    requires var r := RunAll(Step(c), hs); r.mem[r.pc] == 0x60
    ensures var r := Step(RunAll(Step(c), hs)); r.pc == Word(c.pc + 3) && r.sp == c.sp
  {
    hide Step, OnStack, Guards, RunAll, BalancedRun, Execute, Address, Fetch, DoRts;
    var live, r := ReturnBytes(Word(c.pc + 3)), RunAll(Step(c), hs);
    JsrPushes(c);
    GuardsAll(Step(c), c.sp, live);
    RunKeeps(Step(c), hs, c.sp, live, 2);
    StepIs(r);
    var r1 := Address(Fetch(r));
    OnStackSame(r, r1, c.sp, live);
    JsrIs(r1);
    CallReturns(c.(pc := Word(c.pc + 3)), r1);
  }

  // From the saved bytes on the stack, an rti executed here resumes.
  lemma RtiExecuted(c: Cpu, pushed: bv8, start: Cpu, hs: seq<Happening>)
    requires OnStack(start, c.sp, Saved(c, pushed)) && BalancedRun(start, hs, c.sp, 3, 3)
    requires var r := RunAll(start, hs); r.mem[r.pc] == 0x40
    ensures var r := Step(RunAll(start, hs)); r.pc == c.pc && r.status == pushed && r.sp == c.sp
  {
    hide Step, OnStack, Guards, RunAll, BalancedRun, Execute, Address, Fetch, DoRti;
    var r := RunAll(start, hs);
    GuardsAll(start, c.sp, Saved(c, pushed));
    RunKeeps(start, hs, c.sp, Saved(c, pushed), 3);
    StepIs(r);
    var r1 := Address(Fetch(r));
    OnStackSame(r, r1, c.sp, Saved(c, pushed));
    JsrIs(r1);
    InterruptReturns(c, pushed, r1);
  }

  /** An interrupt handler resumes: from irq6502 or nmi6502, through any balanced
      run that keeps the three bytes saved, an rti restores pc, status and stack
      pointer. */
  lemma InterruptResumes(c: Cpu, nmi: bool, hs: seq<Happening>)
    requires var start := if nmi then Nmi(c) else Irq(c);
             BalancedRun(start, hs, c.sp, 3, 3) && var r := RunAll(start, hs); r.mem[r.pc] == 0x40
    ensures var r := Step(RunAll(if nmi then Nmi(c) else Irq(c), hs));
            r.pc == c.pc && r.status == c.status && r.sp == c.sp
  {
    hide Step, OnStack, RunAll, BalancedRun, Interrupt;
    InterruptPushes(c, c.status, if nmi then 0xFFFA else 0xFFFE);
    RtiExecuted(c, c.status, if nmi then Nmi(c) else Irq(c), hs);
  }

  /** Likewise brk, which resumes two bytes on, with the break flag set. */
  lemma BrkResumes(c: Cpu, hs: seq<Happening>)
    requires c.mem[c.pc] == 0x00 && BalancedRun(Step(c), hs, c.sp, 3, 3)
    requires var r := RunAll(Step(c), hs); r.mem[r.pc] == 0x40
    ensures var r := Step(RunAll(Step(c), hs));
            r.pc == Word(c.pc + 2) && r.status == c.status | CONSTANT | BREAK && r.sp == c.sp
  {
    hide Step, OnStack, RunAll, BalancedRun, Interrupt, Execute, Address, Fetch;
    StepIs(c);
    StepRegisters(c);
    BrkFetched(c);
    var c1 := Address(Fetch(c));
    JsrIs(c1);
    var c2 := c1.(pc := Word(c1.pc + 1));
    InterruptPushes(c2, c2.status | BREAK, 0xFFFE);
    OnStackSame(DoBrk(c1), Step(c), c.sp, Saved(c2, c2.status | BREAK));
    RtiExecuted(c2, c2.status | BREAK, Step(c), hs);
  }

  lemma StackOpcodes()
    ensures OpOf(0x08).Php? && OpOf(0x28).Plp? && OpOf(0x48).Pha? && OpOf(0x68).Pla?
  {
  }

  lemma StackOpIs(c: Cpu)
    ensures c.opcode == 0x08 ==> Execute(c) == DoPhp(c)
    ensures c.opcode == 0x28 ==> Execute(c) == DoPlp(c)
    ensures c.opcode == 0x48 ==> Execute(c) == Push8(c, c.a)
    ensures c.opcode == 0x68 ==> Execute(c) == DoPla(c)
  {
    hide DoPhp, DoPlp, DoPla, Push8, OpOf, ExecuteBranch, ExecuteFlag, ExecuteRegister, ExecuteJump, ExecuteCombined,
         ExecuteLoadStore, ExecuteMemory;
    StackOpcodes();
  }

  lemma PushedByte(c: Cpu, b: byte)
    ensures OnStack(Push8(c, b), c.sp, [b])
  {
    hide Push8;
    EmptyStack(c);
    PushOne(c, c.sp, [], b);
  }

  // The byte a pull executed here gets, after a balanced run over it.
  lemma PullExecuted(start: Cpu, base: byte, b: byte, hs: seq<Happening>)
    requires OnStack(start, base, [b]) && BalancedRun(start, hs, base, 1, 1)
    ensures var p := Pull8(Address(Fetch(RunAll(start, hs)))); p.v == b && p.c.sp == base
  {
    hide OnStack, Guards, RunAll, BalancedRun, Address, Fetch, Pull8, Execute, Step;
    var r := RunAll(start, hs);
    GuardsAll(start, base, [b]);
    RunKeeps(start, hs, base, [b], 1);
    StepIs(r);
    OnStackSame(r, Address(Fetch(r)), base, [b]);
    PullOne(Address(Fetch(r)), base, [b]);
    StackPointer(Pull8(Address(Fetch(r))).c, base, [b][..0]);
  }

  /** php ... plp around any balanced run restores every flag, but sets BREAK and
      CONSTANT. */
  lemma FlagsRestored(c: Cpu, hs: seq<Happening>)
    requires c.mem[c.pc] == 0x08 && BalancedRun(Step(c), hs, c.sp, 1, 1)
    requires var r := RunAll(Step(c), hs); r.mem[r.pc] == 0x28
    ensures var r := Step(RunAll(Step(c), hs)); r.status == c.status | BREAK | CONSTANT && r.sp == c.sp
  {
    hide Step, OnStack, RunAll, BalancedRun, Execute, Address, Fetch, Push8, Pull8;
    StepIs(c);
    var c1 := Address(Fetch(c));
    StackOpIs(c1);
    StepRegisters(c);
    var saved := c1.status | BREAK;
    PushedByte(c1, FromBits(saved));
    OnStackSame(DoPhp(c1), Step(c), c.sp, [FromBits(saved)]);
    var r := RunAll(Step(c), hs);
    PullExecuted(Step(c), c.sp, FromBits(saved), hs);
    StepIs(r);
    StackOpIs(Address(Fetch(r)));
    StatusByte(saved);
    assert saved | CONSTANT == c.status | BREAK | CONSTANT;
  }

  /** pha ... pla around any balanced run restores the accumulator, with the zero
      and sign flags set for it. */
  lemma AccumulatorRestored(c: Cpu, hs: seq<Happening>)
    requires c.mem[c.pc] == 0x48 && BalancedRun(Step(c), hs, c.sp, 1, 1)
    requires var r := RunAll(Step(c), hs); r.mem[r.pc] == 0x68
    ensures var r := Step(RunAll(Step(c), hs));
            r.a == c.a && r.sp == c.sp && (Has(r, ZERO) <==> c.a == 0) && (Has(r, SIGN) <==> c.a >= 128)
  {
    hide Step, OnStack, RunAll, BalancedRun, Execute, Address, Fetch, Push8, Pull8, ZeroSign;
    StepIs(c);
    var c1 := Address(Fetch(c));
    StackOpIs(c1);
    StepRegisters(c);
    PushedByte(c1, c1.a);
    OnStackSame(Push8(c1, c1.a), Step(c), c.sp, [c1.a]);
    var r := RunAll(Step(c), hs);
    PullExecuted(Step(c), c.sp, c1.a, hs);
    StepIs(r);
    StackOpIs(Address(Fetch(r)));
    StepRegisters(r);
    PullQuiet(Address(Fetch(r)));
    Operations.Described(Address(Fetch(r)).status, c.a);
  }
}
