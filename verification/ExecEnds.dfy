/** When the loop of exec6502 ends: for which goals every machine gets there. */
module ExecEnds {
  import opened Opcodes
  import opened Cpu
  import Cycles

  function After(c: Cpu, n: nat): Cpu {
    if n == 0 then c else Instruction(After(c, n - 1))
  }

  // The loop stops at the first such n.
  ghost predicate Reaches(c: Cpu) {
    exists n: nat :: After(c, n).ticks >= c.goal
  }

  lemma {:induction false} AfterOne(c: Cpu, n: nat)
    ensures After(Instruction(c), n) == After(c, n + 1)
  {
    hide Instruction;
    if n > 0 {
      AfterOne(c, n - 1);
    } else {
      assert After(c, 0) == c;
    }
  }

  /** With any other goal the loop stops after the first instruction that gets
      there. */
  lemma {:induction false} StopsAtFirst(c: Cpu) returns (n: nat)
    requires c.goal <= 0xFFFF_FFF8
    ensures Cycles.RunToGoal(c) == After(c, n) && After(c, n).ticks >= c.goal
    ensures forall i: nat :: i < n ==> After(c, i).ticks < c.goal
    decreases c.goal - c.ticks
  {
    hide Instruction, Cycles.RunToGoal;
    assert After(c, 0) == c;
    Advances(c);
    n := 0;
    if c.ticks < c.goal {
      var k := StopsAtFirst(Instruction(c));
      AfterOne(c, k);
      n := k + 1;
      forall i: nat | i < n
        ensures After(c, i).ticks < c.goal
      {
        if i > 0 {
          AfterOne(c, i - 1);
        }
      }
    }
  }

  lemma Advances(c: Cpu)
    requires c.goal <= 0xFFFF_FFF8
    ensures c.ticks >= c.goal ==> Cycles.RunToGoal(c) == c
    ensures c.ticks < c.goal ==>
              var c1 := Instruction(c);
              c1.goal == c.goal && c.ticks < c1.ticks && Cycles.RunToGoal(c) == Cycles.RunToGoal(c1)
  {
    hide Instruction, Cycles.Charge;
    Cycles.ChargeRange(c);
  }

  lemma ReachesGoal(c: Cpu)
    requires c.goal <= 0xFFFF_FFF8
    ensures Reaches(c)
  {
    hide After;
    var n := StopsAtFirst(c);
  }

  // slo (0,x) all over memory: 03 00 03 00 ...
  function Code(): (m: Memory)
    ensures forall i :: 0 <= i < 0x1_0000 ==> m[i] == if i % 2 == 0 then 3 else 0
  {
    seq(0x1_0000, i requires 0 <= i < 0x1_0000 => if i % 2 == 0 then 3 else 0)
  }

  // Each instruction shifts the zero at address 3 and takes 8 cycles, so the
  // counter only ever holds multiples of 8.
  predicate Cycling(c: Cpu) {
    c.mem == Code() && c.x == 0 && c.pc % 2 == 0 && c.ticks % 8 == 0
  }

  lemma SloTable()
    ensures ModeOf(3).Indx? && OpOf(3).Slo? && Ticks(3) == 8
  {
  }

  lemma Decoded(c: Cpu)
    requires Cycling(c)
    ensures var c1 := Address(Fetch(c));
            c1.opcode == 3 && c1.ea == 3 && c1.mem == c.mem && c1.x == 0 && c1.pc % 2 == 0
  {
    hide ModeOf, Address;
    SloTable();
    assert Code()[c.pc] == 3;
    IndirectThree(Fetch(c));
  }

  lemma IndirectThree(c: Cpu)
    requires ModeOf(c.opcode).Indx? && c.mem == Code() && c.x == 0 && c.pc % 2 == 1
    ensures var c1 := Address(c);
            c1 == c.(pc := c1.pc, ea := 3) && c1.pc % 2 == 0
  {
    hide ModeOf, Code;
    var m := Code();
    assert m[c.pc] == 0 && m[0] == 3 && m[1] == 0;
  }

  lemma SloKeeps(c: Cpu)
    requires c.opcode == 3 && c.ea == 3 && c.mem == Code()
    ensures var r := Execute(c); r.mem == c.mem && r.x == c.x && r.pc == c.pc
  {
    hide ModeOf, OpOf, Code, ZeroSign, Flag, Or8, Count;
    SloTable();
    var m := Code();
    assert m[3] == 0 && m[3 := 0] == m;
  }

  lemma StaysCycling(c: Cpu)
    requires Cycling(c)
    ensures Cycling(Instruction(c)) && Instruction(c).goal == c.goal
  {
    hide Address, Fetch, Execute, OpOf, Ticks, Code, Cycles.Charge;
    Cycles.ChargeRange(c);
    SloTable();
    Decoded(c);
    assert Code()[c.pc] == 3;
    SloKeeps(Address(Fetch(c)));
  }

  lemma {:induction false} NeverReaches(c: Cpu, n: nat)
    requires Cycling(c) && c.goal > 0xFFFF_FFF8
    ensures Cycling(After(c, n)) && After(c, n).ticks < c.goal
  {
    hide Instruction, Code;
    if n > 0 {
      NeverReaches(c, n - 1);
      StaysCycling(After(c, n - 1));
    }
  }

  /** Every machine with this goal gets there if and only if the goal is not one of
      the last 7 counts; for those the machine above runs for ever. */
  lemma EndsExactly(goal: count)
    ensures (forall c: Cpu :: c.goal == goal ==> Reaches(c)) <==> goal <= 0xFFFF_FFF8
  {
    hide Reaches, Code;
    if goal <= 0xFFFF_FFF8 {
      forall c: Cpu | c.goal == goal
        ensures Reaches(c)
      {
        ReachesGoal(c);
      }
    } else {
      var c := Cpu(0, 0, 0, 0, 0, 0, 0, 0, 0, false, false, 0, goal, 0, Code());
      Stuck(c);
    }
  }

  lemma Stuck(c: Cpu)
    requires Cycling(c) && c.goal > 0xFFFF_FFF8
    ensures !Reaches(c)
  {
    forall n: nat
      ensures After(c, n).ticks < c.goal
    {
      NeverReaches(c, n);
    }
  }
}
