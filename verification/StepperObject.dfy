/** The fake target as the source has it: a processor, a run state and the
    actions still to arrive, driven in place. */
module StepperObject {
  import opened Backend
  import opened CpuObject
  import C = Cpu
  import S = Stepper
  import Report
  import opened Bytes
  import opened BinaryWriter

  class Debugger {
    const cpu: Cpu6502
    var runState: DebugState
    var actions: seq<int>
    const listing: C.Memory -> CString
    var reply: seq<Call>

    ghost predicate Valid()
      reads this
    {
      cpu.Valid()
    }

    ghost function Abs(): S.Target
      requires Valid()
      reads this, cpu, cpu.mem
    {
      S.Target(cpu.Abs(), runState)
    }

    // createInstance: the target starts out running. `listing` is the text of
    // the disassembly for a memory.
    constructor (cpu: Cpu6502, actions: seq<int>, listing: C.Memory -> CString)
      requires cpu.Valid()
      ensures Valid() && this.cpu == cpu && this.actions == actions && runState == Running
      ensures this.listing == listing && reply == []
    {
      this.cpu, this.actions, this.listing, runState, reply := cpu, actions, listing, Running, [];
    }

    // The next state, and the calls made to the writer of this update.
    method DoAction(action: int)
      requires Valid()
      modifies this`runState, this`reply
      ensures runState == S.DoAction(old(runState), action)
      ensures reply == Report.Reply(action, Report.Show(cpu.Abs()), listing(cpu.mem[..]))
    {
      reply := [];
      if action == ACTION_BREAK {
        runState := StopException;
        SendState();
      } else if action == ACTION_RUN {
        runState := Running;
      } else if action == ACTION_STEP {
        runState := Trace;
        SendState();
      }
    }

    method SendState()
      requires Valid()
      modifies this`reply
      ensures reply == old(reply) + Report.StateCalls(Report.Show(cpu.Abs()), listing(cpu.mem[..]))
    {
      var shown := Report.Shown(cpu.pc, cpu.sp, cpu.a, cpu.x, cpu.y, cpu.status);
      reply := reply + Report.StateCalls(shown, listing(cpu.mem[..]));
    }

    // PDRemote_update as this target sees it.
    method Update()
      requires Valid()
      modifies this
      ensures Valid() && Abs() == S.Update(old(Abs()), old(actions)) && actions == S.Rest(old(actions))
      ensures var action := if old(actions) == [] then ACTION_NONE else old(actions)[0];
              reply == Report.Reply(action, Report.Show(cpu.Abs()), listing(cpu.mem[..]))
    {
      if actions == [] {
        DoAction(ACTION_NONE);
      } else {
        DoAction(actions[0]);
        actions := actions[1..];
      }
    }

    // The loop that waits while stopped; false if no more actions arrive.
    method WaitForRun() returns (running: bool, ghost executed: nat)
      requires Valid()
      modifies this, cpu, cpu.mem
      ensures Valid() && S.Waited(Abs(), actions, executed, running) == S.WaitForRun(old(Abs()), old(actions))
    {
      hide C.Step;
      executed := 0;
      while true
        invariant Valid()
        invariant var w := S.WaitForRun(Abs(), actions);
                  w.(executed := w.executed + executed) == S.WaitForRun(old(Abs()), old(actions))
        decreases |actions|
      {
        if runState == Running {
          return true, executed;
        }
        if runState == Trace {
          cpu.Step();
          executed := executed + 1;
          runState := StopException;
        }
        if actions == [] {
          return false, executed;
        }
        Update();
      }
    }

    method Execute(connected: bool) returns (returned: bool)
      requires Valid()
      modifies this, cpu, cpu.mem
      ensures Valid() && S.Executed(Abs(), actions, returned) == S.Execute(old(Abs()), old(actions), connected)
    {
      hide C.Step, S.WaitForRun;
      if runState == StopException {
        var running, _ := WaitForRun();
        if !running {
          return false;
        }
      } else if connected || cpu.instructions % 128 == 0 {
        Update();
      }
      cpu.Step();
      return true;
    }
  }
}
