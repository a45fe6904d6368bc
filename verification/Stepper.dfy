/** The fake 6502 target under a debugger: it waits while stopped, executes one
    instruction for each step action, and runs on when told to. Each remote
    update delivers at most one action. */
module Stepper {
  import opened Backend
  import C = Cpu
  import Disassembler

  datatype Target = Target(cpu: C.Cpu, state: DebugState)

  function DoAction(state: DebugState, action: int): DebugState {
    if action == ACTION_BREAK then StopException
    else if action == ACTION_RUN then Running
    else if action == ACTION_STEP then Trace
    else state
  }

  /** Actions by number: 2 stops, 3 runs, 4 steps, and no other changes the state. */
  lemma ActionsMean(state: DebugState, action: int)
    ensures DoAction(state, 2).StopException? && DoAction(state, 3).Running? && DoAction(state, 4).Trace?
    ensures action < 2 || action > 4 ==> DoAction(state, action) == state
  {
  }

  // One remote update: the next action, if there is one.
  function Update(t: Target, actions: seq<int>): Target {
    t.(state := DoAction(t.state, if actions == [] then ACTION_NONE else actions[0]))
  }

  function Rest(actions: seq<int>): seq<int> {
    if actions == [] then [] else actions[1..]
  }

  // The switch at the top of the waiting loop.
  function ServeStep(t: Target): Target {
    if t.state.Trace? then Target(C.Step(t.cpu), StopException) else t
  }

  // `running` is false when the actions ran out while still waiting.
  datatype Waited = Waited(t: Target, rest: seq<int>, executed: nat, running: bool)

  // The waiting loop of execute6502, for the updates these actions make.
  function WaitForRun(t: Target, actions: seq<int>): (w: Waited)
    ensures |w.rest| <= |actions|
    decreases |actions|
  {
    if t.state.Running? then Waited(t, actions, 0, true)
    else
      var served := ServeStep(t);
      var count := if t.state.Trace? then 1 else 0;
      if actions == [] then Waited(served, [], count, false)
      else
        var w := WaitForRun(Update(served, actions), actions[1..]);
        w.(executed := w.executed + count)
  }

  function Steps(actions: seq<int>): nat {
    if actions == [] then 0 else (if actions[0] == ACTION_STEP then 1 else 0) + Steps(actions[1..])
  }

  // The actions up to and including the first run.
  function UntilRun(actions: seq<int>): seq<int> {
    if actions == [] then []
    else if actions[0] == ACTION_RUN then [ACTION_RUN]
    else [actions[0]] + UntilRun(actions[1..])
  }

  // What the waiting loop has done by the time it ends or waits again.
  predicate OnePerStep(t: Target, actions: seq<int>, w: Waited) {
    && w.running == (ACTION_RUN in actions)
    && actions == UntilRun(actions) + w.rest
    && w.executed == (if t.state.Trace? then 1 else 0) + Steps(UntilRun(actions))
    && w.t.cpu == Disassembler.StepN(t.cpu, w.executed)
    && w.t.state.Running? == w.running && !w.t.state.Trace?
  }

  /** Waiting ends at the first run action; by then, and whenever the loop is
      waiting for the next action, exactly one instruction has been executed for
      each step action consumed. */
  lemma {:induction false} OneInstructionPerStep(t: Target, actions: seq<int>)
    requires !t.state.Running?
    ensures OnePerStep(t, actions, WaitForRun(t, actions))
    decreases |actions|
  {
    hide OnePerStep, WaitForRun, ServeStep;
    if actions == [] {
      NoActionLeft(t);
    } else if actions[0] == ACTION_RUN {
      RunTaken(t, actions);
    } else {
      NotRunning(t);
      OneInstructionPerStep(Update(ServeStep(t), actions), actions[1..]);
      OtherTaken(t, actions, WaitForRun(Update(ServeStep(t), actions), actions[1..]));
      WaitsOn(t, actions);
    }
  }

  lemma ServedStep(t: Target)
    requires !t.state.Running?
    ensures ServeStep(t).cpu == Disassembler.StepN(t.cpu, if t.state.Trace? then 1 else 0)
    ensures !ServeStep(t).state.Running? && !ServeStep(t).state.Trace?
  {
    hide C.Step;
    assert Disassembler.StepN(t.cpu, 0) == t.cpu;
  }

  lemma NotRunning(t: Target)
    requires !t.state.Running?
    ensures !ServeStep(t).state.Running?
  {
    hide C.Step;
  }

  lemma NoActionLeft(t: Target)
    requires !t.state.Running?
    ensures OnePerStep(t, [], WaitForRun(t, []))
  {
    hide C.Step;
    ServedStep(t);
  }

  lemma RunTaken(t: Target, actions: seq<int>)
    requires !t.state.Running? && actions != [] && actions[0] == ACTION_RUN
    ensures OnePerStep(t, actions, WaitForRun(t, actions))
  {
    hide ServeStep, Disassembler.StepN;
    ServedStep(t);
    var next := Update(ServeStep(t), actions);
    assert WaitForRun(next, actions[1..]) == Waited(next, actions[1..], 0, true);
    assert Steps([ACTION_RUN]) == 0;
    assert actions == [ACTION_RUN] + actions[1..];
  }

  lemma OtherTaken(t: Target, actions: seq<int>, w: Waited)
    requires !t.state.Running? && actions != [] && actions[0] != ACTION_RUN
    requires OnePerStep(Update(ServeStep(t), actions), actions[1..], w)
    ensures OnePerStep(t, actions, w.(executed := w.executed + if t.state.Trace? then 1 else 0))
  {
    hide ServeStep, Disassembler.StepN;
    ServedStep(t);
    var rest, count := UntilRun(actions[1..]), if t.state.Trace? then 1 else 0;
    assert actions == [actions[0]] + actions[1..];
    assert ([actions[0]] + rest)[1..] == rest;
    Disassembler.StepsAdd(ServeStep(t).cpu, t.cpu, count, w.executed);
  }

  lemma WaitsOn(t: Target, actions: seq<int>)
    requires !t.state.Running? && actions != []
    ensures var w := WaitForRun(Update(ServeStep(t), actions), actions[1..]);
            WaitForRun(t, actions) == w.(executed := w.executed + if t.state.Trace? then 1 else 0)
  {
    hide C.Step;
  }

  datatype Executed = Executed(t: Target, rest: seq<int>, returned: bool)

  // execute6502. While not stopped, an unconnected target polls only at every
  // 128th instruction.
  function Execute(t: Target, actions: seq<int>, connected: bool): Executed {
    if t.state.StopException? then
      var w := WaitForRun(t, actions);
      if w.running then Executed(w.t.(cpu := C.Step(w.t.cpu)), w.rest, true) else Executed(w.t, w.rest, false)
    else
      var polled := connected || t.cpu.instructions % 128 == 0;
      var t1 := if polled then Update(t, actions) else t;
      Executed(t1.(cpu := C.Step(t1.cpu)), if polled then Rest(actions) else actions, true)
  }

  /** An unconnected target that is not stopped looks for an action at every 128th
      instruction, and then behaves as a connected one; at the others it leaves
      the actions alone. */
  lemma PollsSometimes(t: Target, actions: seq<int>)
    requires !t.state.StopException?
    ensures t.cpu.instructions % 128 == 0 ==> Execute(t, actions, false) == Execute(t, actions, true)
    ensures t.cpu.instructions % 128 != 0 ==>
              Execute(t, actions, false) == Executed(Target(C.Step(t.cpu), t.state), actions, true)
  {
    hide C.Step;
  }

  /** Debugger stepping: entered stopped, execute6502 returns exactly if a run
      action comes, having executed one instruction for each step before it and
      one more to start running. */
  lemma SteppedThenRuns(t: Target, actions: seq<int>, connected: bool)
    requires t.state.StopException?
    ensures var r, n := Execute(t, actions, connected), Steps(UntilRun(actions));
            && r.returned == (ACTION_RUN in actions)
            && r.t.cpu == Disassembler.StepN(t.cpu, if r.returned then n + 1 else n)
            && actions == UntilRun(actions) + r.rest
            && (r.returned ==> r.t.state.Running?)
  {
    hide C.Step, WaitForRun, UntilRun, Steps;
    OneInstructionPerStep(t, actions);
  }

  /** A break polled while running lets one more instruction through. */
  lemma BreakStopsAfterOne(t: Target, actions: seq<int>, more: seq<int>)
    requires t.state.Running? && actions != [] && actions[0] == ACTION_BREAK
    requires ACTION_RUN !in more
    ensures var r := Execute(t, actions, true);
            && r.t == Target(C.Step(t.cpu), StopException)
            && Execute(r.t, more, true).t.cpu == Disassembler.StepN(r.t.cpu, Steps(more))
  {
    hide C.Step;
    SteppedThenRuns(Target(C.Step(t.cpu), StopException), more, true);
    NoRun(more);
  }

  lemma NoRun(actions: seq<int>)
    requires ACTION_RUN !in actions
    ensures UntilRun(actions) == actions
  {
  }

  // n calls of execute6502 by a connected target; a call that waits for ever
  // is the last.
  function ExecuteN(t: Target, actions: seq<int>, n: nat): Executed {
    if n == 0 then Executed(t, actions, true)
    else
      var r := ExecuteN(t, actions, n - 1);
      if r.returned then Execute(r.t, r.rest, true) else r
  }

  function From(actions: seq<int>, n: nat): seq<int> {
    if n <= |actions| then actions[n..] else []
  }

  /** A target that is not stopped polls one action a call, executes one
      instruction a call, and does not stop before a break, whatever other
      actions come. */
  lemma {:induction false} OnlyBreakStops(t: Target, actions: seq<int>, n: nat)
    requires !t.state.StopException? && ACTION_BREAK !in actions
    ensures var r := ExecuteN(t, actions, n);
            && !r.t.state.StopException? && r.returned && r.rest == From(actions, n)
            && r.t.cpu == Disassembler.StepN(t.cpu, n)
  {
    hide C.Step;
    if n > 0 {
      OnlyBreakStops(t, actions, n - 1);
      OneCall(ExecuteN(t, actions, n - 1).t, From(actions, n - 1));
    }
  }

  // One call of a target that is not stopped.
  lemma OneCall(t: Target, actions: seq<int>)
    requires !t.state.StopException?
    ensures var r := Execute(t, actions, true);
            && r == Executed(Target(C.Step(t.cpu), r.t.state), From(actions, 1), true)
            && (r.t.state.StopException? <==> actions != [] && actions[0] == ACTION_BREAK)
  {
    hide C.Step;
  }

  /** So with k actions polled and no break among them, the next action stops it
      if and only if it is one. */
  lemma BreakStops(t: Target, actions: seq<int>, k: nat)
    requires !t.state.StopException? && k < |actions| && ACTION_BREAK !in actions[..k]
    ensures var r := ExecuteN(t, actions, k + 1);
            && r.rest == actions[k + 1..] && r.t.cpu == Disassembler.StepN(t.cpu, k + 1)
            && (r.t.state.StopException? <==> actions[k] == ACTION_BREAK)
  {
    hide C.Step, Execute;
    OnlyBreakStops(t, actions[..k], k);
    SamePrefix(t, actions, k, k);
    OneCall(ExecuteN(t, actions, k).t, actions[k..]);
  }

  // Calls see only the actions they poll.
  lemma {:induction false} SamePrefix(t: Target, actions: seq<int>, k: nat, n: nat)
    requires !t.state.StopException? && n <= k <= |actions| && ACTION_BREAK !in actions[..k]
    ensures var r := ExecuteN(t, actions, n);
            r.returned && r.rest == actions[n..] && r.t == ExecuteN(t, actions[..k], n).t
  {
    hide C.Step, Execute;
    if n > 0 {
      SamePrefix(t, actions, k, n - 1);
      OnlyBreakStops(t, actions[..k], n - 1);
      var t1 := ExecuteN(t, actions, n - 1).t;
      OneCall(t1, actions[n - 1..]);
      OneCall(t1, actions[..k][n - 1..]);
      SameCall(t1, actions[n - 1..], actions[..k][n - 1..]);
    }
  }

  lemma SameCall(t: Target, a: seq<int>, b: seq<int>)
    requires !t.state.StopException? && a != [] && b != [] && a[0] == b[0]
    ensures Execute(t, a, true).t == Execute(t, b, true).t
  {
    hide C.Step;
  }

  /** A step is honoured, by stopping again after it, if and only if the target
      was stopped when it came: over any number of calls and any further
      actions but break and run. */
  lemma StepHonoured(t: Target, more: seq<int>, n: nat)
    requires n > 0 && ACTION_BREAK !in more && ACTION_RUN !in more
    ensures var r := ExecuteN(t, [ACTION_STEP] + more, n);
            && (r.t.state.StopException? <==> t.state.StopException?)
            && r.t.cpu == Disassembler.StepN(t.cpu, if t.state.StopException? then 1 + Steps(more) else n)
  {
    hide C.Step, Execute;
    var actions := [ACTION_STEP] + more;
    if t.state.StopException? {
      SteppedThenRuns(t, actions, true);
      NoRun(actions);
      assert actions[1..] == more;
      Waits(t, actions, n);
      StillStopped(t, actions);
    } else {
      OnlyBreakStops(t, actions, n);
    }
  }

  // The first call waits for ever, so no later one is made.
  lemma {:induction false} Waits(t: Target, actions: seq<int>, n: nat)
    requires n > 0 && !Execute(t, actions, true).returned
    ensures ExecuteN(t, actions, n) == Execute(t, actions, true)
  {
    hide Execute;
    if n > 1 {
      Waits(t, actions, n - 1);
    } else {
      assert ExecuteN(t, actions, 0) == Executed(t, actions, true);
    }
  }

  lemma StillStopped(t: Target, actions: seq<int>)
    requires t.state.StopException? && ACTION_RUN !in actions
    ensures Execute(t, actions, true).t.state.StopException?
  {
    hide C.Step, WaitForRun, OnePerStep;
    StateKept(t, actions);
    NeverRuns(t, actions);
  }

  lemma NeverRuns(t: Target, actions: seq<int>)
    requires t.state.StopException? && ACTION_RUN !in actions
    ensures !WaitForRun(t, actions).running
  {
    hide WaitForRun, UntilRun, Steps;
    OneInstructionPerStep(t, actions);
  }

  // A waiting target is never in a state other than stopped, trace and running.
  lemma {:induction false} StateKept(t: Target, actions: seq<int>)
    requires t.state.StopException? || t.state.Trace?
    ensures var w := WaitForRun(t, actions); if w.running then w.t.state.Running? else w.t.state.StopException?
    decreases |actions|
  {
    hide C.Step;
    if actions != [] {
      var next := Update(ServeStep(t), actions);
      if !next.state.Running? {
        StateKept(next, actions[1..]);
      }
    }
  }

  /** In particular a step polled while running leaves the target in the trace
      state, where it runs on, one instruction a call. */
  lemma {:induction false} StepWhileRunningRunsOn(t: Target, n: nat)
    requires t.state.Running?
    ensures ExecuteN(t, [ACTION_STEP], n + 1) == Executed(Target(Disassembler.StepN(t.cpu, n + 1), Trace), [], true)
  {
    hide C.Step, Execute;
    if n > 0 {
      StepWhileRunningRunsOn(t, n - 1);
      var r := ExecuteN(t, [ACTION_STEP], n);
      OneTrace(r.t, []);
      assert ExecuteN(t, [ACTION_STEP], n + 1) == Execute(r.t, r.rest, true);
      assert Disassembler.StepN(t.cpu, n + 1) == C.Step(Disassembler.StepN(t.cpu, n));
    } else {
      assert ExecuteN(t, [ACTION_STEP], 0) == Executed(t, [ACTION_STEP], true);
      assert Disassembler.StepN(t.cpu, 0) == t.cpu;
      OneTrace(t, [ACTION_STEP]);
      assert ExecuteN(t, [ACTION_STEP], 1) == Execute(t, [ACTION_STEP], true);
      assert Disassembler.StepN(t.cpu, 1) == C.Step(t.cpu);
      assert n + 1 == 1;
    }
  }

  lemma OneTrace(t: Target, actions: seq<int>)
    requires (t.state.Running? && actions == [ACTION_STEP]) || (t.state.Trace? && actions == [])
    ensures Execute(t, actions, true) == Executed(Target(C.Step(t.cpu), Trace), [], true)
  {
    hide C.Step;
  }
}
