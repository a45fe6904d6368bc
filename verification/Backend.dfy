/** What the debugger and its backends agree on: actions and debug states. */
module Backend {

  datatype DebugState = NoTarget | Running | StopBreakpoint | StopException | Trace

  const ACTION_NONE: int := 0
  const ACTION_BREAK: int := 2
  const ACTION_RUN: int := 3
  const ACTION_STEP: int := 4
}
