/** The exchange between the user interface and a backend plugin: requests go
    out through one writer, replies come back through the other, and one
    reader serves both sides in turn. */
module Session {
  import opened Backend
  import opened Bytes
  import opened Format
  import opened BinaryWriter
  import opened BinaryReader
  import opened Tiling
  import opened Events
  import opened Requests

  // `reader` points into prev's buffer whenever no update is in progress.
  datatype Session = Session(cur: State, prev: State, reader: Reader, hasPlugin: bool, state: DebugState, timer: Timer)

  // The timer that polls the backend, once there is one.
  datatype Timer = NoTimer | Stopped | Polling

  // A change of state starts or stops it.
  function NextTimer(timer: Timer, state: DebugState, next: DebugState): Timer {
    if timer.NoTimer? || next == state then timer else if next.Running? then Polling else Stopped
  }

  datatype Step =
    | Request(calls: seq<Call>)
    | Update(replies: seq<Call>, state: DebugState)

  predicate Valid(s: Session) {
    BinaryWriter.Valid(s.cur) && BinaryWriter.Valid(s.prev)
  }

  // What the plugin finds by draining the reader it is handed.
  function SeenByPlugin(s: Session): seq<View>
    requires Valid(s)
  {
    if s.hasPlugin then Drain(Finalize(s.cur).mem, InitStream(GetSize(s.cur))) else []
  }

  // What the user interface finds by draining the reader afterwards.
  function SeenByUi(s: Session): seq<View> {
    Drain(s.prev.mem, s.reader)
  }

  function Drain(m: bytes, r: Reader): seq<View> {
    Collect(m, r, |m| + 1)
  }

  predicate CanUpdate(s: Session, replies: seq<Call>) {
    Valid(s) && HEADER + TotalCost(replies) <= CAPACITY
  }

  function InternalUpdate(s: Session, replies: seq<Call>, state: DebugState): (s': Session)
    requires CanUpdate(s, replies)
    ensures Valid(s')
  {
    if !s.hasPlugin then s
    else
      var answered := Finalize(Run(Reset(s.prev), replies));
      Session(Reset(Finalize(s.cur)), answered, Rewind(InitStream(GetSize(answered))), true, state,
              NextTimer(s.timer, s.state, state))
  }

  // BackendSession::start
  function Launch(s: Session, replies: seq<Call>, state: DebugState): (s': Session)
    requires CanUpdate(s, replies)
    ensures Valid(s')
  {
    if s.state.Running? then s else InternalUpdate(s, replies, state).(timer := Polling)
  }

  function WriteRequest(s: Session, calls: seq<Call>): (s': Session)
    requires Valid(s) && s.cur.data + TotalCost(calls) <= CAPACITY
    ensures Valid(s')
  {
    s.(cur := Run(s.cur, calls))
  }

  // Whole runs: the session, what the plugin has seen over all updates,
  // everything the user interface has written, and which part of it each
  // update handed over.
  datatype History = History(s: Session, seen: seq<View>, written: seq<Event>, batches: seq<seq<Event>>)

  function All(batches: seq<seq<Event>>): seq<Event> {
    if batches == [] then [] else All(batches[..|batches| - 1]) + batches[|batches| - 1]
  }

  // What has been written since the last update.
  function Pending(h: History): seq<Event> {
    var n := |All(h.batches)|;
    if n <= |h.written| then h.written[n..] else []
  }

  // What is seen of each batch: the events before its first id 0.
  function Shown(batches: seq<seq<Event>>): seq<View> {
    if batches == [] then []
    else Shown(batches[..|batches| - 1]) + Views(UntilNone(batches[|batches| - 1]))
  }

  function Doc0(h: History): Doc {
    Doc(h.written, Idle, h.s.cur.requestId)
  }

  // Requests and replies are complete events and fit the buffers.
  predicate Allowed(h: History, step: Step) {
    Valid(h.s) &&
    match step
    case Request(calls) =>
      && h.s.cur.data + TotalCost(calls) <= CAPACITY && SmallRun(calls)
      && BracketedRun(Doc0(h), calls) && ExtendRun(Doc0(h), calls).open.Idle?
    case Update(replies, _) => Complete(Reset(h.s.prev), replies)
  }

  function Advance(h: History, step: Step): (h': History)
    requires Allowed(h, step)
    ensures Valid(h'.s)
  {
    match step
    case Request(calls) => h.(s := WriteRequest(h.s, calls), written := ExtendRun(Doc0(h), calls).done)
    case Update(replies, state) =>
      h.(s := InternalUpdate(h.s, replies, state), seen := h.seen + SeenByPlugin(h.s),
         batches := if h.s.hasPlugin then h.batches + [Pending(h)] else h.batches)
  }

  predicate AllowedRun(h: History, steps: seq<Step>)
    decreases |steps|
  {
    steps == [] || (Allowed(h, steps[0]) && AllowedRun(Advance(h, steps[0]), steps[1..]))
  }

  function AdvanceRun(h: History, steps: seq<Step>): (h': History)
    requires Valid(h.s) && AllowedRun(h, steps)
    ensures Valid(h'.s)
    decreases |steps|
  {
    if steps == [] then h else AdvanceRun(Advance(h, steps[0]), steps[1..])
  }

  function Start(mem0: bytes, mem1: bytes, hasPlugin: bool): (h: History)
    requires |mem0| == |mem1| == CAPACITY
    ensures Valid(h.s)
  {
    History(Session(Initial(mem0), Initial(mem1), NO_STREAM, hasPlugin, NoTarget, NoTimer), [], [], [])
  }

  /** The batches and what is pending are everything written, in order; the
      plugin has been shown each batch once; and what is pending is complete in
      the request buffer. */
  predicate Delivered(h: History) {
    && Valid(h.s) && h.written == All(h.batches) + Pending(h)
    && h.seen == Shown(h.batches)
    && Tiled(h.s.cur, Doc(Pending(h), Idle, h.s.cur.requestId))
    && AllGood(h.written) && Numbered(Doc0(h), 1)
  }

  // What a run adds does not depend on the events already there.
  lemma {:induction false} PrefixRun(before: seq<Event>, doc: Doc, calls: seq<Call>)
    requires BracketedRun(doc, calls) || BracketedRun(doc.(done := before + doc.done), calls)
    ensures BracketedRun(doc, calls) && BracketedRun(doc.(done := before + doc.done), calls)
    ensures var end := ExtendRun(doc, calls);
            ExtendRun(doc.(done := before + doc.done), calls) == end.(done := before + end.done)
    decreases |calls|
  {
    if calls != [] {
      var c := calls[0];
      PrefixStep(before, doc, c);
      PrefixRun(before, Extend(doc, c), calls[1..]);
    }
  }

  lemma PrefixStep(before: seq<Event>, doc: Doc, c: Call)
    requires Bracketed(doc.open, c)
    ensures Extend(doc.(done := before + doc.done), c) ==
            Extend(doc, c).(done := before + Extend(doc, c).done)
  {
    if c.EventEnd? {
      var e := Event(doc.open.event, doc.open.items);
      assert before + doc.done + [e] == before + (doc.done + [e]);
    }
  }

  lemma RequestKeeps(h: History, calls: seq<Call>)
    requires Delivered(h) && Allowed(h, Request(calls))
    ensures Delivered(Advance(h, Request(calls)))
  {
    hide Tiled, Numbered, AllGood, Good, All, Shown;
    var before, pending := All(h.batches), Doc(Pending(h), Idle, h.s.cur.requestId);
    assert pending.(done := before + pending.done) == Doc0(h);
    PrefixRun(before, pending, calls);
    RunKeeps(h.s.cur, pending, calls);
    NextIdKept(Run(h.s.cur, calls), ExtendRun(pending, calls));
    var h', end := Advance(h, Request(calls)), ExtendRun(pending, calls);
    assert h'.written == before + end.done && h'.written[|before|..] == end.done;
    GoodStart(h);
    RunGood(Doc0(h), calls);
    GoodDone(ExtendRun(Doc0(h), calls));
    RunNumbered(Doc0(h), calls, 1);
  }

  lemma GoodStart(h: History)
    requires Valid(h.s) && AllGood(h.written)
    ensures GoodDoc(Doc0(h))
  {
  }

  lemma ManyBytes(events: seq<Event>)
    ensures |events| <= |EncEvents(events)|
  {
    ManyParts(EventParts(events));
  }

  lemma {:induction false} ManyParts(parts: seq<bytes>)
    requires forall i :: 0 <= i < |parts| ==> |parts[i]| >= 1
    ensures |parts| <= |Concat(parts)|
  {
    if parts != [] {
      ManyParts(parts[..|parts| - 1]);
    }
  }

  // Draining a reader that stands before these events yields them up to the
  // first id 0.
  lemma DrainAll(m: bytes, r: Reader, events: seq<Event>)
    requires AtEvent(m, r, events, 0)
    ensures Drain(m, r) == Views(UntilNone(events))
  {
    hide GetEvent, Good, AllGood, EncEvents, Views, UntilNone, Collect;
    ManyBytes(events);
    CollectAll(m, r, events, 0, |m| + 1);
    assert events[0..] == events;
  }

  /** An update shows the plugin exactly the requests written since the last
      one, up to the first id 0. */
  lemma PluginSeesPending(h: History)
    requires Delivered(h)
    ensures AtEvent(Finalize(h.s.cur).mem, InitStream(GetSize(h.s.cur)), Pending(h), 0)
    ensures Drain(Finalize(h.s.cur).mem, InitStream(GetSize(h.s.cur))) == Views(UntilNone(Pending(h)))
    ensures h.s.hasPlugin ==> SeenByPlugin(h.s) == Views(UntilNone(Pending(h)))
  {
    hide AtEvent, Good, Numbered, Tiled, Drain;
    TiledReads(h.s.cur, Doc(Pending(h), Idle, h.s.cur.requestId), GetSize(h.s.cur));
    DrainAll(Finalize(h.s.cur).mem, InitStream(GetSize(h.s.cur)), Pending(h));
  }

  // After an update the request buffer is empty and numbering goes on.
  lemma ResetEmpty(w: State)
    requires BinaryWriter.Valid(w)
    ensures Tiled(Reset(Finalize(w)), Doc([], Idle, w.requestId)) && Reset(Finalize(w)).requestId == w.requestId
  {
    hide Put;
    FreshTiled(Reset(Finalize(w)));
  }

  lemma Handed(h: History)
    requires Delivered(h)
    ensures All(h.batches + [Pending(h)]) == h.written
    ensures Shown(h.batches + [Pending(h)]) == h.seen + Views(UntilNone(Pending(h)))
  {
    assert (h.batches + [Pending(h)])[..|h.batches|] == h.batches;
  }

  lemma UpdateKeeps(h: History, replies: seq<Call>, state: DebugState)
    requires Delivered(h) && Allowed(h, Update(replies, state))
    ensures Delivered(Advance(h, Update(replies, state)))
    ensures h.s.hasPlugin ==> Pending(Advance(h, Update(replies, state))) == []
  {
    hide Numbered, AllGood, Run, Finalize, Reset, Tiled, Views, AtEvent, Drain, All, Shown;
    if h.s.hasPlugin {
      PluginSeesPending(h);
      Handed(h);
      assert h.written[|h.written|..] == [];
      ResetEmpty(h.s.cur);
    } else {
      assert h.seen + [] == h.seen;
    }
  }

  lemma StartDelivered(mem0: bytes, mem1: bytes, hasPlugin: bool)
    requires |mem0| == |mem1| == CAPACITY
    ensures Delivered(Start(mem0, mem1, hasPlugin))
  {
    FreshTiled(Initial(mem0));
  }

  lemma {:induction false} RunDelivered(h: History, steps: seq<Step>)
    requires Delivered(h) && AllowedRun(h, steps)
    ensures Delivered(AdvanceRun(h, steps))
    decreases |steps|
  {
    hide Allowed, Advance, Delivered;
    if steps != [] {
      match steps[0] {
        case Request(calls) => RequestKeeps(h, calls);
        case Update(replies, state) => UpdateKeeps(h, replies, state);
      }
      RunDelivered(Advance(h, steps[0]), steps[1..]);
    }
  }

  predicate NonZero(events: seq<Event>) {
    forall i :: 0 <= i < |events| ==> events[i].id != 0
  }

  lemma ShownOne(events: seq<Event>)
    ensures |UntilNone(events)| == |events| <==> NonZero(events)
    ensures NonZero(events) ==> UntilNone(events) == events
  {
    UntilNonePrefix(events);
  }

  lemma {:induction false} UntilNonePrefix(events: seq<Event>)
    ensures UntilNone(events) <= events
  {
    if events != [] && events[0].id != 0 {
      UntilNonePrefix(events[1..]);
      assert events == [events[0]] + events[1..];
    }
  }

  lemma {:induction false} ShownAll(batches: seq<seq<Event>>)
    ensures |Shown(batches)| <= |All(batches)|
    ensures |Shown(batches)| == |All(batches)| <==> NonZero(All(batches))
    ensures NonZero(All(batches)) ==> Shown(batches) == Views(All(batches))
    decreases |batches|
  {
    if batches != [] {
      var init, last := batches[..|batches| - 1], batches[|batches| - 1];
      ShownAll(init);
      ShownOne(last);
      NonZeroBoth(All(init), last);
      ViewsAppend(All(init), last);
    }
  }

  lemma NonZeroBoth(a: seq<Event>, b: seq<Event>)
    ensures NonZero(a + b) <==> NonZero(a) && NonZero(b)
  {
    if NonZero(a + b) {
      assert forall i :: 0 <= i < |a| ==> a[i] == (a + b)[i];
      assert forall i :: 0 <= i < |b| ==> b[i] == (a + b)[|a| + i];
    }
  }

  /** Exactly-once exchange: over every run of requests and updates, everything
      written is the batches handed over and what is pending, in order, each
      event with its own place in that order as request id. The plugin has been
      shown each batch once, up to its first id 0; so what it has seen followed
      by what it would see next is everything written if and only if no event
      has the id 0. */
  lemma ExactlyOnce(mem0: bytes, mem1: bytes, hasPlugin: bool, steps: seq<Step>)
    requires |mem0| == |mem1| == CAPACITY
    requires AllowedRun(Start(mem0, mem1, hasPlugin), steps)
    ensures var h := AdvanceRun(Start(mem0, mem1, hasPlugin), steps);
            var next := Drain(Finalize(h.s.cur).mem, InitStream(GetSize(h.s.cur)));
            && h.written == All(h.batches) + Pending(h)
            && h.seen == Shown(h.batches) && next == Views(UntilNone(Pending(h)))
            && (h.seen + next == Views(h.written) <==> NonZero(h.written))
            && forall i :: 0 <= i < |h.written| ==> CarriesId(h.written[i].items, Nth(1, i))
  {
    hide AllowedRun, AdvanceRun, AllGood, NonZero, Tiled, AtEvent, Drain, CarriesId, Nth, All, Shown, UntilNone;
    StartDelivered(mem0, mem1, hasPlugin);
    RunDelivered(Start(mem0, mem1, hasPlugin), steps);
    var h := AdvanceRun(Start(mem0, mem1, hasPlugin), steps);
    PluginSeesPending(h);
    ShownAll(h.batches);
    ShownOne(Pending(h));
    NonZeroBoth(All(h.batches), Pending(h));
    ViewsAppend(All(h.batches), Pending(h));
  }

  lemma RepliesRead(w: State, replies: seq<Call>)
    requires Complete(w, replies)
    ensures var done := Finalize(Run(w, replies));
            && AtEvent(done.mem, InitStream(GetSize(done)), Written(w, replies), 0)
            && Drain(done.mem, InitStream(GetSize(done))) == Views(UntilNone(Written(w, replies)))
  {
    hide Run, AtEvent, Drain, Views, UntilNone, Put;
    WholeStream(w, replies, GetSize(Run(w, replies)));
    DrainAll(Finalize(Run(w, replies)).mem, InitStream(GetSize(Run(w, replies))), Written(w, replies));
  }

  /** After an update the user interface reads exactly that update's replies, up
      to the first id 0, whatever either side has read before. */
  lemma UiSeesReplies(h: History, replies: seq<Call>, state: DebugState)
    requires Allowed(h, Update(replies, state)) && h.s.hasPlugin
    ensures var s := InternalUpdate(h.s, replies, state);
            var answers := Written(Reset(h.s.prev), replies);
            AtEvent(s.prev.mem, s.reader, answers, 0) && SeenByUi(s) == Views(UntilNone(answers))
  {
    hide Run, AtEvent, Drain, Views, UntilNone, Reset, Finalize, Complete, Written;
    RepliesRead(Reset(h.s.prev), replies);
  }

  // The timer over the states that updates report in turn.
  function TimerAfter(timer: Timer, state: DebugState, states: seq<DebugState>): Timer
    decreases |states|
  {
    if states == [] then timer else TimerAfter(NextTimer(timer, state, states[0]), states[0], states[1..])
  }

  predicate PollsWhileRunning(timer: Timer, state: DebugState) {
    timer.Polling? <==> state.Running?
  }

  function Last(state: DebugState, states: seq<DebugState>): DebugState {
    if states == [] then state else states[|states| - 1]
  }

  /** Over any run of updates the timer polls exactly while the target runs if it
      did so at the start or the state has changed since; a launch that does not
      get the target running leaves it polling until then. */
  lemma {:induction false} TimerFollows(timer: Timer, state: DebugState, states: seq<DebugState>)
    requires !timer.NoTimer?
    ensures PollsWhileRunning(TimerAfter(timer, state, states), Last(state, states)) <==>
            PollsWhileRunning(timer, state) || exists i :: 0 <= i < |states| && states[i] != state
    decreases |states|
  {
    if states != [] {
      var next := NextTimer(timer, state, states[0]);
      TimerFollows(next, states[0], states[1..]);
      if states[0] == state {
        assert forall i :: 1 <= i < |states| ==> states[i] == states[1..][i - 1];
        assert forall i :: 0 <= i < |states[1..]| ==> states[1..][i] == states[i + 1];
      }
    }
  }

  // The states that the updates of a run report.
  function Reported(steps: seq<Step>): seq<DebugState> {
    if steps == [] then []
    else (if steps[0].Update? then [steps[0].state] else []) + Reported(steps[1..])
  }

  lemma {:induction false} RunTimer(h: History, steps: seq<Step>)
    requires Valid(h.s) && AllowedRun(h, steps)
    ensures var r := AdvanceRun(h, steps).s;
            && r.hasPlugin == h.s.hasPlugin
            && r.timer == (if h.s.hasPlugin then TimerAfter(h.s.timer, h.s.state, Reported(steps)) else h.s.timer)
            && r.state == (if h.s.hasPlugin then Last(h.s.state, Reported(steps)) else h.s.state)
    decreases |steps|
  {
    hide Allowed, Run, Finalize, Reset, SeenByPlugin, Pending, NextTimer, BracketedRun;
    if steps != [] {
      OneTimer(h, steps[0]);
      RunTimer(Advance(h, steps[0]), steps[1..]);
      if steps[0].Update? {
        var rest := Reported(steps[1..]);
        assert Reported(steps)[1..] == rest;
        assert Last(h.s.state, Reported(steps)) == Last(steps[0].state, rest);
      } else {
        assert Reported(steps) == Reported(steps[1..]);
      }
    }
  }

  lemma OneTimer(h: History, step: Step)
    requires Allowed(h, step)
    ensures var r := Advance(h, step).s;
            && r.hasPlugin == h.s.hasPlugin
            && (step.Request? || !h.s.hasPlugin ==> r.timer == h.s.timer && r.state == h.s.state)
            && (step.Update? && h.s.hasPlugin ==>
                  r.timer == NextTimer(h.s.timer, h.s.state, step.state) && r.state == step.state)
  {
    hide Run, Finalize, Reset, SeenByPlugin, Pending, NextTimer, BracketedRun, ExtendRun, Complete;
  }

  /** Over every run of requests and updates the session's state is the last one
      reported. Once there is a timer, it polls exactly while that state is
      running if and only if it did so before or another state was reported;
      otherwise it is as it was. Without a plugin neither changes, and no update
      creates a timer. */
  lemma TimerOverRuns(h: History, steps: seq<Step>)
    requires Valid(h.s) && AllowedRun(h, steps)
    ensures var r, states := AdvanceRun(h, steps).s, Reported(steps);
            var changed := exists i :: 0 <= i < |states| && states[i] != h.s.state;
            && (!h.s.hasPlugin ==> r.state == h.s.state && r.timer == h.s.timer)
            && (h.s.hasPlugin ==>
                  && r.state == (if states == [] then h.s.state else states[|states| - 1])
                  && (r.timer.NoTimer? <==> h.s.timer.NoTimer?)
                  && (!changed ==> r.timer == h.s.timer)
                  && (!h.s.timer.NoTimer? ==>
                        ((r.timer.Polling? <==> r.state.Running?) <==>
                         changed || (h.s.timer.Polling? <==> h.s.state.Running?))))
  {
    hide AllowedRun, AdvanceRun, TimerAfter;
    RunTimer(h, steps);
    var states := Reported(steps);
    TimerKept(h.s.timer, h.s.state, states);
    if !h.s.timer.NoTimer? {
      TimerFollows(h.s.timer, h.s.state, states);
    }
  }

  lemma {:induction false} TimerKept(timer: Timer, state: DebugState, states: seq<DebugState>)
    ensures TimerAfter(timer, state, states).NoTimer? <==> timer.NoTimer?
    ensures (forall i :: 0 <= i < |states| ==> states[i] == state) ==> TimerAfter(timer, state, states) == timer
    decreases |states|
  {
    if states != [] {
      TimerKept(NextTimer(timer, state, states[0]), states[0], states[1..]);
    }
  }

  /** A start does nothing while the target runs; otherwise it is one update after
      which the timer polls whatever was reported. */
  lemma LaunchPolls(s: Session, replies: seq<Call>, state: DebugState)
    requires CanUpdate(s, replies)
    ensures var r := Launch(s, replies, state);
            && (s.state.Running? ==> r == s)
            && (!s.state.Running? ==>
                  && r.timer.Polling? && r == InternalUpdate(s, replies, state).(timer := Polling)
                  && r.state == (if s.hasPlugin then state else s.state)
                  && (PollsWhileRunning(r.timer, r.state) <==> s.hasPlugin && state.Running?))
  {
    hide Run, Finalize, Reset;
  }

  /** A reset makes the enumeration repeatable from any point. */
  lemma {:induction false} RewindRepeats(m: bytes, r: Reader, k: nat)
    requires r.data == r.dataStart && r.nextEvent == 0
    ensures Rewind(After(m, r, k)) == r
  {
    if k > 0 {
      RewindRepeats(m, r, k - 1);
    }
  }
}
