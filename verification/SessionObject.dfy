/** The session as the source has it: two writers and one reader, updated in
    place, proved against module Session. */
module SessionObject {
  import opened Backend
  import opened Bytes
  import opened Format
  import opened BinaryWriter
  import R = BinaryReader
  import opened Tiling
  import opened RoundTrip
  import opened Events
  import S = Session
  import opened WriterObject
  import ReaderObject

  // "data"
  const DATA: CString := [100, 97, 116, 97]

  // The event carries a payload in a data field.
  predicate HasMessage(e: Event) {
    var j := First(e.items, DATA, 0);
    j < |e.items| && e.items[j].One? && e.items[j].f.Blob?
  }

  function Message(e: Event): bytes
    requires HasMessage(e)
  {
    e.items[First(e.items, DATA, 0)].f.d
  }

  // The source goes on with the payload before when there is none.
  function MessageOr(e: Event, stale: bytes): bytes {
    if HasMessage(e) then Message(e) else stale
  }

  datatype Location = NoLocation | Located(message: bytes)

  // The first wanted message among the events before any id 0.
  function Locate(events: seq<Event>, stale: bytes, wanted: bytes -> bool): Location {
    if events == [] || events[0].id == 0 then NoLocation
    else
      var message := MessageOr(events[0], stale);
      if wanted(message) then Located(message) else Locate(events[1..], message, wanted)
  }

  // A payload written in this event is wanted.
  predicate Wants(e: Event, wanted: bytes -> bool) {
    HasMessage(e) && wanted(Message(e))
  }

  // What ought to be found: the first wanted payload that was written.
  function FirstOf(events: seq<Event>, wanted: bytes -> bool): Location {
    if events == [] || events[0].id == 0 then NoLocation
    else if Wants(events[0], wanted) then Located(Message(events[0]))
    else FirstOf(events[1..], wanted)
  }

  predicate NoneWanted(events: seq<Event>, k: nat, wanted: bytes -> bool)
    requires k <= |events|
  {
    forall i :: 0 <= i < k ==> !Wants(events[i], wanted)
  }

  // Event k is the first with a wanted payload.
  predicate FirstWanted(events: seq<Event>, k: nat, message: bytes, wanted: bytes -> bool) {
    k < |events| && Wants(events[k], wanted) && Message(events[k]) == message && NoneWanted(events, k, wanted)
  }

  /** FirstOf is the payload of the first event seen with a wanted one, and none if
      and only if there is none. */
  lemma {:induction false} FirstIsFirst(events: seq<Event>, wanted: bytes -> bool)
    ensures var seen, found := UntilNone(events), FirstOf(events, wanted);
            && (found.NoLocation? <==> NoneWanted(seen, |seen|, wanted))
            && (found.Located? ==> exists k: nat :: FirstWanted(seen, k, found.message, wanted))
  {
    hide Wants, HasMessage, Message;
    if events != [] && events[0].id != 0 {
      var rest, found := UntilNone(events[1..]), FirstOf(events, wanted);
      FirstIsFirst(events[1..], wanted);
      assert UntilNone(events) == [events[0]] + rest;
      if Wants(events[0], wanted) {
        FoundHere(events[0], rest, wanted);
        assert FirstWanted(UntilNone(events), 0, found.message, wanted);
      } else if found.NoLocation? {
        WantedLater(events[0], rest, |rest|, wanted);
      } else {
        var k: nat :| FirstWanted(rest, k, found.message, wanted);
        WantedLater(events[0], rest, k, wanted);
        assert FirstWanted(UntilNone(events), k + 1, found.message, wanted);
      }
    }
  }

  lemma FoundHere(e: Event, rest: seq<Event>, wanted: bytes -> bool)
    requires Wants(e, wanted)
    ensures FirstWanted([e] + rest, 0, Message(e), wanted) && !NoneWanted([e] + rest, |[e] + rest|, wanted)
  {
    hide HasMessage;
    assert ([e] + rest)[0] == e;
  }

  lemma WantedLater(e: Event, rest: seq<Event>, k: nat, wanted: bytes -> bool)
    requires k <= |rest| && !Wants(e, wanted) && NoneWanted(rest, k, wanted)
    ensures NoneWanted([e] + rest, k + 1, wanted)
    ensures k < |rest| ==> ([e] + rest)[k + 1] == rest[k]
  {
    hide Wants;
    assert forall i :: 1 <= i <= |rest| ==> ([e] + rest)[i] == rest[i - 1];
  }

  /** The source finds that payload, whichever events have one, unless the first
      event has none and the uninitialised pointer happens to show something
      wanted; then it reports that. */
  lemma LocatesFirst(events: seq<Event>, stale: bytes, wanted: bytes -> bool)
    ensures var misled := events != [] && events[0].id != 0 && !HasMessage(events[0]) && wanted(stale);
            && (misled ==> Locate(events, stale, wanted) == Located(stale))
            && (Locate(events, stale, wanted) == FirstOf(events, wanted) <==>
                !misled || FirstOf(events, wanted) == Located(stale))
  {
    hide HasMessage, Message;
    if events != [] && events[0].id != 0 {
      if HasMessage(events[0]) {
        var message := Message(events[0]);
        if !wanted(message) {
          NotMisled(events[1..], message, wanted);
        }
      } else if !wanted(stale) {
        NotMisled(events[1..], stale, wanted);
      }
    }
  }

  // A payload already judged not wanted misleads nobody.
  lemma {:induction false} NotMisled(events: seq<Event>, stale: bytes, wanted: bytes -> bool)
    requires !wanted(stale)
    ensures Locate(events, stale, wanted) == FirstOf(events, wanted)
  {
    hide HasMessage, Message;
    if events != [] && events[0].id != 0 && !wanted(MessageOr(events[0], stale)) {
      NotMisled(events[1..], MessageOr(events[0], stale), wanted);
    }
  }

  /** A state event of a backend, whose fields are plain, is enough. */
  lemma PlainEventMisleads(request: nat, stale: bytes)
    ensures var e := Event(15, [RequestItem(request), One(Num([97], NumType.U16, 0))]);
            Locate([e], stale, _ => true) == Located(stale) && FirstOf([e], _ => true) == NoLocation
  {
    var items := [RequestItem(request), One(Num([97], NumType.U16, 0))];
    assert items[0].Id() == REQUEST_ID && items[1].Id() == [97];
    assert |REQUEST_ID| == 11 && |DATA| == 4;
    assert First(items, DATA, 0) == First(items, DATA, 1) == First(items, DATA, 2) == 2;
    assert FirstOf([Event(15, items)][1..], _ => true) == NoLocation;
  }

  // The next event's header lies in memory.
  lemma HeaderInside(m: bytes, events: seq<Event>, k: nat)
    requires k <= |events| && Holds(m, HEADER, EncEvents(events))
    ensures if k < |events| then End(events[..k]) + 7 <= |m| else End(events[..k]) == End(events)
    ensures k == 0 ==> End(events[..k]) == HEADER
  {
    hide EncEvent, EncEvents, Holds;
    NoEvents();
    assert events[..0] == [];
    if k < |events| {
      EncEventsAt(m, HEADER, events, k);
      HoldsBound(m, End(events[..k]), EncEvent(events[k]));
    } else {
      assert events[..k] == events;
    }
  }

  // Where a reader before these events may read.
  lemma EventHeaderInside(m: bytes, r: R.Reader, events: seq<Event>, k: nat)
    requires k <= |events| && AtEvent(m, r, events, k)
    ensures r.nextEvent < r.dataEnd ==>
              var p := if r.nextEvent == 0 then r.data else r.nextEvent;
              p < r.dataEnd ==> 0 <= p && p + 7 <= |m|
  {
    hide EncEvents, Holds, AllGood, InScope, End;
    HeaderInside(m, events, k);
    EndIsPositive(events[..k]);
  }

  lemma EndIsPositive(events: seq<Event>)
    ensures End(events) >= HEADER
  {
  }

  class BackendSession {
    const currentWriter: Writer
    const prevWriter: Writer
    const reader: ReaderObject.Reader
    var hasPlugin: bool
    var debugState: DebugState
    var timer: S.Timer

    ghost predicate WritersValid()
      reads this, currentWriter, prevWriter, currentWriter.buffer, prevWriter.buffer
    {
      && currentWriter != prevWriter && currentWriter.buffer != prevWriter.buffer
      && BinaryWriter.Valid(currentWriter.Abs()) && BinaryWriter.Valid(prevWriter.Abs())
    }

    ghost predicate Valid()
      reads this, currentWriter, prevWriter, reader, currentWriter.buffer, prevWriter.buffer
    {
      && WritersValid()
      && (reader.stream == prevWriter.buffer || (reader.stream == null && reader.Abs() == R.NO_STREAM))
    }

    ghost function Abs(): S.Session
      reads this, currentWriter, prevWriter, reader, currentWriter.buffer, prevWriter.buffer
    {
      S.Session(currentWriter.Abs(), prevWriter.Abs(), reader.Abs(), hasPlugin, debugState, timer)
    }

    constructor (plugin: bool)
      ensures Valid() && fresh(currentWriter) && fresh(prevWriter) && fresh(reader)
      ensures fresh(currentWriter.buffer) && fresh(prevWriter.buffer)
      ensures Abs() == S.Start(currentWriter.buffer[..], prevWriter.buffer[..], plugin).s
    {
      currentWriter := new Writer();
      prevWriter := new Writer();
      reader := new ReaderObject.Reader();
      hasPlugin, debugState, timer := plugin, NoTarget, S.NoTimer;
    }

    method WriteRequest(calls: seq<Call>)
      requires Valid() && currentWriter.data + TotalCost(calls) <= CAPACITY
      modifies currentWriter, currentWriter.buffer
      ensures Valid() && Abs() == S.WriteRequest(old(Abs()), calls)
    {
      WriteAll(currentWriter, calls);
    }

    // get_event on a reader that has returned the first k events.
    static method NextEvent(reader: ReaderObject.Reader, ghost events: seq<Event>, ghost k: nat) returns (event: int)
      requires k <= |events| && AtEvent(reader.Mem(), reader.Abs(), events, k)
      modifies reader
      ensures reader.stream == old(reader.stream) && R.Rewind(reader.Abs()) == R.Rewind(old(reader.Abs()))
      ensures event != 0 ==> k < |events| && event == events[k].id && AtEvent(reader.Mem(), reader.Abs(), events, k + 1)
      ensures event == 0 ==> k == |events| || events[k].id == 0
    {
      hide AtEvent, R.GetEvent;
      EventHeaderInside(reader.Mem(), reader.Abs(), events, k);
      EventStep(reader.Mem(), reader.Abs(), events, k);
      RewindSame(reader.Mem(), reader.Abs());
      event := reader.GetEvent();
    }

    // while ((event = get_event(reader))) ...
    static method Drain(reader: ReaderObject.Reader, ghost events: seq<Event>) returns (seen: seq<View>)
      requires AtEvent(reader.Mem(), reader.Abs(), events, 0)
      modifies reader
      ensures reader.stream == old(reader.stream)
      ensures seen == Views(UntilNone(events))
    {
      hide AtEvent, Views, UntilNone;
      seen := [];
      ghost var k := 0;
      assert events[0..] == events;
      var event := NextEvent(reader, events, k);
      while event != 0
        invariant reader.stream == old(reader.stream)
        invariant k <= |events|
        invariant event != 0 ==> k < |events| && event == events[k].id
        invariant event != 0 ==> AtEvent(reader.Mem(), reader.Abs(), events, k + 1)
        invariant event == 0 ==> k == |events| || events[k].id == 0
        invariant seen + Views(UntilNone(events[k..])) == Views(UntilNone(events))
        decreases |events| - k
      {
        ScopeInside(reader.Mem(), reader.Abs(), events, k);
        seen := seen + [View(event, reader.stream[reader.data..reader.nextEvent])];
        FirstView(events, k);
        k := k + 1;
        event := NextEvent(reader, events, k);
      }
      NoMoreViews(events, k);
    }

    // The plugin's side of an update: drain the requests, write the replies.
    method PluginUpdate(replies: seq<Call>, ghost pending: seq<Event>) returns (seen: seq<View>)
      requires WritersValid() && reader.stream == currentWriter.buffer
      requires AtEvent(reader.Mem(), reader.Abs(), pending, 0)
      requires prevWriter.data + TotalCost(replies) <= CAPACITY
      modifies reader, prevWriter, prevWriter.buffer
      ensures WritersValid() && reader.stream == currentWriter.buffer
      ensures currentWriter.Abs() == old(currentWriter.Abs())
      ensures prevWriter.Abs() == Run(old(prevWriter.Abs()), replies)
      ensures seen == Views(UntilNone(pending))
    {
      seen := Drain(reader, pending);
      WriteAll(prevWriter, replies);
    }

    // First half of an update: the requests go to the plugin.
    method Ask(replies: seq<Call>, ghost pending: seq<Event>) returns (seen: seq<View>)
      requires Valid() && HEADER + TotalCost(replies) <= CAPACITY
      requires Tiled(currentWriter.Abs(), Doc(pending, Idle, currentWriter.requestId)) && AllGood(pending)
      modifies prevWriter, reader, currentWriter.buffer, prevWriter.buffer
      ensures WritersValid()
      ensures currentWriter.Abs() == Finalize(old(currentWriter.Abs()))
      ensures prevWriter.Abs() == Run(Reset(old(prevWriter.Abs())), replies)
      ensures seen == Views(UntilNone(pending))
    {
      hide Tiled, AtEvent, AllGood, Run, Finalize, Reset, Views, UntilNone, End, TotalCost;
      TiledReads(currentWriter.Abs(), Doc(pending, Idle, currentWriter.requestId), GetSize(currentWriter.Abs()));
      currentWriter.Finish();
      var requestSize := currentWriter.Size();
      reader.Reset();
      reader.InitStream(currentWriter.buffer, requestSize);
      prevWriter.Clear();
      seen := PluginUpdate(replies, pending);
    }

    // Second half: the reader turns to the replies, the requests are dropped.
    method Listen()
      requires WritersValid()
      modifies currentWriter, reader, prevWriter.buffer
      ensures Valid() && reader.stream == prevWriter.buffer
      ensures currentWriter.Abs() == Reset(old(currentWriter.Abs()))
      ensures prevWriter.Abs() == Finalize(old(prevWriter.Abs()))
      ensures reader.Abs() == R.Rewind(R.InitStream(GetSize(prevWriter.Abs())))
    {
      hide Finalize, Reset;
      prevWriter.Finish();
      reader.InitStream(prevWriter.buffer, prevWriter.Size());
      reader.Reset();
      currentWriter.Clear();
    }

    /** One update. The plugin answers with `replies` and `state`; `seen` is
        what it found, the requests written since the last update. When it has
        changed to a state other than running, `location` is the message
        program_counter_changed is called for. */
    method InternalUpdate(replies: seq<Call>, state: DebugState, wanted: bytes -> bool, stale: bytes,
                          ghost pending: seq<Event>)
      returns (seen: seq<View>, location: Location)
      requires Valid() && Complete(Reset(prevWriter.Abs()), replies)
      requires Tiled(currentWriter.Abs(), Doc(pending, Idle, currentWriter.requestId)) && AllGood(pending)
      modifies this, currentWriter, prevWriter, reader, currentWriter.buffer, prevWriter.buffer
      ensures Valid() && Abs() == S.InternalUpdate(old(Abs()), replies, state)
      ensures seen == if old(hasPlugin) then Views(UntilNone(pending)) else []
      ensures var stopped := old(hasPlugin) && state != old(debugState) && !state.Running?;
              location == if !stopped then NoLocation
                          else Locate(Written(Reset(old(prevWriter.Abs())), replies), stale, wanted)
    {
      hide Tiled, AtEvent, AllGood, Run, Finalize, Reset, Views, UntilNone, Complete, Written, Locate;
      location := NoLocation;
      if !hasPlugin {
        return [], location;
      }
      ghost var answers := Written(Reset(prevWriter.Abs()), replies);
      S.RepliesRead(Reset(prevWriter.Abs()), replies);
      RepliesFit(Reset(prevWriter.Abs()), replies);
      seen := Ask(replies, pending);
      Listen();
      if state != debugState {
        debugState := state;
        if !timer.NoTimer? {
          timer := if state.Running? then S.Polling else S.Stopped;
        }
        if !state.Running? {
          location := UpdateCurrentPc(wanted, stale, answers);
        }
      }
    }

    // start
    method Launch(replies: seq<Call>, state: DebugState, wanted: bytes -> bool, stale: bytes,
                  ghost pending: seq<Event>)
      returns (seen: seq<View>, location: Location)
      requires Valid() && Complete(Reset(prevWriter.Abs()), replies)
      requires Tiled(currentWriter.Abs(), Doc(pending, Idle, currentWriter.requestId)) && AllGood(pending)
      modifies this, currentWriter, prevWriter, reader, currentWriter.buffer, prevWriter.buffer
      ensures Valid() && Abs() == S.Launch(old(Abs()), replies, state)
    {
      hide Tiled, AllGood, Complete, Reset, Locate, Written, Views, UntilNone, S.InternalUpdate;
      seen, location := [], NoLocation;
      if debugState == Running {
        return;
      }
      RepliesFit(Reset(prevWriter.Abs()), replies);
      seen, location := InternalUpdate(replies, state, wanted, stale, pending);
      timer := S.Polling;
    }

    // find_data(reader, &data, &size, "data", 0) in the k-th event, with what
    // data pointed to before.
    static method ReadMessage(reader: ReaderObject.Reader, stale: bytes, ghost events: seq<Event>, ghost k: nat)
      returns (data: bytes)
      requires k < |events| && AtEvent(reader.Mem(), reader.Abs(), events, k + 1)
      ensures data == MessageOr(events[k], stale)
    {
      hide AtEvent, HasMessage, Message, R.FindData, R.Searchable;
      MessageInScope(reader.Mem(), reader.Abs(), events, k);
      var got := reader.FindData(DATA, 0);
      if got.status != R.OK + TYPE_DATA {
        return stale;
      }
      data := reader.stream[got.at..got.at + got.size];
    }

    /** Looks through the replies for the first wanted message, and leaves the
        reader rewound for whoever asks next. `stale` is what the data pointer
        starts with. */
    method UpdateCurrentPc(wanted: bytes -> bool, stale: bytes, ghost answers: seq<Event>) returns (location: Location)
      requires Valid() && AtEvent(reader.Mem(), R.Rewind(reader.Abs()), answers, 0)
      modifies reader
      ensures reader.stream == old(reader.stream) && reader.Abs() == R.Rewind(old(reader.Abs()))
      ensures location == Locate(answers, stale, wanted)
    {
      hide AtEvent, R.GetEvent, MessageOr, BinaryWriter.Valid;
      location := NoLocation;
      reader.Reset();
      ghost var start := reader.Abs();
      ghost var k := 0;
      var data := stale;
      assert answers[0..] == answers;
      var event := NextEvent(reader, answers, k);
      while event != 0
        invariant reader.stream == old(reader.stream) && R.Rewind(reader.Abs()) == start
        invariant k <= |answers| && location.NoLocation?
        invariant event != 0 ==> k < |answers| && answers[k].id != 0
        invariant event != 0 ==> AtEvent(reader.Mem(), reader.Abs(), answers, k + 1)
        invariant event == 0 ==> k == |answers| || answers[k].id == 0
        invariant Locate(answers, stale, wanted) == Locate(answers[k..], data, wanted)
        decreases |answers| - k
      {
        data := ReadMessage(reader, data, answers, k);
        assert answers[k..][1..] == answers[k + 1..];
        if wanted(data) {
          location := Located(data);
          break;
        }
        k := k + 1;
        event := NextEvent(reader, answers, k);
      }
      reader.Reset();
    }
  }

  lemma RepliesFit(w: State, replies: seq<Call>)
    requires Complete(w, replies)
    ensures HEADER + TotalCost(replies) <= CAPACITY
  {
  }

  lemma RewindSame(m: bytes, r: R.Reader)
    ensures R.Rewind(R.GetEvent(m, r).r) == R.Rewind(r)
  {
  }

  // The data field of the event just read, in memory.
  lemma MessageInScope(m: bytes, r: R.Reader, events: seq<Event>, k: nat)
    requires k < |events| && AtEvent(m, r, events, k + 1)
    ensures R.Searchable(m, r, 0)
    ensures var got := R.FindData(m, r, DATA, 0);
            && (got.status == R.OK + TYPE_DATA <==> HasMessage(events[k]))
            && (HasMessage(events[k]) ==>
                  && 0 < got.at && 0 <= got.size && got.at + got.size <= |m|
                  && m[got.at..got.at + got.size] == Message(events[k]))
  {
    hide EncItems, EncEvents;
    FindsDataAlways(m, r, 0, events[k].items, DATA);
  }

  lemma ScopeInside(m: bytes, r: R.Reader, events: seq<Event>, k: nat)
    requires k < |events| && AtEvent(m, r, events, k + 1)
    ensures 0 < r.data <= r.nextEvent <= |m| && m[r.data..r.nextEvent] == EncItems(events[k].items)
  {
    hide EncItems, EncEvents;
  }

  lemma NoMoreViews(events: seq<Event>, k: nat)
    requires k <= |events| && (k == |events| || events[k].id == 0)
    ensures Views(UntilNone(events[k..])) == []
  {
  }
}
