/** Walking the events of a stream, and the whole-stream round trip: what a
    well-bracketed run writes is what a reader of the buffer enumerates. */
module Events {
  import opened Bytes
  import opened Format
  import opened BinaryWriter
  import opened BinaryReader
  import opened Tiling
  import opened RoundTrip

  predicate ReadableArrays(items: seq<Item>) {
    forall i :: 0 <= i < |items| && items[i].Arr? ==> ReadableEntries(items[i].entries)
  }

  predicate Good(e: Event) {
    0 <= e.id < TWO_16 && Readable(e.items) && ReadableArrays(e.items)
  }

  predicate AllGood(events: seq<Event>) {
    forall k :: 0 <= k < |events| ==> Good(events[k])
  }

  function End(events: seq<Event>): nat {
    HEADER + |EncEvents(events)|
  }

  /** A reader over this stream that has returned the first k events; the last
      one returned is its scope. The end pointer may be short of the real end
      by less than the smallest event. */
  predicate AtEvent(m: bytes, r: Reader, events: seq<Event>, k: nat)
    requires k <= |events|
  {
    && |m| < TWO_31 && AllGood(events) && Holds(m, HEADER, EncEvents(events))
    && r.dataStart == HEADER && End(events) - 7 < r.dataEnd <= End(events)
    && (k == 0 ==> r.data == HEADER && r.nextEvent == 0)
    && (k > 0 ==> r.nextEvent == End(events[..k]) && InScope(m, r, 0, events[k - 1].items))
  }

  lemma EventAt(m: bytes, p: nat, e: Event)
    requires Holds(m, p, EncEvent(e)) && |m| < TWO_31 && 0 <= e.id < TWO_16
    ensures At(m, p) == TYPE_EVENT && U16At(m, p + 1) == e.id
    ensures ToS32(U32At(m, p + 3)) == |EncEvent(e)|
    ensures Holds(m, p + 7, EncItems(e.items))
  {
    hide EncItems, At, U16At, U32At, BE16, BE32;
    var size := 7 + |EncItems(e.items)|;
    HoldsBound(m, p, EncEvent(e));
    HoldsSplit(m, p, [TYPE_EVENT] + BE16(e.id) + BE32(size), EncItems(e.items));
    HoldsSplit(m, p, [TYPE_EVENT] + BE16(e.id), BE32(size));
    HoldsSplit(m, p, [TYPE_EVENT], BE16(e.id));
    HoldsByte(m, p, [TYPE_EVENT], 0);
    U16Holds(m, p + 1, e.id);
    U32Holds(m, p + 3, size);
  }

  /** One call returns the next event with exactly its items in scope, and 0
      once all are returned. */
  lemma EventStep(m: bytes, r: Reader, events: seq<Event>, k: nat)
    requires k <= |events| && AtEvent(m, r, events, k)
    ensures k < |events| ==>
              GetEvent(m, r).event == events[k].id && AtEvent(m, GetEvent(m, r).r, events, k + 1)
    ensures k == |events| ==> GetEvent(m, r) == EventRead(r, 0)
  {
    hide EncEvent, EncEvents, EncItems, Holds, At, U16At, U32At;
    NoEvents();
    if k < |events| {
      EncEventsAt(m, HEADER, events, k);
      var p := End(events[..k]);
      assert events[..0] == [];
      assert Good(events[k]);
      EventAt(m, p, events[k]);
      HoldsBound(m, p, EncEvent(events[k]));
    } else {
      assert events[..k] == events;
    }
  }

  lemma NoEvents()
    ensures |EncEvents([])| == 0
  {
  }

  // The reader after n more calls.
  function After(m: bytes, r: Reader, n: nat): Reader {
    if n == 0 then r else GetEvent(m, After(m, r, n - 1)).r
  }

  lemma {:induction false} UpTo(m: bytes, r: Reader, events: seq<Event>, k: nat)
    requires AtEvent(m, r, events, 0) && k <= |events|
    ensures AtEvent(m, After(m, r, k), events, k)
  {
    hide AtEvent, GetEvent;
    if k > 0 {
      UpTo(m, r, events, k - 1);
      EventStep(m, After(m, r, k - 1), events, k - 1);
    }
  }

  lemma {:induction false} PastTheLast(m: bytes, r: Reader, events: seq<Event>, k: nat)
    requires AtEvent(m, r, events, 0) && |events| <= k
    ensures After(m, r, k) == After(m, r, |events|)
    decreases k
  {
    hide AtEvent, GetEvent;
    if k > |events| {
      PastTheLast(m, r, events, k - 1);
      UpTo(m, r, events, |events|);
      EventStep(m, After(m, r, |events|), events, |events|);
    }
  }

  /** The k-th call returns the k-th event, for every k, and then always 0. */
  lemma Enumerates(m: bytes, r: Reader, events: seq<Event>, k: nat)
    requires AtEvent(m, r, events, 0)
    ensures k <= |events| ==> AtEvent(m, After(m, r, k), events, k)
    ensures GetEvent(m, After(m, r, k)).event == if k < |events| then events[k].id else 0
  {
    hide AtEvent, GetEvent;
    if k <= |events| {
      UpTo(m, r, events, k);
      EventStep(m, After(m, r, k), events, k);
    } else {
      PastTheLast(m, r, events, k);
      UpTo(m, r, events, |events|);
      EventStep(m, After(m, r, |events|), events, |events|);
    }
  }

  // What a caller sees of an event: its id and the bytes in scope.
  datatype View = View(event: int, scope: bytes)

  function Slice(m: bytes, a: int, b: int): bytes {
    if 0 <= a <= b <= |m| then m[a..b] else []
  }

  /** The loop `while ((event = get_event(reader)))`, at most fuel times. */
  function Collect(m: bytes, r: Reader, fuel: nat): seq<View>
    decreases fuel
  {
    if fuel == 0 then []
    else
      var got := GetEvent(m, r);
      if got.event == 0 then []
      else [View(got.event, Slice(m, got.r.data, got.r.nextEvent))] + Collect(m, got.r, fuel - 1)
  }

  function Views(events: seq<Event>): (vs: seq<View>)
    ensures |vs| == |events|
    ensures forall i :: 0 <= i < |events| ==> vs[i] == ViewOf(events[i])
  {
    seq(|events|, i requires 0 <= i < |events| => ViewOf(events[i]))
  }

  function ViewOf(e: Event): View {
    View(e.id, EncItems(e.items))
  }

  lemma ViewsAppend(a: seq<Event>, b: seq<Event>)
    ensures Views(a + b) == Views(a) + Views(b)
  {
    hide Views, ViewOf;
    var left, right := Views(a + b), Views(a) + Views(b);
    assert |left| == |right|;
    forall i | 0 <= i < |left|
      ensures left[i] == right[i]
    {
      assert (a + b)[i] == if i < |a| then a[i] else b[i - |a|];
    }
  }

  lemma FirstView(events: seq<Event>, k: nat)
    requires k < |events| && events[k].id != 0
    ensures Views(UntilNone(events[k..])) == [ViewOf(events[k])] + Views(UntilNone(events[k + 1..]))
  {
    hide ViewOf;
    assert events[k..][1..] == events[k + 1..];
    var rest := UntilNone(events[k + 1..]);
    assert UntilNone(events[k..]) == [events[k]] + rest;
    ViewsAppend([events[k]], rest);
    assert Views([events[k]]) == [ViewOf(events[k])];
  }

  // The events before the first one with id 0, which looks like the end.
  function UntilNone(events: seq<Event>): (es: seq<Event>)
    ensures es == events <==> forall i :: 0 <= i < |events| ==> events[i].id != 0
    ensures |es| <= |events|
  {
    if events == [] || events[0].id == 0 then [] else [events[0]] + UntilNone(events[1..])
  }

  /** The loop sees exactly the events before the first id 0: all of them if
      and only if no event has that id. */
  lemma {:induction false} CollectAll(m: bytes, r: Reader, events: seq<Event>, k: nat, fuel: nat)
    requires k <= |events| && AtEvent(m, r, events, k) && fuel > |events| - k
    ensures Collect(m, r, fuel) == Views(UntilNone(events[k..]))
    decreases fuel
  {
    hide AtEvent, GetEvent, EncItems, Views;
    EventStep(m, r, events, k);
    if k < |events| && events[k].id != 0 {
      var got := GetEvent(m, r);
      CollectAll(m, got.r, events, k + 1, fuel - 1);
      ScopeBytes(m, got.r, events, k);
      FirstView(events, k);
    } else {
      assert UntilNone(events[k..]) == [];
    }
  }

  lemma ScopeBytes(m: bytes, r: Reader, events: seq<Event>, k: nat)
    requires k < |events| && AtEvent(m, r, events, k + 1)
    ensures Slice(m, r.data, r.nextEvent) == EncItems(events[k].items)
  {
    hide EncItems, EncEvents;
  }

  // What a reader can get back.
  predicate SmallCall(c: Call) {
    c.Write? ==> Small(c.f)
  }

  predicate SmallRun(calls: seq<Call>) {
    forall i :: 0 <= i < |calls| ==> SmallCall(calls[i])
  }

  predicate GoodDoc(doc: Doc) {
    var o := doc.open;
    && doc.nextId < TWO_64 && AllGood(doc.done)
    && (!o.Idle? ==> Good(Event(o.event, o.items)))
    && (o.InArray? || o.InEntry? ==> ReadableEntries(o.entries))
    && (o.InEntry? ==> forall i :: 0 <= i < |o.fields| ==> Small(o.fields[i]))
  }

  lemma ExtendGood(doc: Doc, c: Call)
    requires GoodDoc(doc) && Bracketed(doc.open, c) && SmallCall(c)
    ensures GoodDoc(Extend(doc, c))
  {
    hide EncField;
    if c.EventBegin? {
      RequestRecord(doc.nextId);
    }
  }

  lemma {:induction false} RunGood(doc: Doc, calls: seq<Call>)
    requires GoodDoc(doc) && BracketedRun(doc, calls) && SmallRun(calls)
    ensures GoodDoc(ExtendRun(doc, calls))
    decreases |calls|
  {
    hide GoodDoc, Extend, Bracketed;
    if calls != [] {
      ExtendGood(doc, calls[0]);
      RunGood(Extend(doc, calls[0]), calls[1..]);
    }
  }

  // The writer has been created or reset, and next hands out this request id.
  predicate Fresh(w: State) {
    && Valid(w) && w.data == HEADER
    && !w.writingEvent && !w.writingArray && !w.writingEntry
  }

  function Blank(w: State): Doc {
    Doc([], Idle, w.requestId)
  }

  // A run from an empty writer that closes everything it opens.
  predicate Complete(w: State, calls: seq<Call>) {
    && Fresh(w) && HEADER + TotalCost(calls) <= CAPACITY
    && BracketedRun(Blank(w), calls) && ExtendRun(Blank(w), calls).open.Idle?
    && SmallRun(calls)
  }

  function Written(w: State, calls: seq<Call>): seq<Event>
    requires Complete(w, calls)
  {
    ExtendRun(Blank(w), calls).done
  }

  lemma FreshTiled(w: State)
    requires Fresh(w)
    ensures Tiled(w, Blank(w)) && GoodDoc(Blank(w))
  {
    HoldsNothing(w.mem, HEADER);
    NoEvents();
  }

  // A closed document in memory is what a reader of the finalised buffer meets.
  lemma TiledReads(w: State, doc: Doc, size: int)
    requires Tiled(w, doc) && doc.open.Idle? && AllGood(doc.done)
    requires size == GetSize(w) || size == GetSize(w) + 4
    ensures AtEvent(Finalize(w).mem, InitStream(size), doc.done, 0)
    ensures w.data == End(doc.done)
  {
    hide EncEvents, Holds, Put;
    PutElsewhere(w.mem, 0, BE32(GetSize(w) + 4), HEADER, EncEvents(doc.done));
  }

  /** Whole-stream round trip: after any complete run, a reader set up on the
      finalised buffer, with the size the session passes (4 short) or with the
      size in the header, stands before exactly the written events. */
  lemma WholeStream(w: State, calls: seq<Call>, size: int)
    requires Complete(w, calls)
    requires size == GetSize(Run(w, calls)) || size == GetSize(Run(w, calls)) + 4
    ensures AtEvent(Finalize(Run(w, calls)).mem, InitStream(size), Written(w, calls), 0)
    ensures Run(w, calls).data == End(Written(w, calls))
  {
    hide GoodDoc, Tiled, AtEvent;
    FreshTiled(w);
    RunKeeps(w, Blank(w), calls);
    RunGood(Blank(w), calls);
    GoodDone(ExtendRun(Blank(w), calls));
    TiledReads(Run(w, calls), ExtendRun(Blank(w), calls), size);
  }

  lemma GoodDone(doc: Doc)
    requires GoodDoc(doc)
    ensures AllGood(doc.done)
  {
  }

  // Everything a plugin or view can ask of one event, answered as written.
  predicate Findable(m: bytes, r: Reader, it: Iterator, items: seq<Item>, id: CString, target: NumType) {
    && FindsValue(m, r, it, items, id, target)
    && FindsString(m, r, it, items, id)
    && FindsData(m, r, it, items, id)
    && FindsArray(m, r, it, items, id)
  }

  lemma FindableInScope(m: bytes, r: Reader, it: Iterator, items: seq<Item>, id: CString, target: NumType)
    requires InScope(m, r, it, items) && r.dataStart == HEADER
    ensures Findable(m, r, it, items, id, target)
  {
    FindsValueAlways(m, r, it, items, id, target);
    FindsStringAlways(m, r, it, items, id);
    FindsDataAlways(m, r, it, items, id);
    FindsArrayAlways(m, r, it, items, id);
  }

  // The array a find of this name in the event meets.
  predicate HasArray(e: Event, name: CString) {
    var i := First(e.items, name, 0); i < |e.items| && e.items[i].Arr?
  }

  function Entries(e: Event, name: CString): seq<seq<Field>>
    requires HasArray(e, name)
  {
    e.items[First(e.items, name, 0)].entries
  }

  /** After any complete run, for every k and every id and target type: the
      k-th event read is the k-th written, every find in it is answered from
      its items, and an array found stands before its written entries. */
  lemma EveryFind(w: State, calls: seq<Call>, k: nat, id: CString, target: NumType)
    requires Complete(w, calls) && k < |Written(w, calls)|
    ensures var m, e := Finalize(Run(w, calls)).mem, Written(w, calls)[k];
            var r := After(m, InitStream(GetSize(Run(w, calls))), k);
            && GetEvent(m, r).event == e.id && Findable(m, GetEvent(m, r).r, 0, e.items, id, target)
            && (HasArray(e, id) ==> StandsBefore(m, GetEvent(m, r).r, e, id))
  {
    hide AtEvent, GetEvent, Run, Findable, InScope, HasArray, StandsBefore;
    WholeStream(w, calls, GetSize(Run(w, calls)));
    var m, events := Finalize(Run(w, calls)).mem, Written(w, calls);
    var r0 := InitStream(GetSize(Run(w, calls)));
    UpTo(m, r0, events, k);
    EventStep(m, After(m, r0, k), events, k);
    ScopeOf(m, GetEvent(m, After(m, r0, k)).r, events, k + 1);
    FindableInScope(m, GetEvent(m, After(m, r0, k)).r, 0, events[k].items, id, target);
    if HasArray(events[k], id) {
      WrittenReadable(w, calls, k);
      ArrayFound(m, GetEvent(m, After(m, r0, k)).r, events[k], id, target);
    }
  }

  lemma WrittenReadable(w: State, calls: seq<Call>, k: nat)
    requires Complete(w, calls) && k < |Written(w, calls)|
    ensures ReadableArrays(Written(w, calls)[k].items)
  {
    hide Run, Holds, EncEvents;
    WholeStream(w, calls, GetSize(Run(w, calls)));
  }

  // The array has been found and the iterator is before its first entry.
  predicate StandsBefore(m: bytes, r: Reader, e: Event, name: CString)
    requires HasArray(e, name)
  {
    && Searchable(m, r, 0) && FindArray(m, r, name, 0).status == OK + TYPE_ARRAY
    && Iterating(m, r, FindArray(m, r, name, 0).it, EntriesStart(m, r, 0, name), Entries(e, name), 0)
  }

  lemma ArrayFound(m: bytes, r: Reader, e: Event, name: CString, target: NumType)
    requires HasArray(e, name) && ReadableArrays(e.items) && Findable(m, r, 0, e.items, name, target)
    ensures StandsBefore(m, r, e, name)
  {
    hide FindArray, Searchable, Iterating, EntriesStart, ReadableEntries, FindsValue, FindsString, FindsData;
  }

  lemma ScopeOf(m: bytes, r: Reader, events: seq<Event>, k: nat)
    requires 0 < k <= |events| && AtEvent(m, r, events, k)
    ensures InScope(m, r, 0, events[k - 1].items) && r.dataStart == HEADER
  {
  }

  // The iterator after n steps.
  function AfterEntries(m: bytes, r: Reader, it: Iterator, n: nat): Iterator {
    if n == 0 then it else NextEntry(m, r, AfterEntries(m, r, it, n - 1)).it
  }

  /** Steps over an array found in any scope: the k-th step reports the k-th
      entry's field count and answers every find from that entry alone; the
      step after the last reports 0. */
  lemma {:induction false} EveryEntry(m: bytes, r: Reader, it: Iterator, q: nat, es: seq<seq<Field>>, k: nat,
                                      id: CString, target: NumType)
    requires Iterating(m, r, it, q, es, 0) && k <= |es|
    ensures Iterating(m, r, AfterEntries(m, r, it, k), q, es, k)
    ensures NextEntry(m, r, AfterEntries(m, r, it, k)).entries == if k < |es| then |es[k]| % TWO_16 else 0
    ensures k > 0 ==> Findable(m, r, AfterEntries(m, r, it, k), AsItems(es[k - 1]), id, target)
  {
    hide Iterating, NextEntry, Findable, AsItems;
    if k > 0 {
      EveryEntry(m, r, it, q, es, k - 1, id, target);
      NextEntryStep(m, r, AfterEntries(m, r, it, k - 1), q, es, k - 1);
      EntryScope(m, r, AfterEntries(m, r, it, k), q, es, k);
      FindableInScope(m, r, AfterEntries(m, r, it, k), AsItems(es[k - 1]), id, target);
    }
    NextEntryStep(m, r, AfterEntries(m, r, it, k), q, es, k);
  }

  lemma EntryScope(m: bytes, r: Reader, it: Iterator, q: nat, es: seq<seq<Field>>, k: nat)
    requires 0 < k <= |es| && Iterating(m, r, it, q, es, k)
    ensures InScope(m, r, it, AsItems(es[k - 1])) && r.dataStart == HEADER
  {
  }

  /** The nested half of the round trip: after any complete run, reading on to
      any event, finding any of its arrays and stepping on to any entry gives
      that entry's field count, every find there is answered from that written
      entry alone, and the step after the last gives 0. */
  lemma EveryNestedFind(w: State, calls: seq<Call>, k: nat, name: CString, j: nat, id: CString, target: NumType)
    requires Complete(w, calls) && k < |Written(w, calls)|
    requires HasArray(Written(w, calls)[k], name) && j < |Entries(Written(w, calls)[k], name)|
    ensures var m, es := Finalize(Run(w, calls)).mem, Entries(Written(w, calls)[k], name);
            var r := GetEvent(m, After(m, InitStream(GetSize(Run(w, calls))), k)).r;
            && Searchable(m, r, 0)
            && var got := FindArray(m, r, name, 0);
               var next := NextEntry(m, r, AfterEntries(m, r, got.it, j));
               && got.status == OK + TYPE_ARRAY
               && next.entries == |es[j]| % TWO_16
               && Findable(m, r, next.it, AsItems(es[j]), id, target)
               && NextEntry(m, r, AfterEntries(m, r, got.it, |es|)).entries == 0
  {
    hide AtEvent, GetEvent, Run, Findable, AsItems, NextEntry, Iterating, FindArray, Searchable, HasArray, Entries;
    var m, e := Finalize(Run(w, calls)).mem, Written(w, calls)[k];
    var r := GetEvent(m, After(m, InitStream(GetSize(Run(w, calls))), k)).r;
    EveryFind(w, calls, k, name, target);
    EntriesFollow(m, r, FindArray(m, r, name, 0).it, EntriesStart(m, r, 0, name), Entries(e, name), j, id, target);
  }

  // One step after j, and one after all.
  lemma EntriesFollow(m: bytes, r: Reader, it: Iterator, q: int, es: seq<seq<Field>>, j: nat, id: CString,
                      target: NumType)
    requires Iterating(m, r, it, q, es, 0) && j < |es|
    ensures var next := NextEntry(m, r, AfterEntries(m, r, it, j));
            && next.entries == |es[j]| % TWO_16 && Findable(m, r, next.it, AsItems(es[j]), id, target)
            && NextEntry(m, r, AfterEntries(m, r, it, |es|)).entries == 0
  {
    hide Findable, AsItems, NextEntry, InScope, Holds, EncEntries;
    assert q > 4;
    hide Iterating;
    EveryEntry(m, r, it, q, es, j, id, target);
    EveryEntry(m, r, it, q, es, j + 1, id, target);
    EveryEntry(m, r, it, q, es, |es|, id, target);
  }

  // The entries before the first whose count looks like the terminator's.
  function Visible(es: seq<seq<Field>>): (n: nat)
    ensures n <= |es|
    ensures n == |es| <==> forall i :: 0 <= i < |es| ==> |es[i]| % TWO_16 != 0
  {
    if es == [] || |es[0]| % TWO_16 == 0 then 0 else 1 + Visible(es[1..])
  }

  // The loop `while (get_next_entry(reader, &it))`, at most fuel times: the
  // iterators its body sees.
  function EntryLoop(m: bytes, r: Reader, it: Iterator, fuel: nat): seq<Iterator>
    decreases fuel
  {
    if fuel == 0 then []
    else
      var next := NextEntry(m, r, it);
      if next.entries == 0 then [] else [next.it] + EntryLoop(m, r, next.it, fuel - 1)
  }

  /** The loop visits the entries in order up to the first with 0 fields
      modulo 65536: every entry if and only if there is none. */
  lemma {:induction false} EntryLoopAll(m: bytes, r: Reader, it: Iterator, q: nat, es: seq<seq<Field>>, k: nat,
                                        fuel: nat)
    requires k <= |es| && Iterating(m, r, it, q, es, k) && fuel > |es| - k
    ensures var its := EntryLoop(m, r, it, fuel);
            |its| == Visible(es[k..]) && forall i :: 0 <= i < |its| ==> InScope(m, r, its[i], AsItems(es[k + i]))
    decreases fuel
  {
    hide Iterating, NextEntry, InScope, AsItems;
    NextEntryStep(m, r, it, q, es, k);
    if k < |es| {
      assert es[k..][1..] == es[k + 1..];
      if |es[k]| % TWO_16 != 0 {
        var next := NextEntry(m, r, it).it;
        EntryLoopAll(m, r, next, q, es, k + 1, fuel - 1);
        EntryScope(m, r, next, q, es, k + 1);
      }
    }
  }
}
