/** The calls that write given events, the other way round from the writer's
    tiling: every stream of events is written by some run. */
module Serialise {
  import opened Bytes
  import opened Format
  import opened BinaryWriter
  import opened Tiling
  import opened RoundTrip
  import opened Events
  import Requests

  function FieldCalls(fs: seq<Field>): seq<Call> {
    if fs == [] then [] else FieldCalls(fs[..|fs| - 1]) + [Write(fs[|fs| - 1])]
  }

  function EntryCalls(es: seq<seq<Field>>): seq<Call> {
    if es == [] then []
    else EntryCalls(es[..|es| - 1]) + ([EntryBegin] + FieldCalls(es[|es| - 1]) + [EntryEnd])
  }

  function ItemCalls(items: seq<Item>): seq<Call> {
    if items == [] then []
    else
      var n := |items| - 1;
      ItemCalls(items[..n]) + OneItem(items[n])
  }

  function OneItem(i: Item): seq<Call> {
    match i
    case One(f) => [Write(f)]
    case Arr(name, es) => [ArrayBegin(name)] + EntryCalls(es) + [ArrayEnd]
  }

  // The items of each event, without the request id the writer puts first.
  function EventCalls(events: seq<Event>): seq<Call> {
    if events == [] then []
    else
      var e := events[|events| - 1];
      EventCalls(events[..|events| - 1]) + ([EventBegin(e.id)] + ItemCalls(e.items) + [EventEnd])
  }

  lemma {:induction false} RunThen(doc: Doc, a: seq<Call>, b: seq<Call>)
    requires BracketedRun(doc, a) && BracketedRun(ExtendRun(doc, a), b)
    ensures BracketedRun(doc, a + b) && ExtendRun(doc, a + b) == ExtendRun(ExtendRun(doc, a), b)
    decreases |a|
  {
    hide Extend, Bracketed;
    if a == [] {
      assert a + b == b;
    } else {
      assert (a + b)[0] == a[0] && (a + b)[1..] == a[1..] + b;
      RunThen(Extend(doc, a[0]), a[1..], b);
    }
  }

  lemma RunOne(doc: Doc, c: Call)
    requires Bracketed(doc.open, c)
    ensures BracketedRun(doc, [c]) && ExtendRun(doc, [c]) == Extend(doc, c)
  {
    hide Extend, Bracketed;
    assert ExtendRun(Extend(doc, c), []) == Extend(doc, c);
  }

  // A call, a run and a call.
  lemma RunBetween(doc: Doc, c: Call, a: seq<Call>, d: Call)
    requires Bracketed(doc.open, c) && BracketedRun(Extend(doc, c), a)
    requires Bracketed(ExtendRun(Extend(doc, c), a).open, d)
    ensures BracketedRun(doc, [c] + a + [d])
    ensures ExtendRun(doc, [c] + a + [d]) == Extend(ExtendRun(Extend(doc, c), a), d)
  {
    hide Extend, Bracketed, BracketedRun, ExtendRun;
    RunOne(doc, c);
    RunThen(doc, [c], a);
    RunOne(ExtendRun(Extend(doc, c), a), d);
    RunThen(doc, [c] + a, [d]);
  }

  // A document with more in its innermost open scope.
  function MoreFields(doc: Doc, fs: seq<Field>): Doc
    requires doc.open.InEntry?
  {
    var o := doc.open;
    doc.(open := InEntry(o.event, o.items, o.name, o.entries, o.fields + fs))
  }

  function MoreEntries(doc: Doc, es: seq<seq<Field>>): Doc
    requires doc.open.InArray?
  {
    var o := doc.open;
    doc.(open := InArray(o.event, o.items, o.name, o.entries + es))
  }

  function MoreItems(doc: Doc, items: seq<Item>): Doc
    requires doc.open.InEvent?
  {
    var o := doc.open;
    doc.(open := InEvent(o.event, o.items + items))
  }

  predicate StorableFields(fs: seq<Field>) {
    forall i :: 0 <= i < |fs| ==> Storable(fs[i])
  }

  predicate StorableItem(i: Item) {
    match i
    case One(f) => Storable(f)
    case Arr(_, es) => forall k :: 0 <= k < |es| ==> StorableFields(es[k])
  }

  predicate StorableEvent(e: Event) {
    0 <= e.id < TWO_16 && forall i :: 0 <= i < |e.items| ==> StorableItem(e.items[i])
  }

  lemma {:induction false} FieldsWritten(doc: Doc, fs: seq<Field>)
    requires doc.open.InEntry? && StorableFields(fs)
    ensures BracketedRun(doc, FieldCalls(fs))
    ensures ExtendRun(doc, FieldCalls(fs)) == MoreFields(doc, fs)
    decreases |fs|
  {
    if fs == [] {
      assert doc.open.fields + fs == doc.open.fields;
    } else {
      var n := |fs| - 1;
      FieldsWritten(doc, fs[..n]);
      var doc1 := ExtendRun(doc, FieldCalls(fs[..n]));
      RunOne(doc1, Write(fs[n]));
      RunThen(doc, FieldCalls(fs[..n]), [Write(fs[n])]);
      assert doc.open.fields + fs[..n] + [fs[n]] == doc.open.fields + fs;
    }
  }

  lemma OneEntry(doc: Doc, fs: seq<Field>)
    requires doc.open.InArray? && StorableFields(fs)
    ensures BracketedRun(doc, [EntryBegin] + FieldCalls(fs) + [EntryEnd])
    ensures ExtendRun(doc, [EntryBegin] + FieldCalls(fs) + [EntryEnd]) == MoreEntries(doc, [fs])
  {
    hide BracketedRun, ExtendRun, FieldCalls;
    FieldsWritten(Extend(doc, EntryBegin), fs);
    RunBetween(doc, EntryBegin, FieldCalls(fs), EntryEnd);
    assert [] + fs == fs;
  }

  lemma {:induction false} EntriesWritten(doc: Doc, es: seq<seq<Field>>)
    requires doc.open.InArray? && forall k :: 0 <= k < |es| ==> StorableFields(es[k])
    ensures BracketedRun(doc, EntryCalls(es))
    ensures ExtendRun(doc, EntryCalls(es)) == MoreEntries(doc, es)
    decreases |es|
  {
    hide StorableFields, FieldCalls;
    if es == [] {
      assert doc.open.entries + es == doc.open.entries;
    } else {
      var n := |es| - 1;
      EntriesWritten(doc, es[..n]);
      OneEntry(ExtendRun(doc, EntryCalls(es[..n])), es[n]);
      RunThen(doc, EntryCalls(es[..n]), [EntryBegin] + FieldCalls(es[n]) + [EntryEnd]);
      assert doc.open.entries + es[..n] + [es[n]] == doc.open.entries + es;
    }
  }

  lemma ItemWritten(doc: Doc, i: Item)
    requires doc.open.InEvent? && StorableItem(i)
    ensures BracketedRun(doc, OneItem(i))
    ensures ExtendRun(doc, OneItem(i)) == MoreItems(doc, [i])
  {
    hide BracketedRun, ExtendRun, EntryCalls;
    match i
    case One(f) => RunOne(doc, Write(f));
    case Arr(name, es) =>
      EntriesWritten(Extend(doc, ArrayBegin(name)), es);
      RunBetween(doc, ArrayBegin(name), EntryCalls(es), ArrayEnd);
      assert [] + es == es;
  }

  lemma {:induction false} ItemsWritten(doc: Doc, items: seq<Item>)
    requires doc.open.InEvent? && forall i :: 0 <= i < |items| ==> StorableItem(items[i])
    ensures BracketedRun(doc, ItemCalls(items))
    ensures ExtendRun(doc, ItemCalls(items)) == MoreItems(doc, items)
    decreases |items|
  {
    hide StorableItem, EntryCalls;
    if items == [] {
      assert doc.open.items + items == doc.open.items;
    } else {
      var n := |items| - 1;
      ItemsWritten(doc, items[..n]);
      ItemWritten(ExtendRun(doc, ItemCalls(items[..n])), items[n]);
      RunThen(doc, ItemCalls(items[..n]), OneItem(items[n]));
      assert doc.open.items + items[..n] + [items[n]] == doc.open.items + items;
    }
  }

  // The events as they are written, each with the next request id in front.
  function Numbered(events: seq<Event>, base: nat): (es: seq<Event>)
    ensures |es| == |events|
    ensures forall k :: 0 <= k < |events| ==>
              es[k] == Event(events[k].id, [RequestItem(Requests.Nth(base, k))] + events[k].items)
  {
    seq(|events|, k requires 0 <= k < |events| =>
      Event(events[k].id, [RequestItem(Requests.Nth(base, k))] + events[k].items))
  }

  lemma OneEvent(doc: Doc, e: Event)
    requires doc.open.Idle? && StorableEvent(e)
    ensures var calls := [EventBegin(e.id)] + ItemCalls(e.items) + [EventEnd];
            && BracketedRun(doc, calls)
            && ExtendRun(doc, calls) ==
               Doc(doc.done + [Event(e.id, [RequestItem(doc.nextId)] + e.items)], Idle, (doc.nextId + 1) % TWO_64)
  {
    hide BracketedRun, ExtendRun, ItemCalls, RequestItem;
    ItemsWritten(Extend(doc, EventBegin(e.id)), e.items);
    RunBetween(doc, EventBegin(e.id), ItemCalls(e.items), EventEnd);
  }

  /** Writing events from an idle writer leaves exactly those behind what was
      there, under consecutive request ids. */
  lemma {:induction false} EventsWritten(doc: Doc, events: seq<Event>)
    requires doc.open.Idle? && doc.nextId < TWO_64 && forall k :: 0 <= k < |events| ==> StorableEvent(events[k])
    ensures BracketedRun(doc, EventCalls(events))
    ensures ExtendRun(doc, EventCalls(events)) ==
            Doc(doc.done + Numbered(events, doc.nextId), Idle, Requests.Nth(doc.nextId, |events|))
    decreases |events|
  {
    hide StorableEvent, ItemCalls, RequestItem, Requests.Nth;
    if events == [] {
      assert doc.done + Numbered(events, doc.nextId) == doc.done;
      FirstId(doc.nextId);
    } else {
      var n := |events| - 1;
      EventsWritten(doc, events[..n]);
      var e := events[n];
      OneEvent(ExtendRun(doc, EventCalls(events[..n])), e);
      RunThen(doc, EventCalls(events[..n]), [EventBegin(e.id)] + ItemCalls(e.items) + [EventEnd]);
      Requests.NthNext(doc.nextId, n);
      assert Numbered(events, doc.nextId) == Numbered(events[..n], doc.nextId) + [Numbered(events, doc.nextId)[n]];
    }
  }

  lemma FirstId(base: nat)
    requires base < TWO_64
    ensures Requests.Nth(base, 0) == base
  {
  }

  predicate SmallFields(fs: seq<Field>) {
    forall i :: 0 <= i < |fs| ==> Small(fs[i])
  }

  predicate SmallItem(i: Item) {
    match i
    case One(f) => Small(f)
    case Arr(_, es) => forall k :: 0 <= k < |es| ==> SmallFields(es[k])
  }

  predicate SmallEvent(e: Event) {
    forall i :: 0 <= i < |e.items| ==> SmallItem(e.items[i])
  }

  lemma SmallThen(a: seq<Call>, b: seq<Call>)
    ensures SmallRun(a + b) <==> SmallRun(a) && SmallRun(b)
  {
    hide SmallCall;
    if SmallRun(a + b) {
      assert forall i :: 0 <= i < |a| ==> a[i] == (a + b)[i];
      assert forall i :: 0 <= i < |b| ==> b[i] == (a + b)[|a| + i];
    }
  }

  lemma SmallOne(c: Call)
    ensures SmallRun([c]) <==> SmallCall(c)
  {
    hide SmallCall;
    assert [c][0] == c;
  }

  lemma SmallBetween(c: Call, a: seq<Call>, d: Call)
    requires SmallCall(c) && SmallRun(a) && SmallCall(d)
    ensures SmallRun([c] + a + [d])
  {
    hide SmallCall, SmallRun;
    SmallOne(c);
    SmallThen([c], a);
    SmallOne(d);
    SmallThen([c] + a, [d]);
  }

  lemma {:induction false} FieldsSmall(fs: seq<Field>)
    requires SmallFields(fs)
    ensures SmallRun(FieldCalls(fs))
    decreases |fs|
  {
    hide SmallRun, Small;
    if fs != [] {
      var n := |fs| - 1;
      FieldsSmall(fs[..n]);
      SmallOne(Write(fs[n]));
      SmallThen(FieldCalls(fs[..n]), [Write(fs[n])]);
    } else {
      NoneSmall();
    }
  }

  lemma NoneSmall()
    ensures SmallRun([])
  {
  }

  lemma {:induction false} EntriesSmall(es: seq<seq<Field>>)
    requires forall k :: 0 <= k < |es| ==> SmallFields(es[k])
    ensures SmallRun(EntryCalls(es))
    decreases |es|
  {
    hide SmallRun, SmallFields, FieldCalls;
    if es != [] {
      var n := |es| - 1;
      EntriesSmall(es[..n]);
      FieldsSmall(es[n]);
      SmallBetween(EntryBegin, FieldCalls(es[n]), EntryEnd);
      SmallThen(EntryCalls(es[..n]), [EntryBegin] + FieldCalls(es[n]) + [EntryEnd]);
    } else {
      NoneSmall();
    }
  }

  lemma {:induction false} ItemsSmall(items: seq<Item>)
    requires forall i :: 0 <= i < |items| ==> SmallItem(items[i])
    ensures SmallRun(ItemCalls(items))
    decreases |items|
  {
    hide SmallRun, SmallItem, OneItem;
    if items != [] {
      var n := |items| - 1;
      ItemsSmall(items[..n]);
      ItemSmall(items[n]);
      SmallThen(ItemCalls(items[..n]), OneItem(items[n]));
    } else {
      NoneSmall();
    }
  }

  lemma ItemSmall(i: Item)
    requires SmallItem(i)
    ensures SmallRun(OneItem(i))
  {
    hide SmallRun, EntryCalls, Small;
    match i
    case One(f) => SmallOne(Write(f));
    case Arr(name, es) =>
      EntriesSmall(es);
      SmallBetween(ArrayBegin(name), EntryCalls(es), ArrayEnd);
  }

  lemma {:induction false} EventsSmall(events: seq<Event>)
    requires forall k :: 0 <= k < |events| ==> SmallEvent(events[k])
    ensures SmallRun(EventCalls(events))
    decreases |events|
  {
    hide SmallRun, SmallItem, ItemCalls;
    if events != [] {
      var n := |events| - 1;
      EventsSmall(events[..n]);
      var e := events[n];
      assert SmallEvent(e);
      ItemsSmall(e.items);
      SmallBetween(EventBegin(e.id), ItemCalls(e.items), EventEnd);
      SmallThen(EventCalls(events[..n]), [EventBegin(e.id)] + ItemCalls(e.items) + [EventEnd]);
    } else {
      NoneSmall();
    }
  }

  /** Every list of events that can be stored and read, and for which there is
      room, is what some complete run writes. */
  lemma EveryStreamIsWritten(w: State, events: seq<Event>)
    requires Fresh(w) && HEADER + TotalCost(EventCalls(events)) <= CAPACITY
    requires forall k :: 0 <= k < |events| ==> StorableEvent(events[k]) && SmallEvent(events[k])
    ensures Complete(w, EventCalls(events)) && Written(w, EventCalls(events)) == Numbered(events, w.requestId)
  {
    hide StorableEvent, SmallEvent, EventCalls, TotalCost, SmallRun;
    EventsWritten(Blank(w), events);
    EventsSmall(events);
    assert [] + Numbered(events, w.requestId) == Numbered(events, w.requestId);
  }
}
