/** Every well-bracketed run of writer calls tiles the buffer with complete
    records: at most one open event, array and entry at the end, each with its
    size bytes still to be patched. */
module Tiling {
  import opened Bytes
  import opened Format
  import opened BinaryWriter

  datatype Open =
    | Idle
    | InEvent(event: int, items: seq<Item>)
    | InArray(event: int, items: seq<Item>, name: CString, entries: seq<seq<Field>>)
    | InEntry(event: int, items: seq<Item>, name: CString, entries: seq<seq<Field>>, fields: seq<Field>)

  // What has been written since the last reset, and the next request id.
  datatype Doc = Doc(done: seq<Event>, open: Open, nextId: nat)

  function RequestItem(requestId: int): Item {
    One(Num(REQUEST_ID, U64, requestId))
  }

  // The caller's obligations on a value: its C type, and an id that a data
  // record can describe.
  predicate Storable(f: Field) {
    match f
    case Num(_, t, v) => t.Fits(v)
    case Str(_, _) => true
    case Blob(id, _) => |id| < TWO_16
  }

  // Events hold fields and arrays, arrays hold entries, entries hold fields.
  predicate Bracketed(open: Open, c: Call) {
    match c
    case EventBegin(event) => open.Idle? && 0 <= event < TWO_16
    case EventEnd => open.InEvent?
    case ArrayBegin(_) => open.InEvent?
    case ArrayEnd => open.InArray?
    case EntryBegin => open.InArray?
    case EntryEnd => open.InEntry?
    case Write(f) => (open.InEvent? || open.InEntry?) && Storable(f)
  }

  function Extend(doc: Doc, c: Call): Doc
    requires Bracketed(doc.open, c)
  {
    var o := doc.open;
    match c
    case EventBegin(event) =>
      doc.(open := InEvent(event, [RequestItem(doc.nextId)]), nextId := (doc.nextId + 1) % TWO_64)
    case EventEnd => doc.(done := doc.done + [Event(o.event, o.items)], open := Idle)
    case ArrayBegin(name) => doc.(open := InArray(o.event, o.items, name, []))
    case ArrayEnd => doc.(open := InEvent(o.event, o.items + [Arr(o.name, o.entries)]))
    case EntryBegin => doc.(open := InEntry(o.event, o.items, o.name, o.entries, []))
    case EntryEnd => doc.(open := InArray(o.event, o.items, o.name, o.entries + [o.fields]))
    case Write(f) =>
      if o.InEvent? then doc.(open := InEvent(o.event, o.items + [One(f)]))
      else doc.(open := InEntry(o.event, o.items, o.name, o.entries, o.fields + [f]))
  }

  predicate BracketedRun(doc: Doc, calls: seq<Call>)
    decreases |calls|
  {
    calls == [] || (Bracketed(doc.open, calls[0]) && BracketedRun(Extend(doc, calls[0]), calls[1..]))
  }

  function ExtendRun(doc: Doc, calls: seq<Call>): Doc
    requires BracketedRun(doc, calls)
    decreases |calls|
  {
    if calls == [] then doc else ExtendRun(Extend(doc, calls[0]), calls[1..])
  }

  predicate EventOpen(w: State, p: nat, event: int, items: seq<Item>) {
    && w.writingEvent && w.eventOffset == p + 3
    && Holds(w.mem, p, [TYPE_EVENT] + BE16(event))
    && Holds(w.mem, p + 7, EncItems(items))
  }

  predicate ArrayOpen(w: State, p: nat, name: CString, entries: seq<seq<Field>>) {
    && w.writingArray && w.arrayOffset == p + 1
    && Holds(w.mem, p, [TYPE_ARRAY])
    && Holds(w.mem, p + 5, name + [0])
    && Holds(w.mem, p + 6 + |name|, EncEntries(entries))
  }

  predicate EntryOpen(w: State, p: nat, fields: seq<Field>) {
    && w.writingEntry && w.entryOffset == p + 1
    && Holds(w.mem, p, [TYPE_ENTRY])
    && Holds(w.mem, p + 7, EncFields(fields))
    && w.entryCount == |fields| % TWO_32
  }

  // Start of the open event, array and entry.
  function EventStart(doc: Doc): nat {
    HEADER + |EncEvents(doc.done)|
  }

  function ArrayStart(doc: Doc): nat
    requires doc.open.InArray? || doc.open.InEntry?
  {
    EventStart(doc) + 7 + |EncItems(doc.open.items)|
  }

  function EntryStart(doc: Doc): nat
    requires doc.open.InEntry?
  {
    ArrayStart(doc) + 6 + |doc.open.name| + |EncEntries(doc.open.entries)|
  }

  /** The memory from the header to the write position is the encoding of doc,
      except for the unpatched size bytes of what is open. */
  predicate Tiled(w: State, doc: Doc) {
    var o := doc.open;
    && Valid(w)
    && w.requestId == doc.nextId
    && Holds(w.mem, HEADER, EncEvents(doc.done))
    && (!o.Idle? ==> EventOpen(w, EventStart(doc), o.event, o.items))
    && (o.InArray? || o.InEntry? ==> ArrayOpen(w, ArrayStart(doc), o.name, o.entries))
    && (o.InEntry? ==> EntryOpen(w, EntryStart(doc), o.fields))
    && match o {
         case Idle => w.data == EventStart(doc) && !w.writingEvent && !w.writingArray && !w.writingEntry
         case InEvent(_, items) =>
           w.data == EventStart(doc) + 7 + |EncItems(items)| && !w.writingArray && !w.writingEntry
         case InArray(_, _, name, es) =>
           w.data == ArrayStart(doc) + 6 + |name| + |EncEntries(es)| && !w.writingEntry
         case InEntry(_, _, _, _, fs) => w.data == EntryStart(doc) + 7 + |EncFields(fs)|
       }
  }

  // Writing at p keeps what lies on either side.
  lemma PatchKeeps(m: bytes, p: nat, b: bytes)
    requires p + |b| <= |m|
    ensures forall q: nat, c: bytes {:trigger Holds(Put(m, p, b), q, c)} ::
              q + |c| <= p || p + |b| <= q ==> Holds(Put(m, p, b), q, c) == Holds(m, q, c)
    ensures Holds(Put(m, p, b), p, b)
  {
    PutHolds(m, p, b);
    forall q: nat, c: bytes | q + |c| <= p || p + |b| <= q
      ensures Holds(Put(m, p, b), q, c) == Holds(m, q, c)
    {
      PutElsewhere(m, p, b, q, c);
    }
  }

  lemma StorableBytes(f: Field)
    requires Storable(f) && |EncField(f)| <= CAPACITY
    ensures FieldBytes(f) == EncField(f) && Advance(f) == |EncField(f)|
  {
    hide BE32, BlobSize;
    if f.Blob? {
      BlobExact(f.id, f.d);
    }
  }

  lemma BlobExact(id: CString, d: bytes)
    requires |id| < TWO_16 && |id| + 6 + |d| <= CAPACITY
    ensures BlobSize(id, d) == |id| + 6 + |d|
  {
  }

  lemma WriteKeeps(w: State, doc: Doc, f: Field)
    requires Tiled(w, doc) && Bracketed(doc.open, Write(f)) && w.data + |EncField(f)| <= CAPACITY
    ensures Tiled(WriteField(w, f), Extend(doc, Write(f)))
  {
    hide EncField, Concat, Put, Holds;
    StorableBytes(f);
    var w' := WriteField(w, f);
    var o := doc.open;
    PatchKeeps(w.mem, w.data, EncField(f));
    if o.InEvent? {
      EncItemsSnoc(o.items, One(f));
      HoldsSplit(w'.mem, EventStart(doc) + 7, EncItems(o.items), EncField(f));
    } else {
      EncFieldsSnoc(o.fields, f);
      HoldsSplit(w'.mem, EntryStart(doc) + 7, EncFields(o.fields), EncField(f));
    }
  }

  // A 23-byte record, so every event is at least 30 bytes long.
  lemma RequestRecord(requestId: int)
    ensures |EncField(Num(REQUEST_ID, U64, requestId))| == 23
    ensures EncItems([RequestItem(requestId)]) == EncField(Num(REQUEST_ID, U64, requestId))
  {
    var parts := ItemParts([RequestItem(requestId)]);
    assert parts[..0] == [] && Concat([]) == [];
    assert Concat(parts) == [] + parts[0];
  }

  lemma BeginEventKeeps(w: State, doc: Doc, event: int)
    requires Tiled(w, doc) && Bracketed(doc.open, EventBegin(event)) && w.data + 30 <= CAPACITY
    ensures Tiled(BeginEvent(w, event).w, Extend(doc, EventBegin(event)))
    ensures BeginEvent(w, event).status == doc.nextId
  {
    hide EncField, EncItems, Concat, Put, Holds;
    RequestRecord(doc.nextId);
    var head := [TYPE_EVENT] + BE16(event);
    var record := EncField(Num(REQUEST_ID, U64, doc.nextId));
    var m1 := Put(w.mem, w.data, head);
    PatchKeeps(w.mem, w.data, head);
    PatchKeeps(m1, w.data + 7, record);
    assert BeginEvent(w, event).w.mem == Put(m1, w.data + 7, record);
  }

  lemma EndEventKeeps(w: State, doc: Doc)
    requires Tiled(w, doc) && Bracketed(doc.open, EventEnd)
    ensures Tiled(EndEvent(w).w, Extend(doc, EventEnd)) && EndEvent(w).status == STATUS_OK
  {
    hide EncItems, EncEvents, Concat, Put, Holds;
    var p, o := EventStart(doc), doc.open;
    var e := Event(o.event, o.items);
    var size := BE32(7 + |EncItems(o.items)|);
    var m := EndEvent(w).w.mem;
    PatchKeeps(w.mem, p + 3, size);
    HoldsSplit(m, p, [TYPE_EVENT] + BE16(o.event), size);
    HoldsSplit(m, p, [TYPE_EVENT] + BE16(o.event) + size, EncItems(o.items));
    HoldsSplit(m, HEADER, EncEvents(doc.done), EncEvent(e));
    EncEventsSnoc(doc.done, e);
  }

  lemma BeginArrayKeeps(w: State, doc: Doc, name: CString)
    requires Tiled(w, doc) && Bracketed(doc.open, ArrayBegin(name)) && w.data + |name| + 6 <= CAPACITY
    ensures Tiled(BeginArray(w, name).w, Extend(doc, ArrayBegin(name)))
    ensures BeginArray(w, name).status == STATUS_OK
  {
    hide EncItems, EncEvents, Put, Holds;
    var m1 := Put(w.mem, w.data, [TYPE_ARRAY]);
    PatchKeeps(w.mem, w.data, [TYPE_ARRAY]);
    PatchKeeps(m1, w.data + 5, name + [0]);
    HoldsNothing(BeginArray(w, name).w.mem, w.data + 6 + |name|);
  }

  lemma HoldsNothing(m: bytes, p: nat)
    requires p <= |m|
    ensures EncEntries([]) == [] && EncFields([]) == [] && EncItems([]) == [] && EncEvents([]) == []
    ensures Holds(m, p, [])
  {
    assert m[p..p] == [];
  }

  lemma BeginEntryKeeps(w: State, doc: Doc)
    requires Tiled(w, doc) && Bracketed(doc.open, EntryBegin) && w.data + 7 <= CAPACITY
    ensures Tiled(BeginEntry(w).w, Extend(doc, EntryBegin)) && BeginEntry(w).status == STATUS_OK
  {
    hide EncItems, EncEvents, EncEntries, Put, Holds;
    PatchKeeps(w.mem, w.data, [TYPE_ENTRY]);
    HoldsNothing(BeginEntry(w).w.mem, w.data + 7);
  }

  lemma CountBytes(n: nat)
    ensures BE16(n % TWO_32) == BE16(n)
  {
    var q, r := n / TWO_32, n % TWO_32;
    assert n / 256 == q * TWO_24 + r / 256;
  }

  lemma EndEntryKeeps(w: State, doc: Doc)
    requires Tiled(w, doc) && Bracketed(doc.open, EntryEnd)
    ensures Tiled(EndEntry(w).w, Extend(doc, EntryEnd)) && EndEntry(w).status == STATUS_OK
  {
    hide EncItems, EncEvents, EncEntries, EncFields, EncEntry, Put, Holds;
    var p, o := EntryStart(doc), doc.open;
    EntryPatched(w, doc);
    PatchKeeps(w.mem, p + 1, BE32(7 + |EncFields(o.fields)|) + BE16(w.entryCount));
    HoldsSplit(EndEntry(w).w.mem, ArrayStart(doc) + 6 + |o.name|, EncEntries(o.entries), EncEntry(o.fields));
    EncEntriesSnoc(o.entries, o.fields);
  }

  // The size and count land between the type byte and the fields.
  lemma EntryPatched(w: State, doc: Doc)
    requires Tiled(w, doc) && doc.open.InEntry?
    ensures Holds(EndEntry(w).w.mem, EntryStart(doc), EncEntry(doc.open.fields))
  {
    hide EncItems, EncEvents, EncEntries, EncFields, Put, Holds;
    var p, fs := EntryStart(doc), doc.open.fields;
    var patch := BE32(7 + |EncFields(fs)|) + BE16(|fs|);
    CountBytes(|fs|);
    PatchKeeps(w.mem, p + 1, patch);
    var m := EndEntry(w).w.mem;
    HoldsSplit(m, p, [TYPE_ENTRY], patch);
    HoldsSplit(m, p, [TYPE_ENTRY] + patch, EncFields(fs));
    assert EncEntry(fs) == [TYPE_ENTRY] + patch + EncFields(fs);
  }

  // The array end is an empty entry followed by the patch of the array size.
  lemma EndArrayKeeps(w: State, doc: Doc)
    requires Tiled(w, doc) && Bracketed(doc.open, ArrayEnd) && w.data + 7 <= CAPACITY
    ensures Tiled(EndArray(w).w, Extend(doc, ArrayEnd)) && EndArray(w).status == STATUS_OK
  {
    hide EncItems, EncEvents, EncEntries, EncFields, EncEntry, Put, Holds;
    var w0 := BeginEntry(w).w;
    var doc0 := Extend(doc, EntryBegin);
    BeginEntryKeeps(w, doc);
    EntryPatched(w0, doc0);
    EndEntryKeeps(w0, doc0);
    var w1 := EndEntry(w0).w;
    var q, o := ArrayStart(doc), doc.open;
    var es, last := EncEntries(o.entries), EncEntry([]);
    var body := (o.name + [0]) + es + last;
    assert |last| == 7 by { EmptyEntry(); }
    EncEntriesSnoc(o.entries, []);
    HoldsSplit(w1.mem, q + 6 + |o.name|, es, last);
    HoldsSplit(w1.mem, q + 5, o.name + [0], es);
    HoldsSplit(w1.mem, q + 5, (o.name + [0]) + es, last);
    PatchKeeps(w1.mem, q + 1, BE32(5 + |body|));
    var m := EndArray(w).w.mem;
    HoldsSplit(m, q, [TYPE_ARRAY], BE32(5 + |body|));
    HoldsSplit(m, q, [TYPE_ARRAY] + BE32(5 + |body|), body);
    HoldsSplit(m, EventStart(doc) + 7, EncItems(o.items), EncItem(Arr(o.name, o.entries)));
    EncItemsSnoc(o.items, Arr(o.name, o.entries));
  }

  lemma EmptyEntry()
    ensures EncEntry([]) == [TYPE_ENTRY, 0, 0, 0, 7, 0, 0]
  {
    assert EncFields([]) == [];
  }

  /** One well-bracketed call keeps the tiling and reports success. */
  lemma ApplyKeeps(w: State, doc: Doc, c: Call)
    requires Tiled(w, doc) && Bracketed(doc.open, c) && w.data + Cost(c) <= CAPACITY
    ensures Tiled(Apply(w, c).w, Extend(doc, c))
    ensures Apply(w, c).status == if c.EventBegin? then doc.nextId else STATUS_OK
  {
    hide Tiled;
    match c
    case EventBegin(event) => BeginEventKeeps(w, doc, event);
    case EventEnd => EndEventKeeps(w, doc);
    case ArrayBegin(name) => BeginArrayKeeps(w, doc, name);
    case ArrayEnd => EndArrayKeeps(w, doc);
    case EntryBegin => BeginEntryKeeps(w, doc);
    case EntryEnd => EndEntryKeeps(w, doc);
    case Write(f) => WriteKeeps(w, doc, f);
  }

  /** Every well-bracketed run keeps the tiling. */
  lemma {:induction false} RunKeeps(w: State, doc: Doc, calls: seq<Call>)
    requires Tiled(w, doc) && BracketedRun(doc, calls) && w.data + TotalCost(calls) <= CAPACITY
    ensures Tiled(Run(w, calls), ExtendRun(doc, calls))
    decreases |calls|
  {
    hide Apply, Extend;
    if calls != [] {
      ApplyKeeps(w, doc, calls[0]);
      RunKeeps(Apply(w, calls[0]).w, Extend(doc, calls[0]), calls[1..]);
    }
  }
}
