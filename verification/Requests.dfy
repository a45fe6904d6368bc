/** Request ids, and the patches the end calls make. */
module Requests {
  import opened Bytes
  import opened Format
  import opened BinaryWriter
  import opened BinaryReader
  import opened Tiling
  import opened Codec
  import opened RoundTrip
  import opened Events

  // The n-th id handed out after base.
  function Nth(base: nat, n: nat): nat {
    (base + n) % TWO_64
  }

  lemma NthNext(base: nat, n: nat)
    ensures (Nth(base, n) + 1) % TWO_64 == Nth(base, n + 1)
  {
  }

  predicate CarriesId(items: seq<Item>, id: nat) {
    items != [] && items[0] == RequestItem(id)
  }

  // Event i carries the i-th id from base on, and the counter is past all.
  predicate Numbered(doc: Doc, base: nat) {
    var n := |doc.done|;
    && (forall i :: 0 <= i < n ==> CarriesId(doc.done[i].items, Nth(base, i)))
    && (!doc.open.Idle? ==> CarriesId(doc.open.items, Nth(base, n)))
    && doc.nextId == Nth(base, if doc.open.Idle? then n else n + 1)
  }

  lemma ExtendNumbered(doc: Doc, c: Call, base: nat)
    requires Numbered(doc, base) && Bracketed(doc.open, c)
    ensures Numbered(Extend(doc, c), base)
  {
    hide Nth, EncField, RequestItem;
    NthNext(base, |doc.done|);
  }

  lemma {:induction false} RunNumbered(doc: Doc, calls: seq<Call>, base: nat)
    requires Numbered(doc, base) && BracketedRun(doc, calls)
    ensures Numbered(ExtendRun(doc, calls), base)
    decreases |calls|
  {
    hide Numbered, Extend, Bracketed;
    if calls != [] {
      ExtendNumbered(doc, calls[0], base);
      RunNumbered(Extend(doc, calls[0]), calls[1..], base);
    }
  }

  /** The events of a run carry consecutive ids, and a reset goes on counting
      from there. */
  lemma RequestIds(w: State, calls: seq<Call>, i: nat)
    requires Complete(w, calls) && i < |Written(w, calls)|
    ensures var items := Written(w, calls)[i].items;
            CarriesId(items, Nth(w.requestId, i))
    ensures Reset(Run(w, calls)).requestId == Nth(w.requestId, |Written(w, calls)|)
  {
    hide Tiled, Run, ExtendRun, BracketedRun, RequestItem, EncField;
    FreshTiled(w);
    RunKeeps(w, Blank(w), calls);
    BlankNumbered(w);
    RunNumbered(Blank(w), calls, w.requestId);
    NextIdKept(Run(w, calls), ExtendRun(Blank(w), calls));
  }

  lemma BlankNumbered(w: State)
    requires Fresh(w)
    ensures Numbered(Blank(w), w.requestId)
  {
  }

  lemma NextIdKept(w: State, doc: Doc)
    requires Tiled(w, doc)
    ensures w.requestId == doc.nextId
  {
  }

  /** Reading the id of the k-th event of a run: found first, as a U64, and
      equal to the id its begin call returned exactly when that id survives
      the 64-bit getter. */
  lemma ReadRequestId(w: State, calls: seq<Call>, k: nat)
    requires Complete(w, calls) && k < |Written(w, calls)|
    ensures var m := Finalize(Run(w, calls)).mem;
            var r := GetEvent(m, After(m, InitStream(GetSize(Run(w, calls))), k)).r;
            var id := Nth(w.requestId, k);
            Searchable(m, r, 0) &&
            FindValue(m, r, U64, REQUEST_ID, 0) == Found(OK + U64.Code(), Value(ReadBack(U64, U64, id))) &&
            (ReadBack(U64, U64, id) == id <==> Survives64(id))
  {
    hide Run, GetEvent, Searchable, FindValue, FindsString, FindsData, FindsArray, ReadBack, Survives64;
    EveryFind(w, calls, k, REQUEST_ID, U64);
    RequestIds(w, calls, k);
    ReadBackExact(U64, U64, Nth(w.requestId, k));
  }

  // Ids below 2^31 read back unchanged.
  lemma SmallIdsSurvive(id: nat)
    requires id < TWO_31
    ensures ReadBack(U64, U64, id) == id
  {
    hide ReadBack;
    ReadBackExact(U64, U64, id);
  }

  // Beyond that, two ids can be confused.
  lemma LargeIdsCollide()
    ensures ReadBack(U64, U64, 0x8000_0000) == ReadBack(U64, U64, 0x1_8000_0000)
  {
    Read64(0x8000_0000);
    Read64(0x1_8000_0000);
  }

  /** A result of 1 means failure or the first request id; a result of 0 never
      means failure, only that the counter has wrapped. */
  lemma FailureLooksLikeFirstId(w: State, event: int)
    requires Valid(w) && w.data + 30 <= CAPACITY
    ensures BeginEvent(w, event).status == 1 <==> w.writingEvent || w.requestId == 1
    ensures BeginEvent(w, event).status == 0 <==> !w.writingEvent && w.requestId == 0
  {
  }

  predicate SameOutside(a: bytes, b: bytes, from: nat, to: nat) {
    |a| == |b| && forall i {:trigger a[i]} {:trigger b[i]} :: 0 <= i < |a| && !(from <= i < to) ==> a[i] == b[i]
  }

  lemma PutOutside(m: bytes, p: nat, b: bytes)
    requires p + |b| <= |m|
    ensures SameOutside(m, Put(m, p, b), p, p + |b|)
  {
  }

  /** Each end call writes the byte length of its region into that region's
      size bytes and changes nothing else; the array end also appends its
      7-byte terminator. */
  lemma EndEventPatch(w: State, doc: Doc)
    requires Tiled(w, doc) && doc.open.InEvent?
    ensures var p, w' := EventStart(doc), EndEvent(w).w;
            SameOutside(w.mem, w'.mem, p + 3, p + 7) && U32At(w'.mem, p + 3) == w'.data - p && w'.data == w.data
  {
    hide EncEvents, EncItems, Put, U32At, SameOutside;
    PutOutside(w.mem, w.eventOffset, BE32(w.data - w.eventOffset + 3));
    PutHolds(w.mem, w.eventOffset, BE32(w.data - w.eventOffset + 3));
    U32Holds(EndEvent(w).w.mem, w.eventOffset, w.data - w.eventOffset + 3);
  }

  lemma EndEntryPatch(w: State, doc: Doc)
    requires Tiled(w, doc) && doc.open.InEntry?
    ensures var p, w' := EntryStart(doc), EndEntry(w).w;
            && SameOutside(w.mem, w'.mem, p + 1, p + 7) && w'.data == w.data
            && U32At(w'.mem, p + 1) == w'.data - p && U16At(w'.mem, p + 5) == |doc.open.fields| % TWO_16
  {
    hide EncEvents, EncItems, EncEntries, EncFields, Put, U32At, U16At, SameOutside;
    var size := w.data - w.entryOffset + 1;
    PutOutside(w.mem, w.entryOffset, BE32(size) + BE16(w.entryCount));
    PutHolds(w.mem, w.entryOffset, BE32(size) + BE16(w.entryCount));
    HoldsSplit(EndEntry(w).w.mem, w.entryOffset, BE32(size), BE16(w.entryCount));
    U32Holds(EndEntry(w).w.mem, w.entryOffset, size);
    U16Holds(EndEntry(w).w.mem, w.entryOffset + 4, w.entryCount);
    CountBytes(|doc.open.fields|);
    U16Holds(EndEntry(w).w.mem, w.entryOffset + 4, |doc.open.fields|);
  }

  lemma EndArrayPatch(w: State, doc: Doc)
    requires Tiled(w, doc) && doc.open.InArray? && w.data + 7 <= CAPACITY
    ensures var p, w' := ArrayStart(doc), EndArray(w).w;
            && w'.data == w.data + 7 && U32At(w'.mem, p + 1) == w'.data - p
            && Holds(w'.mem, w.data, EncEntry([]))
            && |w'.mem| == |w.mem|
            && forall i :: 0 <= i < |w.mem| && !(p + 1 <= i < p + 5) && !(w.data <= i < w.data + 7) ==>
                 w'.mem[i] == w.mem[i]
  {
    hide EncEvents, EncItems, EncEntries, EncFields, EncEntry, Put, U32At, Holds;
    var w0 := BeginEntry(w).w;
    var w1 := EndEntry(w0).w;
    var size := w1.data - w1.arrayOffset + 1;
    BeginEntryKeeps(w, doc);
    EntryPatched(w0, Extend(doc, EntryBegin));
    PutOutside(w.mem, w.data, [TYPE_ENTRY]);
    PutOutside(w0.mem, w0.entryOffset, BE32(7) + BE16(0));
    PutOutside(w1.mem, w1.arrayOffset, BE32(size));
    PutHolds(w1.mem, w1.arrayOffset, BE32(size));
    U32Holds(EndArray(w).w.mem, w1.arrayOffset, size);
    assert EncEntry([]) == [TYPE_ENTRY, 0, 0, 0, 7, 0, 0] by { EmptyEntry(); }
    PutElsewhere(w1.mem, w1.arrayOffset, BE32(size), w.data, EncEntry([]));
  }
}
