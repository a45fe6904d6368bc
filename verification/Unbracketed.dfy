/** Calls out of order: which size bytes an end call patches, whatever was
    called since the record was opened. A begin call that is rejected has moved
    the offset all the same. */
module Unbracketed {
  import opened Bytes
  import opened Format
  import opened BinaryWriter
  import opened Tiling

  datatype Level = EventLevel | ArrayLevel | EntryLevel {
    // Bytes in front of a record's size bytes.
    function Lead(): nat {
      if EventLevel? then 3 else 1
    }

    // The bytes the end call patches: a size, and for an entry its count.
    function PatchSize(): nat {
      if EntryLevel? then 6 else 4
    }

    predicate Begins(c: Call) {
      match this
      case EventLevel => c.EventBegin?
      case ArrayLevel => c.ArrayBegin?
      case EntryLevel => c.EntryBegin?
    }

    // Ending an array also begins and ends an entry.
    predicate Ends(c: Call) {
      match this
      case EventLevel => c.EventEnd?
      case ArrayLevel => c.ArrayEnd?
      case EntryLevel => c.EntryEnd? || c.ArrayEnd?
    }

    predicate Open(w: State) {
      match this
      case EventLevel => w.writingEvent
      case ArrayLevel => w.writingArray
      case EntryLevel => w.writingEntry
    }

    function Offset(w: State): nat {
      match this
      case EventLevel => w.eventOffset
      case ArrayLevel => w.arrayOffset
      case EntryLevel => w.entryOffset
    }

    function End(w: State): (s: Step)
      requires Valid(w) && w.data + 7 <= CAPACITY
      ensures Valid(s.w)
    {
      match this
      case EventLevel => EndEvent(w)
      case ArrayLevel => EndArray(w)
      case EntryLevel => EndEntry(w)
    }
  }

  predicate NoBegin(level: Level, calls: seq<Call>) {
    forall i :: 0 <= i < |calls| ==> !level.Begins(calls[i])
  }

  predicate NoEnd(level: Level, calls: seq<Call>) {
    forall i :: 0 <= i < |calls| ==> !level.Ends(calls[i])
  }

  // The record of this level that is open at p, its head already written.
  predicate OpenAt(level: Level, w: State, p: nat) {
    && Valid(w) && level.Open(w) && level.Offset(w) == p + level.Lead()
    && p + level.Lead() + level.PatchSize() <= w.data
  }

  lemma CallMoves(level: Level, w: State, c: Call)
    requires Valid(w) && w.data + Cost(c) <= CAPACITY && level.Open(w) && !level.Ends(c)
    ensures var w' := Apply(w, c).w;
            && level.Open(w') && w.data <= w'.data
            && level.Offset(w') == if level.Begins(c) then w.data + level.Lead() else level.Offset(w)
  {
    hide EncField, Put;
  }

  /** Up to its end call, the offset of an open record stays at its size bytes
      if and only if no further begin call of its level is made. */
  lemma {:induction false} OffsetStays(level: Level, w: State, calls: seq<Call>)
    requires Valid(w) && w.data + TotalCost(calls) <= CAPACITY && level.Open(w) && NoEnd(level, calls)
    requires level.Offset(w) <= w.data + level.Lead()
    ensures var w' := Run(w, calls);
            && level.Open(w') && w.data <= w'.data && level.Offset(w') <= w'.data + level.Lead()
            && (NoBegin(level, calls) ==> level.Offset(w') == level.Offset(w))
            && (!NoBegin(level, calls) ==> level.Offset(w') >= w.data + level.Lead())
    decreases |calls|
  {
    hide Apply;
    if calls != [] {
      CallMoves(level, w, calls[0]);
      OffsetStays(level, Apply(w, calls[0]).w, calls[1..]);
      assert NoBegin(level, calls) <==> !level.Begins(calls[0]) && NoBegin(level, calls[1..]);
    }
  }

  lemma {:induction false} CostAppend(a: seq<Call>, b: seq<Call>)
    ensures TotalCost(a + b) == TotalCost(a) + TotalCost(b)
    decreases |a|
  {
    if a == [] {
      assert a + b == b;
    } else {
      assert (a + b)[0] == a[0] && (a + b)[1..] == a[1..] + b;
      CostAppend(a[1..], b);
    }
  }

  lemma {:induction false} RunAppend(w: State, a: seq<Call>, b: seq<Call>)
    requires Valid(w) && w.data + TotalCost(a) + TotalCost(b) <= CAPACITY
    ensures w.data + TotalCost(a + b) <= CAPACITY
    ensures Run(w, a + b) == Run(Run(w, a), b)
    decreases |a|
  {
    hide Apply;
    CostAppend(a, b);
    if a == [] {
      assert a + b == b;
    } else {
      assert (a + b)[0] == a[0] && (a + b)[1..] == a[1..] + b;
      RunAppend(Apply(w, a[0]).w, a[1..], b);
    }
  }

  // What an end call writes: the distance to the offset, at the offset.
  predicate Patches(level: Level, w: State, e: State, q: nat) {
    && |e.mem| == |w.mem| && w.data <= |w.mem| && !level.Open(e)
    && U32At(e.mem, q) == e.data - q + level.Lead()
    && forall i :: 0 <= i < w.data && !(q <= i < q + level.PatchSize()) ==> e.mem[i] == w.mem[i]
  }

  lemma EventPatches(w: State)
    requires Valid(w) && w.writingEvent && w.eventOffset <= w.data + 3
    ensures EndEvent(w).status == STATUS_OK && Patches(EventLevel, w, EndEvent(w).w, w.eventOffset)
  {
    hide Put, U32At, BE32;
    PatchOnly(w.mem, w.eventOffset, BE32(w.data - w.eventOffset + 3));
    PatchReads(w.mem, w.eventOffset, w.data - w.eventOffset + 3, []);
  }

  lemma EntryPatches(w: State)
    requires Valid(w) && w.writingEntry && w.entryOffset <= w.data + 1
    ensures EndEntry(w).status == STATUS_OK && Patches(EntryLevel, w, EndEntry(w).w, w.entryOffset)
  {
    hide Put, U32At, BE32, BE16;
    PatchOnly(w.mem, w.entryOffset, BE32(w.data - w.entryOffset + 1) + BE16(w.entryCount));
    PatchReads(w.mem, w.entryOffset, w.data - w.entryOffset + 1, BE16(w.entryCount));
  }

  lemma ArrayPatches(w: State)
    requires Valid(w) && w.data + 7 <= CAPACITY && w.writingArray && w.arrayOffset <= w.data + 1
    ensures EndArray(w).status == STATUS_OK && Patches(ArrayLevel, w, EndArray(w).w, w.arrayOffset)
  {
    hide Put, U32At, BE32, BeginEntry, EndEntry;
    TerminatorOnly(w);
    var w1 := EndEntry(BeginEntry(w).w).w;
    PatchOnly(w1.mem, w.arrayOffset, BE32(w1.data - w.arrayOffset + 1));
    PatchReads(w1.mem, w.arrayOffset, w1.data - w.arrayOffset + 1, []);
  }

  lemma EndPatches(level: Level, w: State)
    requires Valid(w) && w.data + 7 <= CAPACITY && level.Open(w) && level.Offset(w) <= w.data + level.Lead()
    ensures level.End(w).status == STATUS_OK && Patches(level, w, level.End(w).w, level.Offset(w))
  {
    hide EndEvent, EndEntry, EndArray, Patches;
    match level
    case EventLevel => EventPatches(w);
    case EntryLevel => EntryPatches(w);
    case ArrayLevel => ArrayPatches(w);
  }

  lemma PatchOnly(m: bytes, q: nat, b: bytes)
    requires q + |b| <= |m|
    ensures forall i :: 0 <= i < |m| && !(q <= i < q + |b|) ==> Put(m, q, b)[i] == m[i]
  {
  }

  lemma PatchReads(m: bytes, q: nat, size: nat, more: bytes)
    requires q + 4 + |more| <= |m| && size < TWO_32
    ensures U32At(Put(m, q, BE32(size) + more), q) == size
    ensures BE32(size) + [] == BE32(size)
  {
    hide U32At, Put;
    PutHolds(m, q, BE32(size) + more);
    HoldsSplit(Put(m, q, BE32(size) + more), q, BE32(size), more);
    U32Holds(Put(m, q, BE32(size) + more), q, size);
  }

  // Before the write position, the terminator of an array changes nothing.
  lemma TerminatorOnly(w: State)
    requires Valid(w) && w.data + 7 <= CAPACITY
    ensures var w1 := EndEntry(BeginEntry(w).w).w;
            && Valid(w1) && w1.arrayOffset == w.arrayOffset && w.data <= w1.data <= w.data + 7
            && forall i :: 0 <= i < w.data ==> w1.mem[i] == w.mem[i]
  {
    var w0 := BeginEntry(w).w;
    PatchOnly(w.mem, w.data, [TYPE_ENTRY]);
    PatchOnly(w0.mem, w.data + 1, BE32(w0.data - w0.entryOffset + 1) + BE16(w0.entryCount));
  }

  /** After any calls up to its end call: the end call reports success, and it
      patches the size bytes of the open record, with the record's length, if
      and only if no begin call of that level was made in between. Otherwise
      the record's own size bytes keep what they held. */
  lemma EndHitsOwnSize(level: Level, w: State, p: nat, calls: seq<Call>)
    requires OpenAt(level, w, p) && w.data + TotalCost(calls) + 7 <= CAPACITY && NoEnd(level, calls)
    ensures var w', own := Run(w, calls), p + level.Lead();
            var e := level.End(w');
            && e.status == STATUS_OK && !level.Open(e.w)
            && (level.Offset(w') == own <==> NoBegin(level, calls))
            && (NoBegin(level, calls) ==> U32At(e.w.mem, own) == e.w.data - p)
            && (!NoBegin(level, calls) ==> e.w.mem[own..own + 4] == w'.mem[own..own + 4])
  {
    hide Run, NoBegin, U32At, Patches, EndEvent, EndArray, EndEntry;
    OffsetStays(level, w, calls);
    var w' := Run(w, calls);
    EndPatches(level, w');
    PatchedWhere(level, w', level.End(w').w, level.Offset(w'), p + level.Lead());
  }

  lemma PatchedWhere(level: Level, w: State, e: State, q: nat, own: nat)
    requires Patches(level, w, e, q) && own + 4 <= w.data && (q == own || own + 4 <= q)
    ensures !level.Open(e)
    ensures q == own ==> U32At(e.mem, own) == e.data - own + level.Lead()
    ensures q != own ==> e.mem[own..own + 4] == w.mem[own..own + 4]
  {
    hide U32At;
  }

  /** Where the patch goes after a begin call that was not the last word: behind
      the write position that call found, over whatever has been written there
      since. */
  lemma EndHitsLastBegin(level: Level, w: State, before: seq<Call>, c: Call, after: seq<Call>)
    requires Valid(w) && level.Open(w) && level.Offset(w) <= w.data + level.Lead()
    requires w.data + TotalCost(before) + Cost(c) + TotalCost(after) + 7 <= CAPACITY
    requires NoEnd(level, before) && level.Begins(c) && NoEnd(level, after) && NoBegin(level, after)
    ensures w.data + TotalCost(before + ([c] + after)) + 7 <= CAPACITY
    ensures var w', q := Run(w, before + ([c] + after)), Run(w, before).data + level.Lead();
            level.Offset(w') == q && Patches(level, w', level.End(w').w, q)
  {
    hide Apply, NoBegin, Patches, EndEvent, EndArray, EndEntry, Run, TotalCost;
    var calls := before + ([c] + after);
    CostAppend(before, [c] + after);
    RunFirst(Run(w, before), c, after);
    RunAppend(w, before, [c] + after);
    OffsetStays(level, w, before);
    CallMoves(level, Run(w, before), c);
    OffsetStays(level, Apply(Run(w, before), c).w, after);
    EndPatches(level, Run(w, calls));
  }

  lemma RunFirst(w: State, c: Call, after: seq<Call>)
    requires Valid(w) && w.data + Cost(c) + TotalCost(after) <= CAPACITY
    ensures TotalCost([c] + after) == Cost(c) + TotalCost(after)
    ensures Run(w, [c] + after) == Run(Apply(w, c).w, after)
  {
    hide Apply;
    assert ([c] + after)[0] == c && ([c] + after)[1..] == after;
  }

  // Every open record of a well-bracketed run is one of these.
  lemma TiledOpens(w: State, doc: Doc)
    requires Tiled(w, doc)
    ensures doc.open.InEvent? ==> OpenAt(EventLevel, w, EventStart(doc))
    ensures doc.open.InArray? ==> OpenAt(ArrayLevel, w, ArrayStart(doc))
    ensures doc.open.InEntry? ==> OpenAt(EntryLevel, w, EntryStart(doc))
  {
    hide EncEvents, EncItems, EncEntries, EncFields, Holds;
  }

  /** A begin-event inside an open event is rejected and leaves bytes and write
      position alone; but, whatever is called next, the end of the event then
      patches 3 bytes behind that position and leaves the event's own size
      bytes as they are. */
  lemma RejectedBegin(w: State, doc: Doc, event: int, after: seq<Call>)
    requires Tiled(w, doc) && doc.open.InEvent? && w.data + 30 + TotalCost(after) + 7 <= CAPACITY
    requires NoEnd(EventLevel, after) && NoBegin(EventLevel, after)
    ensures var rejected := BeginEvent(w, event);
            && rejected.status == STATUS_FAIL && rejected.w.mem == w.mem && rejected.w.data == w.data
            && var w', own := Run(rejected.w, after), EventStart(doc) + 3;
               var ended := EndEvent(w');
               && ended.status == STATUS_OK && Patches(EventLevel, w', ended.w, w.data + 3)
               && ended.w.mem[own..own + 4] == w'.mem[own..own + 4]
  {
    hide Tiled, Patches, EndEvent, Run, NoBegin;
    TiledOpens(w, doc);
    var rejected := BeginEvent(w, event).w;
    OffsetStays(EventLevel, rejected, after);
    var w' := Run(rejected, after);
    EventPatches(w');
    PatchedWhere(EventLevel, w', EndEvent(w').w, w.data + 3, EventStart(doc) + 3);
  }
}
