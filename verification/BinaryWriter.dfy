/** The binary writer as a state machine over its buffer: what each call does
    to the memory, the write position, the back-patch offsets and the flags. */
module BinaryWriter {
  import opened Bytes
  import opened Format

  const CAPACITY: nat := 2 * 1024 * 1024
  const HEADER: nat := 4

  const STATUS_OK: int := 0
  const STATUS_FAIL: int := 1

  // "_request_id"
  const REQUEST_ID: CString := [95, 114, 101, 113, 117, 101, 115, 116, 95, 105, 100]

  datatype State = State(
    mem: bytes,
    data: nat,
    requestId: nat,
    eventOffset: nat,
    arrayOffset: nat,
    entryOffset: nat,
    writingEvent: bool,
    writingArray: bool,
    writingEntry: bool,
    entryCount: nat)

  datatype Call =
    | EventBegin(event: int)
    | EventEnd
    | ArrayBegin(name: CString)
    | ArrayEnd
    | EntryBegin
    | EntryEnd
    | Write(f: Field)

  datatype Step = Step(w: State, status: int)

  predicate Valid(w: State) {
    && |w.mem| == CAPACITY
    && HEADER <= w.data <= CAPACITY
    && w.eventOffset + 4 <= CAPACITY
    && w.arrayOffset + 4 <= CAPACITY
    && w.entryOffset + 6 <= CAPACITY
    && w.requestId < TWO_64
    && w.entryCount < TWO_32
  }

  // Buffer space a call may use; the source never checks it.
  function Cost(c: Call): nat {
    match c
    case EventBegin(_) => 30
    case EventEnd => 0
    case ArrayBegin(name) => |name| + 6
    case ArrayEnd => 7
    case EntryBegin => 7
    case EntryEnd => 0
    case Write(f) => |EncField(f)|
  }

  function TotalCost(calls: seq<Call>): nat {
    if calls == [] then 0 else Cost(calls[0]) + TotalCost(calls[1..])
  }

  // A data record counts only the low 16 bits of the length of its id.
  function BlobSize(id: CString, d: bytes): (n: nat)
    ensures n <= |id| + 6 + |d|
  {
    LowPart(|id|, TWO_16);
    LowPart(|id| % TWO_16 + 6 + |d|, TWO_32);
    (|id| % TWO_16 + 6 + |d|) % TWO_32
  }

  lemma LowPart(a: nat, n: nat)
    requires n > 0
    ensures a % n <= a
  {
  }

  function FieldBytes(f: Field): (b: bytes)
    ensures |b| == |EncField(f)|
  {
    match f
    case Blob(id, d) => [TYPE_DATA] + BE32(BlobSize(id, d)) + (id + [0]) + d
    case _ => EncField(f)
  }

  function Advance(f: Field): (n: nat)
    ensures n <= |EncField(f)|
  {
    match f
    case Blob(id, d) => BlobSize(id, d)
    case _ => |EncField(f)|
  }

  function WriteField(w: State, f: Field): (w': State)
    requires Valid(w) && w.data + |EncField(f)| <= CAPACITY
    ensures Valid(w')
  {
    w.(mem := Put(w.mem, w.data, FieldBytes(f)),
       data := w.data + Advance(f),
       entryCount := if w.writingEntry then (w.entryCount + 1) % TWO_32 else w.entryCount)
  }

  // A rejected begin has already moved the offset and used up a request id.
  function BeginEvent(w: State, event: int): (s: Step)
    requires Valid(w) && w.data + 30 <= CAPACITY
    ensures Valid(s.w)
  {
    var w1 := w.(requestId := (w.requestId + 1) % TWO_64, eventOffset := w.data + 3);
    if w.writingEvent then
      Step(w1, STATUS_FAIL)
    else
      var w2 := w1.(mem := Put(w.mem, w.data, [TYPE_EVENT] + BE16(event)), writingEvent := true, data := w.data + 7);
      Step(WriteField(w2, Num(REQUEST_ID, U64, w.requestId)), w.requestId)
  }

  function EndEvent(w: State): (s: Step)
    requires Valid(w)
    ensures Valid(s.w)
  {
    if !w.writingEvent then
      Step(w, STATUS_FAIL)
    else
      Step(w.(mem := Put(w.mem, w.eventOffset, BE32(w.data - w.eventOffset + 3)), writingEvent := false), STATUS_OK)
  }

  function BeginEntry(w: State): (s: Step)
    requires Valid(w) && w.data + 7 <= CAPACITY
    ensures Valid(s.w)
  {
    var w1 := w.(entryOffset := w.data + 1);
    if w.writingEntry then
      Step(w1, STATUS_FAIL)
    else
      Step(w1.(mem := Put(w.mem, w.data, [TYPE_ENTRY]), writingEntry := true, entryCount := 0, data := w.data + 7),
           STATUS_OK)
  }

  function EndEntry(w: State): (s: Step)
    requires Valid(w)
    ensures Valid(s.w)
  {
    if !w.writingEntry then
      Step(w, STATUS_FAIL)
    else
      var size := w.data - w.entryOffset + 1;
      Step(w.(mem := Put(w.mem, w.entryOffset, BE32(size) + BE16(w.entryCount)), writingEntry := false), STATUS_OK)
  }

  function BeginArray(w: State, name: CString): (s: Step)
    requires Valid(w) && w.data + |name| + 6 <= CAPACITY
    ensures Valid(s.w)
  {
    var w1 := w.(arrayOffset := w.data + 1);
    if w.writingArray then
      Step(w1, STATUS_FAIL)
    else
      var mem1 := Put(w.mem, w.data, [TYPE_ARRAY]);
      Step(w1.(mem := Put(mem1, w.data + 5, name + [0]), writingArray := true, data := w.data + |name| + 6), STATUS_OK)
  }

  // Appends the terminating entry, then patches the size of the array.
  function EndArray(w: State): (s: Step)
    requires Valid(w) && w.data + 7 <= CAPACITY
    ensures Valid(s.w)
  {
    if !w.writingArray then
      Step(w, STATUS_FAIL)
    else
      var w1 := EndEntry(BeginEntry(w).w).w;
      var size := w1.data - w1.arrayOffset + 1;
      Step(w1.(mem := Put(w1.mem, w1.arrayOffset, BE32(size)), writingArray := false), STATUS_OK)
  }

  function Apply(w: State, c: Call): (s: Step)
    requires Valid(w) && w.data + Cost(c) <= CAPACITY
    ensures Valid(s.w) && s.w.data <= w.data + Cost(c)
  {
    match c
    case EventBegin(event) => BeginEvent(w, event)
    case EventEnd => EndEvent(w)
    case ArrayBegin(name) => BeginArray(w, name)
    case ArrayEnd => EndArray(w)
    case EntryBegin => BeginEntry(w)
    case EntryEnd => EndEntry(w)
    case Write(f) => Step(WriteField(w, f), STATUS_OK)
  }

  function Run(w: State, calls: seq<Call>): (w': State)
    requires Valid(w) && w.data + TotalCost(calls) <= CAPACITY
    ensures Valid(w') && w'.data <= w.data + TotalCost(calls)
    decreases |calls|
  {
    if calls == [] then w else Run(Apply(w, calls[0]).w, calls[1..])
  }

  // The size without the 4-byte header.
  function GetSize(w: State): int {
    w.data - HEADER
  }

  function Finalize(w: State): (w': State)
    requires Valid(w)
    ensures Valid(w')
  {
    w.(mem := Put(w.mem, 0, BE32(GetSize(w) + 4)))
  }

  function Initial(mem: bytes): (w: State)
    requires |mem| == CAPACITY
    ensures Valid(w)
  {
    State(mem, HEADER, 1, 0, 0, 0, false, false, false, 0)
  }

  // Everything but the buffer and the request counter starts afresh.
  function Reset(w: State): (w': State)
    requires Valid(w)
    ensures Valid(w')
  {
    Initial(w.mem).(requestId := w.requestId)
  }
}
