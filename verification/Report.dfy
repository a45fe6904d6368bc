/** What the fake target tells the debugger when it stops or steps: where it is,
    its registers and a listing; and that the debugger reads exactly that. */
module Report {
  import opened Backend
  import opened Bytes
  import opened Format
  import opened BinaryWriter
  import opened BinaryReader
  import opened Codec
  import opened RoundTrip
  import opened Events
  import opened Serialise
  import C = Cpu

  const SET_REGISTERS: int := 9
  const SET_EXCEPTION_LOCATION: int := 15
  const SET_DISASSEMBLY: int := 17

  // "address"
  const ADDRESS: CString := [97, 100, 100, 114, 101, 115, 115]
  // "address_size"
  const ADDRESS_SIZE: CString := [97, 100, 100, 114, 101, 115, 115, 95, 115, 105, 122, 101]
  // "registers"
  const REGISTERS: CString := [114, 101, 103, 105, 115, 116, 101, 114, 115]
  // "name"
  const NAME: CString := [110, 97, 109, 101]
  // "size"
  const SIZE: CString := [115, 105, 122, 101]
  // "read_only"
  const READ_ONLY: CString := [114, 101, 97, 100, 95, 111, 110, 108, 121]
  // "register"
  const REGISTER: CString := [114, 101, 103, 105, 115, 116, 101, 114]
  // "address_start"
  const ADDRESS_START: CString := [97, 100, 100, 114, 101, 115, 115, 95, 115, 116, 97, 114, 116]
  // "instruction_count"
  const INSTRUCTION_COUNT: CString := [105, 110, 115, 116, 114, 117, 99, 116, 105, 111, 110, 95, 99, 111, 117, 110, 116]
  // "string_buffer"
  const STRING_BUFFER: CString := [115, 116, 114, 105, 110, 103, 95, 98, 117, 102, 102, 101, 114]

  // "pc"
  const PC_NAME: CString := [112, 99]
  // "sp"
  const SP_NAME: CString := [115, 112]
  // "a"
  const A_NAME: CString := [97]
  // "x"
  const X_NAME: CString := [120]
  // "y"
  const Y_NAME: CString := [121]
  // "status"
  const STATUS_NAME: CString := [115, 116, 97, 116, 117, 115]

  // The registers a debugger is shown.
  datatype Shown = Shown(pc: C.word, sp: byte, a: byte, x: byte, y: byte, status: bv8)

  function Show(c: C.Cpu): Shown {
    Shown(c.pc, c.sp, c.a, c.x, c.y, c.status)
  }

  // One register as writeRegister gets it.
  datatype Register = Register(name: CString, wide: bool, value: int, readOnly: bool) {
    function Type(): NumType {
      if wide then NumType.U16 else NumType.U8
    }
  }

  function Registers(c: Shown): (rs: seq<Register>)
    ensures |rs| == 6
  {
    [Register(PC_NAME, true, c.pc, true), Register(SP_NAME, false, c.sp, false), Register(A_NAME, false, c.a, false),
     Register(X_NAME, false, c.x, false), Register(Y_NAME, false, c.y, false),
     Register(STATUS_NAME, false, C.FromBits(c.status), true)]
  }

  // writeRegister
  function RegisterFields(r: Register): seq<Field> {
    [Str(NAME, r.name), Num(SIZE, NumType.U8, if r.wide then 2 else 1)] +
    (if r.readOnly then [Num(READ_ONLY, NumType.U8, 1)] else []) + [Num(REGISTER, r.Type(), r.value)]
  }

  function RegisterEntries(rs: seq<Register>): (es: seq<seq<Field>>)
    ensures |es| == |rs| && forall j :: 0 <= j < |rs| ==> es[j] == RegisterFields(rs[j])
  {
    seq(|rs|, j requires 0 <= j < |rs| => RegisterFields(rs[j]))
  }

  // setExceptionLocation, setRegisters and setDisassembly
  function LocationEvent(c: Shown): Event {
    Event(SET_EXCEPTION_LOCATION, [One(Num(ADDRESS, NumType.U16, c.pc)), One(Num(ADDRESS_SIZE, NumType.U8, 2))])
  }

  function RegistersEvent(c: Shown): Event {
    Event(SET_REGISTERS, [Arr(REGISTERS, RegisterEntries(Registers(c)))])
  }

  function ListingEvent(text: CString): Event {
    Event(SET_DISASSEMBLY, [One(Num(ADDRESS_START, NumType.U16, 0)), One(Num(INSTRUCTION_COUNT, NumType.U16, 10)),
                            One(Str(STRING_BUFFER, text))])
  }

  // sendState
  function StateEvents(c: Shown, text: CString): seq<Event> {
    [LocationEvent(c), RegistersEvent(c), ListingEvent(text)]
  }

  function StateCalls(c: Shown, text: CString): seq<Call> {
    EventCalls(StateEvents(c, text))
  }

  // What doAction writes: the state when it stops or steps.
  function Reply(action: int, c: Shown, text: CString): seq<Call> {
    if action == ACTION_BREAK || action == ACTION_STEP then StateCalls(c, text) else []
  }

  /** The state is written for a break and a step, and nothing for anything else. */
  lemma RepliesToStops(action: int, c: Shown, text: CString)
    ensures action == 2 || action == 4 ==> Reply(action, c, text) == StateCalls(c, text) != []
    ensures action != 2 && action != 4 ==> Reply(action, c, text) == []
  {
    hide ItemCalls;
  }

  // The values are of their types.
  predicate Sound(r: Register) {
    r.Type().Fits(r.value) && |r.name| < 16
  }

  lemma RegistersSound(c: Shown)
    ensures forall j :: 0 <= j < 6 ==> Sound(Registers(c)[j])
  {
  }

  lemma RegisterStorable(r: Register)
    requires Sound(r)
    ensures StorableFields(RegisterFields(r)) && SmallFields(RegisterFields(r))
  {
  }

  lemma EventsStorable(c: Shown, text: CString)
    requires |text| < 640
    ensures StorableEvent(LocationEvent(c)) && SmallEvent(LocationEvent(c))
    ensures StorableEvent(RegistersEvent(c)) && SmallEvent(RegistersEvent(c))
    ensures StorableEvent(ListingEvent(text)) && SmallEvent(ListingEvent(text))
  {
    hide RegisterFields, StorableFields, SmallFields, Sound, Registers;
    RegistersSound(c);
    forall j | 0 <= j < 6
      ensures StorableFields(RegisterFields(Registers(c)[j])) && SmallFields(RegisterFields(Registers(c)[j]))
    {
      RegisterStorable(Registers(c)[j]);
    }
  }

  lemma StateWritten(w: State, c: Shown, text: CString)
    requires Fresh(w) && |text| < 640 && HEADER + TotalCost(StateCalls(c, text)) <= CAPACITY
    ensures Complete(w, StateCalls(c, text))
    ensures Written(w, StateCalls(c, text)) == Numbered(StateEvents(c, text), w.requestId)
  {
    hide LocationEvent, RegistersEvent, ListingEvent, StorableEvent, SmallEvent, EventCalls, TotalCost,
         Complete, Written;
    EventsStorable(c, text);
    EveryStreamIsWritten(w, StateEvents(c, text));
  }

  // A find of this type returns this value, or this string.
  predicate ReadsValue(m: bytes, r: Reader, it: Iterator, id: CString, t: NumType, v: int) {
    Searchable(m, r, it) && FindValue(m, r, t, id, it) == Found(OK + t.Code(), Value(v))
  }

  predicate ReadsString(m: bytes, r: Reader, it: Iterator, id: CString, s: CString) {
    && Searchable(m, r, it)
    && var got := FindString(m, r, id, it);
       got.status == OK + TYPE_STRING && got.at > 0 && Holds(m, got.at, s + [0])
  }

  lemma ShortReads(t: NumType, v: int)
    requires (t.U8? || t.U16?) && t.Fits(v)
    ensures ReadBack(t, t, v) == v
  {
    hide ReadBack;
    ReadBackExact(t, t, v);
  }

  lemma ValueRead(m: bytes, r: Reader, it: Iterator, items: seq<Item>, k: nat, t: NumType, v: int)
    requires k < |items| && items[k].One? && items[k].f.Num? && items[k].f.t == t && items[k].f.v == v
    requires forall i :: 0 <= i < k ==> items[i].Id() != items[k].Id()
    requires (t.U8? || t.U16?) && t.Fits(v) && Findable(m, r, it, items, items[k].Id(), t)
    ensures ReadsValue(m, r, it, items[k].Id(), t, v)
  {
    hide ReadBack, Searchable, FindValue, FindsString, FindsData, FindsArray;
    ShortReads(t, v);
  }

  lemma StringRead(m: bytes, r: Reader, it: Iterator, items: seq<Item>, k: nat, target: NumType)
    requires k < |items| && items[k].One? && items[k].f.Str?
    requires forall i :: 0 <= i < k ==> items[i].Id() != items[k].Id()
    requires Findable(m, r, it, items, items[k].Id(), target)
    ensures ReadsString(m, r, it, items[k].Id(), items[k].f.s)
  {
    hide Searchable, FindString, FindsValue, FindsData, FindsArray, Holds;
  }

  // The reader after it has returned event k of the finalised reply.
  function ReaderAt(w: State, calls: seq<Call>, k: nat): EventRead
    requires BinaryWriter.Valid(w) && w.data + TotalCost(calls) <= CAPACITY
  {
    var m := Finalize(Run(w, calls)).mem;
    GetEvent(m, After(m, InitStream(GetSize(Run(w, calls))), k))
  }

  /** The debugger reads where the target has stopped. */
  lemma LocationRead(w: State, c: Shown, text: CString)
    requires Fresh(w) && |text| < 640 && HEADER + TotalCost(StateCalls(c, text)) <= CAPACITY
    ensures var m, got := Finalize(Run(w, StateCalls(c, text))).mem, ReaderAt(w, StateCalls(c, text), 0);
            && got.event == 15 && ReadsValue(m, got.r, 0, ADDRESS, NumType.U16, c.pc)
            && ReadsValue(m, got.r, 0, ADDRESS_SIZE, NumType.U8, 2)
  {
    hide StateCalls, TotalCost, Findable, ReadsValue, GetEvent, Run, Finalize, Complete, Written,
         RegistersEvent, ListingEvent;
    StateWritten(w, c, text);
    EveryFind(w, StateCalls(c, text), 0, ADDRESS, NumType.U16);
    EveryFind(w, StateCalls(c, text), 0, ADDRESS_SIZE, NumType.U8);
    var m, got := Finalize(Run(w, StateCalls(c, text))).mem, ReaderAt(w, StateCalls(c, text), 0);
    var items := Numbered(StateEvents(c, text), w.requestId)[0].items;
    assert items[0].Id() == REQUEST_ID && items[1].Id() == ADDRESS && items[2].Id() == ADDRESS_SIZE;
    assert |REQUEST_ID| == 11 && |ADDRESS| == 7 && |ADDRESS_SIZE| == 12;
    ValueRead(m, got.r, 0, items, 1, NumType.U16, c.pc);
    ValueRead(m, got.r, 0, items, 2, NumType.U8, 2);
  }

  /** It reads the listing. */
  lemma ListingRead(w: State, c: Shown, text: CString)
    requires Fresh(w) && |text| < 640 && HEADER + TotalCost(StateCalls(c, text)) <= CAPACITY
    ensures var m, got := Finalize(Run(w, StateCalls(c, text))).mem, ReaderAt(w, StateCalls(c, text), 2);
            && got.event == 17 && ReadsString(m, got.r, 0, STRING_BUFFER, text)
            && ReadsValue(m, got.r, 0, ADDRESS_START, NumType.U16, 0)
            && ReadsValue(m, got.r, 0, INSTRUCTION_COUNT, NumType.U16, 10)
  {
    hide StateCalls, TotalCost, Findable, ReadsString, ReadsValue, GetEvent, Run, Finalize, Complete, Written,
         RegistersEvent, LocationEvent;
    StateWritten(w, c, text);
    EveryFind(w, StateCalls(c, text), 2, STRING_BUFFER, NumType.U16);
    EveryFind(w, StateCalls(c, text), 2, ADDRESS_START, NumType.U16);
    EveryFind(w, StateCalls(c, text), 2, INSTRUCTION_COUNT, NumType.U16);
    var m, got := Finalize(Run(w, StateCalls(c, text))).mem, ReaderAt(w, StateCalls(c, text), 2);
    var items := Numbered(StateEvents(c, text), w.requestId)[2].items;
    assert items[0].Id() == REQUEST_ID && items[1].Id() == ADDRESS_START && items[2].Id() == INSTRUCTION_COUNT;
    assert items[3].Id() == STRING_BUFFER;
    assert |REQUEST_ID| == 11 && |INSTRUCTION_COUNT| == 17 && |STRING_BUFFER| == 13 && |ADDRESS_START| == 13;
    assert ADDRESS_START[0] != STRING_BUFFER[0];
    StringRead(m, got.r, 0, items, 3, NumType.U16);
    ValueRead(m, got.r, 0, items, 1, NumType.U16, 0);
    ValueRead(m, got.r, 0, items, 2, NumType.U16, 10);
  }

  // Each entry of the array as the register it was written for.
  lemma RegisterRead(w: State, c: Shown, text: CString, j: nat)
    requires Fresh(w) && |text| < 640 && HEADER + TotalCost(StateCalls(c, text)) <= CAPACITY && j < 6
    ensures var m, got := Finalize(Run(w, StateCalls(c, text))).mem, ReaderAt(w, StateCalls(c, text), 1);
            got.event == SET_REGISTERS && ShowsRegister(m, got.r, j, Registers(c)[j])
  {
    hide StateCalls, TotalCost, StepFinds, EntryShows, ReaderAt, Run, Finalize, Complete, Written,
         LocationEvent, RegistersEvent, ListingEvent, Registers, RegisterFields, HasArray, Entries, Sound,
         RegisterEntries;
    StateWritten(w, c, text);
    RegistersSound(c);
    RegistersFound(c, w.requestId, text);
    var reg := Registers(c)[j];
    StepsFind(w, StateCalls(c, text), 1, REGISTERS, j, REGISTER, reg.Type());
    StepsFind(w, StateCalls(c, text), 1, REGISTERS, j, NAME, reg.Type());
    StepsFind(w, StateCalls(c, text), 1, REGISTERS, j, SIZE, NumType.U8);
    StepsFind(w, StateCalls(c, text), 1, REGISTERS, j, READ_ONLY, NumType.U8);
    StepIsRead(Finalize(Run(w, StateCalls(c, text))).mem, ReaderAt(w, StateCalls(c, text), 1).r, REGISTERS, j, reg);
  }

  // The six entries, written out: pc as 16 bits, the others as 8, pc and status
  // marked read-only. The names are pc, sp, a, x, y and status.
  predicate ShowsMachine(m: bytes, r: Reader, c: C.Cpu) {
    && EntryShows(m, r, REGISTERS, 0, PC_NAME, NumType.U16, c.pc, 2, true)
    && EntryShows(m, r, REGISTERS, 1, SP_NAME, NumType.U8, c.sp, 1, false)
    && EntryShows(m, r, REGISTERS, 2, A_NAME, NumType.U8, c.a, 1, false)
    && EntryShows(m, r, REGISTERS, 3, X_NAME, NumType.U8, c.x, 1, false)
    && EntryShows(m, r, REGISTERS, 4, Y_NAME, NumType.U8, c.y, 1, false)
    && EntryShows(m, r, REGISTERS, 5, STATUS_NAME, NumType.U8, c.status as int, 1, true)
  }

  // Entry j shows register j of the list.
  predicate ShowsRegister(m: bytes, r: Reader, j: nat, reg: Register) {
    EntryShows(m, r, REGISTERS, j, reg.name, reg.Type(), reg.value, if reg.wide then 2 else 1, reg.readOnly)
  }

  lemma ShowsAll(m: bytes, r: Reader, c: C.Cpu)
    requires forall j :: 0 <= j < 6 ==> ShowsRegister(m, r, j, Registers(Show(c))[j])
    ensures ShowsMachine(m, r, c)
  {
    hide EntryShows;
    var rs := Registers(Show(c));
    assert ShowsRegister(m, r, 0, rs[0]) && ShowsRegister(m, r, 1, rs[1]) && ShowsRegister(m, r, 2, rs[2]);
    assert ShowsRegister(m, r, 3, rs[3]) && ShowsRegister(m, r, 4, rs[4]) && ShowsRegister(m, r, 5, rs[5]);
  }

  /** And it reads the registers of the machine, each in its place and under its
      own name. */
  lemma RegistersRead(w: State, c: C.Cpu, text: CString)
    requires Fresh(w) && |text| < 640 && HEADER + TotalCost(StateCalls(Show(c), text)) <= CAPACITY
    ensures var m, got := Finalize(Run(w, StateCalls(Show(c), text))).mem, ReaderAt(w, StateCalls(Show(c), text), 1);
            got.event == 9 && ShowsMachine(m, got.r, c)
  {
    hide StateCalls, TotalCost, ShowsMachine, ShowsRegister, ReaderAt, Run, Finalize, Registers, Show;
    var m, got := Finalize(Run(w, StateCalls(Show(c), text))).mem, ReaderAt(w, StateCalls(Show(c), text), 1);
    forall j | 0 <= j < 6
      ensures ShowsRegister(m, got.r, j, Registers(Show(c))[j])
    {
      RegisterRead(w, Show(c), text, j);
    }
    RegisterRead(w, Show(c), text, 0);
    ShowsAll(m, got.r, c);
  }

  // The step to entry j of this array reports these fields, and finds there are
  // answered from them.
  predicate StepFinds(m: bytes, r: Reader, name: CString, j: nat, fs: seq<Field>, id: CString, target: NumType) {
    && Searchable(m, r, 0)
    && var next := NextEntry(m, r, AfterEntries(m, r, FindArray(m, r, name, 0).it, j));
       next.entries == |fs| % TWO_16 && Findable(m, r, next.it, AsItems(fs), id, target)
  }

  // Entry j of this array is a register's: what each of its fields is found to be.
  predicate EntryShows(m: bytes, r: Reader, list: CString, j: nat, name: CString, t: NumType, v: int, size: int,
                       readOnly: bool) {
    && Searchable(m, r, 0)
    && var next := NextEntry(m, r, AfterEntries(m, r, FindArray(m, r, list, 0).it, j));
       && next.entries == (if readOnly then 4 else 3)
       && ReadsString(m, r, next.it, NAME, name)
       && ReadsValue(m, r, next.it, SIZE, NumType.U8, size)
       && ReadsValue(m, r, next.it, REGISTER, t, v)
       && (if readOnly then ReadsValue(m, r, next.it, READ_ONLY, NumType.U8, 1) else Absent(m, r, next.it, READ_ONLY))
  }

  predicate Absent(m: bytes, r: Reader, it: Iterator, id: CString) {
    Searchable(m, r, it) && FindValue(m, r, NumType.U8, id, it) == Found(NOT_FOUND, Untouched)
  }

  lemma StepsFind(w: State, calls: seq<Call>, k: nat, name: CString, j: nat, id: CString, target: NumType)
    requires Complete(w, calls) && k < |Written(w, calls)| && HasArray(Written(w, calls)[k], name)
    requires j < |Entries(Written(w, calls)[k], name)|
    ensures ReaderAt(w, calls, k).event == Written(w, calls)[k].id
    ensures StepFinds(Finalize(Run(w, calls)).mem, ReaderAt(w, calls, k).r, name, j,
                      Entries(Written(w, calls)[k], name)[j], id, target)
  {
    hide Findable, GetEvent, Run, Finalize, Searchable, FindArray, NextEntry, AfterEntries, HasArray, Entries, AsItems,
         After, InitStream;
    EveryFind(w, calls, k, name, target);
    EveryNestedFind(w, calls, k, name, j, id, target);
  }

  lemma StepIsRead(m: bytes, r: Reader, list: CString, j: nat, reg: Register)
    requires Sound(reg) && StepFinds(m, r, list, j, RegisterFields(reg), REGISTER, reg.Type())
    requires StepFinds(m, r, list, j, RegisterFields(reg), NAME, reg.Type())
    requires StepFinds(m, r, list, j, RegisterFields(reg), SIZE, NumType.U8)
    requires StepFinds(m, r, list, j, RegisterFields(reg), READ_ONLY, NumType.U8)
    ensures EntryShows(m, r, list, j, reg.name, reg.Type(), reg.value, if reg.wide then 2 else 1, reg.readOnly)
  {
    hide Findable, ReadsString, ReadsValue, Searchable, FindArray, NextEntry, AfterEntries, Sound, AsItems,
         RegisterFields, Absent;
    EntryRead(m, r, NextEntry(m, r, AfterEntries(m, r, FindArray(m, r, list, 0).it, j)).it, reg);
  }

  lemma RegistersFound(c: Shown, base: nat, text: CString)
    ensures var e := Numbered(StateEvents(c, text), base)[1];
            && e.id == SET_REGISTERS && HasArray(e, REGISTERS)
            && Entries(e, REGISTERS) == RegisterEntries(Registers(c))
  {
    hide Registers, RegisterEntries, LocationEvent, ListingEvent;
    var items := Numbered(StateEvents(c, text), base)[1].items;
    assert items[0].Id() == REQUEST_ID && items[1].Id() == REGISTERS;
    assert |REQUEST_ID| == 11 && |REGISTERS| == 9;
  }

  lemma EntryRead(m: bytes, r: Reader, it: Iterator, reg: Register)
    requires Sound(reg) && Findable(m, r, it, AsItems(RegisterFields(reg)), REGISTER, reg.Type())
    requires Findable(m, r, it, AsItems(RegisterFields(reg)), NAME, reg.Type())
    requires Findable(m, r, it, AsItems(RegisterFields(reg)), SIZE, NumType.U8)
    requires Findable(m, r, it, AsItems(RegisterFields(reg)), READ_ONLY, NumType.U8)
    ensures |RegisterFields(reg)| == if reg.readOnly then 4 else 3
    ensures ReadsString(m, r, it, NAME, reg.name) && ReadsValue(m, r, it, REGISTER, reg.Type(), reg.value)
    ensures ReadsValue(m, r, it, SIZE, NumType.U8, if reg.wide then 2 else 1)
    ensures if reg.readOnly then ReadsValue(m, r, it, READ_ONLY, NumType.U8, 1) else Absent(m, r, it, READ_ONLY)
  {
    hide Findable, ReadsString, ReadsValue, Absent;
    var items := AsItems(RegisterFields(reg));
    var last := |items| - 1;
    assert |NAME| == 4 && |SIZE| == 4 && |READ_ONLY| == 9 && |REGISTER| == 8 && NAME[0] != SIZE[0];
    assert items[0].Id() == NAME && items[1].Id() == SIZE && items[last].Id() == REGISTER;
    assert reg.readOnly ==> items[2].Id() == READ_ONLY;
    StringRead(m, r, it, items, 0, reg.Type());
    ValueRead(m, r, it, items, 1, NumType.U8, if reg.wide then 2 else 1);
    ValueRead(m, r, it, items, last, reg.Type(), reg.value);
    if reg.readOnly {
      ValueRead(m, r, it, items, 2, NumType.U8, 1);
    } else {
      NotThere(m, r, it, items, READ_ONLY);
    }
  }

  lemma NotThere(m: bytes, r: Reader, it: Iterator, items: seq<Item>, id: CString)
    requires Findable(m, r, it, items, id, NumType.U8) && forall i :: 0 <= i < |items| ==> items[i].Id() != id
    ensures Absent(m, r, it, id)
  {
    hide Searchable, FindValue, FindsString, FindsData, FindsArray;
  }

  // An id or name, letter by letter.
  predicate Spells(b: bytes, s: string) {
    |b| == |s| && forall i :: 0 <= i < |s| ==> b[i] == s[i] as int
  }

  lemma NamesSpelled()
    ensures Spells(NAME, "name") && Spells(SIZE, "size") && Spells(READ_ONLY, "read_only")
    ensures Spells(REGISTER, "register")
    ensures Spells(PC_NAME, "pc") && Spells(SP_NAME, "sp") && Spells(STATUS_NAME, "status")
    ensures Spells(A_NAME, "a") && Spells(X_NAME, "x") && Spells(Y_NAME, "y")
  {
  }

  lemma IdsSpelled()
    ensures Spells(ADDRESS, "address") && Spells(ADDRESS_SIZE, "address_size") && Spells(REGISTERS, "registers")
    ensures Spells(ADDRESS_START, "address_start")
    ensures Spells(INSTRUCTION_COUNT, "instruction_count") && Spells(STRING_BUFFER, "string_buffer")
    ensures Spells(REQUEST_ID, "_request_id")
  {
  }
}
