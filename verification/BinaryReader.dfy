/** The binary reader: event iteration, scoped search by id, value conversion
    and the packed array iterator, as functions of the memory and the reader's
    pointers. Pointers are offsets into the stream buffer and 0 is null: no
    record starts inside the 4-byte header. */
module BinaryReader {
  import opened Bytes
  import opened Format

  const OK: int := 0x100
  const CONVERTED: int := 0x200
  const ILLEGAL_TYPE: int := 0x300
  const NOT_FOUND: int := 0x400

  datatype Reader = Reader(data: int, dataStart: int, dataEnd: int, nextEvent: int)

  // pd_binary_reader_init
  const NO_STREAM: Reader := Reader(0, 0, 0, 0)

  function InitStream(size: int): Reader {
    Reader(4, 4, size, 0)
  }

  function Rewind(r: Reader): Reader {
    r.(data := r.dataStart, nextEvent := 0)
  }

  datatype EventRead = EventRead(r: Reader, event: int)

  function GetEvent(m: bytes, r: Reader): EventRead {
    if r.data == 0 || r.nextEvent >= r.dataEnd then
      EventRead(r, 0)
    else
      var p := if r.nextEvent == 0 then r.data else r.nextEvent;
      if p >= r.dataEnd || At(m, p) != TYPE_EVENT then
        EventRead(r, 0)
      else
        EventRead(r.(nextEvent := p + ToS32(U32At(m, p + 3)), data := p + 7), U16At(m, p + 1))
  }

  predicate LongSized(code: byte) {
    code == TYPE_DATA || code == TYPE_ARRAY
  }

  function RecordSize(m: bytes, p: int): (size: int)
    ensures size >= 0
  {
    if LongSized(At(m, p)) then U32At(m, p + 1) else U16At(m, p + 1)
  }

  function NameAt(m: bytes, p: int): int {
    if LongSized(At(m, p)) then p + 5 else p + 3
  }

  // A record whose id is NUL-terminated inside it.
  predicate WellSized(m: bytes, p: int) {
    && (if LongSized(At(m, p)) then 6 else 4) <= RecordSize(m, p)
    && NameAt(m, p) + CStrLen(m, NameAt(m, p)) < p + RecordSize(m, p)
  }

  function CStrLen(m: bytes, p: int): nat {
    if p < 0 then 0 else StrLen(m, p)
  }

  // [start, end) is a sequence of complete records.
  predicate Walkable(m: bytes, start: int, end: int)
    decreases end - start
  {
    start >= end ||
    (0 < start && WellSized(m, start) && start + RecordSize(m, start) <= end <= |m| &&
     Walkable(m, start + RecordSize(m, start), end))
  }

  function FindIdByRange(m: bytes, id: CString, start: int, end: int): (p: int)
    requires Walkable(m, start, end)
    ensures p == 0 || start <= p < end
    decreases end - start
  {
    if start >= end then 0
    else if StrEqAt(m, NameAt(m, start), id) then start
    else FindIdByRange(m, id, start + RecordSize(m, start), end)
  }

  type Iterator = it: int | 0 <= it < TWO_64

  function ScopeStart(r: Reader, it: Iterator): int {
    if it == 0 then r.data else r.dataStart + it / TWO_32
  }

  function ScopeEnd(r: Reader, it: Iterator): int {
    if it == 0 then r.nextEvent else ScopeStart(r, it) + it % TWO_32
  }

  predicate Searchable(m: bytes, r: Reader, it: Iterator) {
    Walkable(m, ScopeStart(r, it), ScopeEnd(r, it))
  }

  function FindId(m: bytes, r: Reader, id: CString, it: Iterator): int
    requires Searchable(m, r, it)
  {
    FindIdByRange(m, id, ScopeStart(r, it), ScopeEnd(r, it))
  }

  // Bytes 4..7 are combined as a signed int, so a set bit 31 extends upwards.
  function GetU64(m: bytes, p: int): (v: int)
    ensures 0 <= v < TWO_64
  {
    var low := U32At(m, p + 4);
    (if low >= TWO_31 then TWO_32 - 1 else U32At(m, p)) * TWO_32 + low
  }

  // What the getter for t returns, assigned to a variable of type t.
  function GetSame(t: NumType, m: bytes, p: int): int {
    match t
    case S8 => ToS8(At(m, p))
    case U8 => At(m, p)
    case S16 => ToS16(U16At(m, p))
    case U16 => U16At(m, p)
    case S32 => ToS32(U32At(m, p))
    case U32 => U32At(m, p)
    case S64 => ToS64(GetU64(m, p))
    case U64 => GetU64(m, p)
    case Float => U32At(m, p)
    case Double => GetU64(m, p)
  }

  // What a converting read fetches for a record of integer type t.
  function GetForConversion(t: NumType, m: bytes, p: int): int
    requires t.IsInteger()
  {
    match t
    case S8 => ToS8(At(m, p))
    case U8 => At(m, p)
    case S16 => U16At(m, p)
    case U16 => U16At(m, p)
    case S32 => ToS32(U32At(m, p))
    case U32 => ToS32(U32At(m, p))
    case S64 => GetU64(m, p)
    case U64 => GetU64(m, p)
  }

  function Cast(t: NumType, v: int): int
    requires t.IsInteger()
  {
    match t
    case S8 => ToS8(v)
    case U8 => v % TWO_8
    case S16 => ToS16(v)
    case U16 => v % TWO_16
    case S32 => ToS32(v)
    case U32 => v % TWO_32
    case S64 => ToS64(v)
    case U64 => v % TWO_64
  }

  // The out-parameter of a find: untouched, an integer (or the bits of a
  // float), or a value that went through a floating-point conversion.
  datatype Out = Untouched | Value(v: int) | ThroughFloat

  datatype Found = Found(status: int, out: Out)

  function TypeOf(code: byte): (t: NumType)
    requires 1 <= code < TYPE_END_NUMERIC
    ensures t.Code() == code
  {
    match code
    case 1 => S8 case 2 => U8 case 3 => S16 case 4 => U16 case 5 => S32
    case 6 => U32 case 7 => S64 case 8 => U64 case 9 => Float case _ => Double
  }

  function FindValue(m: bytes, r: Reader, target: NumType, id: CString, it: Iterator): Found
    requires Searchable(m, r, it)
  {
    var p := FindId(m, r, id, it);
    if p == 0 then Found(NOT_FOUND, Untouched) else ValueAt(m, p, target)
  }

  // The record at p read as a `target`.
  function ValueAt(m: bytes, p: int, target: NumType): Found {
    var code := At(m, p);
    if code == target.Code() then
      Found(OK + code, Value(GetSame(target, m, p + U16At(m, p + 1) - target.Width())))
    else if 0 < code < TYPE_END_NUMERIC then
      Convert(m, p + CStrLen(m, p + 3) + 4, TypeOf(code), target)
    else
      Found(ILLEGAL_TYPE + code, Untouched)
  }

  // A converted double is reported under the code of a float.
  function Convert(m: bytes, p: int, t: NumType, target: NumType): Found {
    if t.Double? then
      Found(CONVERTED + Float.Code(), ThroughFloat)
    else if t.Float? || !target.IsInteger() then
      Found(CONVERTED + t.Code(), ThroughFloat)
    else
      Found(CONVERTED + t.Code(), Value(Cast(target, GetForConversion(t, m, p))))
  }

  // A typed read of the record at p stays inside the stream.
  predicate PayloadInside(m: bytes, p: int, target: NumType) {
    var code := At(m, p);
    && 0 < p && p + 3 <= |m|
    && (code == target.Code() ==>
          target.Width() <= U16At(m, p + 1) && p + U16At(m, p + 1) <= |m|)
    && (0 < code < TYPE_END_NUMERIC ==>
          p + 4 + StrLen(m, p + 3) + TypeOf(code).Width() <= |m|)
  }

  datatype FoundString = FoundString(status: int, at: int)

  function FindString(m: bytes, r: Reader, id: CString, it: Iterator): FoundString
    requires Searchable(m, r, it)
  {
    var p := FindId(m, r, id, it);
    if p == 0 then FoundString(NOT_FOUND, 0) else StringAt(m, p)
  }

  function StringAt(m: bytes, p: int): FoundString {
    if At(m, p) != TYPE_STRING then FoundString(ILLEGAL_TYPE + At(m, p), 0)
    else FoundString(OK + TYPE_STRING, p + 3 + CStrLen(m, p + 3) + 1)
  }

  datatype FoundData = FoundData(status: int, at: int, size: int)

  function FindData(m: bytes, r: Reader, id: CString, it: Iterator): FoundData
    requires Searchable(m, r, it)
  {
    var p := FindId(m, r, id, it);
    if p == 0 then FoundData(NOT_FOUND, 0, 0) else DataAt(m, p)
  }

  function DataAt(m: bytes, p: int): FoundData {
    if At(m, p) != TYPE_DATA then FoundData(ILLEGAL_TYPE + At(m, p), 0, 0)
    else
      var idLength := CStrLen(m, p + 5) + 1;
      FoundData(OK + TYPE_DATA, p + 5 + idLength, (ToS32(U32At(m, p + 1)) - idLength - 5) % TWO_64)
  }

  // An array iterator, (p - dataStart) << 32 in 64 bits: offset of the scope in
  // the upper 32 bits, its size in the lower.
  function OffsetUpper(r: Reader, p: int): (it: Iterator)
    ensures it % TWO_32 == 0 && it <= TWO_64 - TWO_32
  {
    (p - r.dataStart) % TWO_32 * TWO_32
  }

  datatype FoundArray = FoundArray(status: int, it: Iterator)

  function FindArray(m: bytes, r: Reader, id: CString, it: Iterator): FoundArray
    requires Searchable(m, r, it)
  {
    var p := FindId(m, r, id, it);
    if p == 0 then FoundArray(NOT_FOUND, 0) else ArrayAt(m, r, p)
  }

  function ArrayAt(m: bytes, r: Reader, p: int): FoundArray {
    if At(m, p) != TYPE_ARRAY then FoundArray(ILLEGAL_TYPE + At(m, p), 0)
    else FoundArray(OK + TYPE_ARRAY, OffsetUpper(r, p + 5 + CStrLen(m, p + 5) + 1))
  }

  datatype NextRead = NextRead(it: Iterator, entries: int)

  // The first step has size 0, so it "skips" to the first entry itself.
  function NextEntry(m: bytes, r: Reader, it: Iterator): NextRead {
    var p := r.dataStart + it / TWO_32 + it % TWO_32;
    if At(m, p) != TYPE_ENTRY then
      NextRead(it, -1)
    else
      var size := U32At(m, p + 1);
      NextRead(OffsetUpper(r, p + 7) + (size - 7) % TWO_32, U16At(m, p + 5))
  }
}
