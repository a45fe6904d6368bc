/** The reader where there is nothing to read, and the numbers its statuses are. */
module Malformed {
  import opened Bytes
  import opened Format
  import opened BinaryReader
  import opened Codec
  import opened RoundTrip

  // Where the next event would start.
  function NextAt(r: Reader): int {
    if r.nextEvent == 0 then r.data else r.nextEvent
  }

  /** Without a stream, past its end, or before anything that is no event, reading an
      event gives 0 and leaves the reader where it is, however often. */
  lemma NothingToRead(m: bytes, r: Reader)
    requires r.data == 0 || r.nextEvent >= r.dataEnd || NextAt(r) >= r.dataEnd || At(m, NextAt(r)) != 14
    ensures GetEvent(m, r) == EventRead(r, 0)
  {
  }

  lemma EmptyStreams(m: bytes, size: int)
    ensures GetEvent(m, NO_STREAM) == EventRead(NO_STREAM, 0)
    ensures size <= 4 ==> GetEvent(m, InitStream(size)) == EventRead(InitStream(size), 0)
  {
  }

  /** Stepping on from anything but an entry gives -1 and keeps the iterator. */
  lemma NoEntry(m: bytes, r: Reader, it: Iterator)
    ensures At(m, r.dataStart + it / TWO_32 + it % TWO_32) != 16 <==> NextEntry(m, r, it) == NextRead(it, -1)
  {
  }

  // The part of a status that says how a find went: 1 as asked for, 2 converted,
  // 3 another type, 4 not there.
  function Kind(status: int): int {
    status / 0x100
  }

  /** The status of every find of a number, by what was written. */
  lemma NumberStatus(m: bytes, r: Reader, it: Iterator, items: seq<Item>, id: CString, target: NumType)
    requires InScope(m, r, it, items)
    ensures Searchable(m, r, it)
    ensures var status, j := FindValue(m, r, target, id, it).status, First(items, id, 0);
            if j == |items| then status == 0x400
            else if items[j].One? && items[j].f.Num? then Kind(status) == if items[j].f.t == target then 1 else 2
            else Kind(status) == 3 && status % 0x100 == TypeCode(items[j])
  {
    hide InScope, FindId, Searchable, ReadBack, ValueAt;
    FindsValueAlways(m, r, it, items, id, target);
  }

  /** And of the other finds. */
  lemma OtherStatus(m: bytes, r: Reader, it: Iterator, items: seq<Item>, id: CString)
    requires InScope(m, r, it, items) && r.dataStart == 4
    ensures Searchable(m, r, it)
    ensures var j := First(items, id, 0);
            && FindString(m, r, id, it).status == Expected(items, j, 12)
            && FindData(m, r, id, it).status == Expected(items, j, 13)
            && FindArray(m, r, id, it).status == Expected(items, j, 15)
  {
    hide InScope, FindId, Searchable, FindString, FindData, FindArray, Iterating, Holds;
    FindsStringAlways(m, r, it, items, id);
    FindsDataAlways(m, r, it, items, id);
    FindsArrayAlways(m, r, it, items, id);
  }

  function Expected(items: seq<Item>, j: nat, code: int): int
    requires j <= |items|
  {
    if j == |items| then 0x400 else if TypeCode(items[j]) == code then 0x100 + code else 0x300 + TypeCode(items[j])
  }
}
