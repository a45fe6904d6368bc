/** The reader as the source has it: an object of pointers into a stream it
    does not own. Each method is proved against module BinaryReader, and reads
    no byte outside the stream. */
module ReaderObject {
  import opened Bytes
  import opened Format
  import R = BinaryReader

  class Reader {
    var stream: array?<byte>
    var data: int
    var dataStart: int
    var dataEnd: int
    var nextEvent: int

    ghost function Mem(): bytes
      reads this, stream
    {
      if stream == null then [] else stream[..]
    }

    ghost function Abs(): R.Reader
      reads this
    {
      R.Reader(data, dataStart, dataEnd, nextEvent)
    }

    constructor ()
      ensures Abs() == R.NO_STREAM && stream == null
    {
      stream, data, dataStart, dataEnd, nextEvent := null, 0, 0, 0, 0;
    }

    // pd_binary_reader_init_stream
    method InitStream(buffer: array?<byte>, size: int)
      modifies this
      ensures stream == buffer && Abs() == R.InitStream(size)
    {
      stream := buffer;
      dataStart := 4;
      data := dataStart;
      dataEnd := size;
      nextEvent := 0;
    }

    // pd_binary_reader_reset
    method Reset()
      modifies this
      ensures stream == old(stream) && Abs() == R.Rewind(old(Abs()))
    {
      data := dataStart;
      nextEvent := 0;
    }

    // n bytes at p lie inside the stream.
    predicate Inside(p: int, n: nat)
      reads this
    {
      stream != null && 0 <= p && p + n <= stream.Length
    }

    function U8(p: int): (v: int)
      requires Inside(p, 1)
      reads this, stream
      ensures v == At(Mem(), p)
    {
      stream[p]
    }

    function U16(p: int): (v: int)
      requires Inside(p, 2)
      reads this, stream
      ensures v == U16At(Mem(), p)
    {
      stream[p] * TWO_8 + stream[p + 1]
    }

    function U32(p: int): (v: int)
      requires Inside(p, 4)
      reads this, stream
      ensures v == U32At(Mem(), p)
    {
      stream[p] * TWO_24 + stream[p + 1] * TWO_16 + stream[p + 2] * TWO_8 + stream[p + 3]
    }

    function U64(p: int): (v: int)
      requires Inside(p, 8)
      reads this, stream
      ensures v == R.GetU64(Mem(), p)
    {
      var low := U32(p + 4);
      (if low >= TWO_31 then TWO_32 - 1 else U32(p)) * TWO_32 + low
    }

    // The header of the next event, if there is one, lies inside the stream.
    ghost predicate EventInside()
      reads this, stream
    {
      var p := if nextEvent == 0 then data else nextEvent;
      data != 0 && nextEvent < dataEnd && p < dataEnd ==> Inside(p, 7)
    }

    method GetEvent() returns (event: int)
      requires EventInside()
      modifies this
      ensures stream == old(stream)
      ensures R.EventRead(Abs(), event) == R.GetEvent(Mem(), old(Abs()))
    {
      if data == 0 {
        return 0;
      }
      if nextEvent >= dataEnd {
        return 0;
      }
      var p := if nextEvent == 0 then data else nextEvent;
      if p >= dataEnd {
        return 0;
      }
      if U8(p) != TYPE_EVENT {
        return 0;
      }
      event := U16(p + 1);
      nextEvent := p + ToS32(U32(p + 3));
      data := p + 7;
    }

    // strlen
    method StringLength(p: int) returns (n: nat)
      requires 0 <= p && p + StrLen(Mem(), p) < |Mem()|
      ensures n == StrLen(Mem(), p)
    {
      n := 0;
      while U8(p + n) != 0
        invariant n <= StrLen(Mem(), p)
        decreases StrLen(Mem(), p) - n
      {
        n := n + 1;
      }
    }

    // strcmp(...) == 0
    method SameString(p: int, id: CString) returns (same: bool)
      requires 0 <= p && p + StrLen(Mem(), p) < |Mem()|
      ensures same == StrEqAt(Mem(), p, id)
    {
      var i := 0;
      while i < |id| && U8(p + i) == id[i]
        invariant 0 <= i <= |id| && i <= StrLen(Mem(), p)
        invariant forall k :: 0 <= k < i ==> At(Mem(), p + k) == id[k]
      {
        i := i + 1;
      }
      same := i == |id| && U8(p + i) == 0;
      if same {
        assert Mem()[p..p + |id| + 1] == id + [0];
      } else if StrEqAt(Mem(), p, id) {
        HoldsByte(Mem(), p, id + [0], i);
        assert false;
      }
    }

    /** Searches [start, end) record by record. */
    method FindIdByRange(id: CString, from: int, end: int) returns (found: int)
      requires R.Walkable(Mem(), from, end)
      ensures found == R.FindIdByRange(Mem(), id, from, end)
    {
      hide R.Walkable, R.WellSized, R.FindIdByRange, StrLen, StrEqAt;
      var start := from;
      while start < end
        invariant R.Walkable(Mem(), start, end)
        invariant R.FindIdByRange(Mem(), id, start, end) == R.FindIdByRange(Mem(), id, from, end)
        decreases end - start
      {
        SearchStep(Mem(), id, start, end);
        var size;
        var same;
        var typeId := U8(start);
        if typeId == TYPE_DATA || typeId == TYPE_ARRAY {
          size := U32(start + 1);
          same := SameString(start + 5, id);
        } else {
          size := U16(start + 1);
          same := SameString(start + 3, id);
        }
        if same {
          return start;
        }
        start := start + size;
      }
      SearchEnd(Mem(), id, start, end);
      return 0;
    }

    ghost predicate Searchable(it: R.Iterator)
      reads this, stream
    {
      R.Searchable(Mem(), Abs(), it)
    }

    method FindId(id: CString, it: R.Iterator) returns (found: int)
      requires Searchable(it)
      ensures found == R.FindId(Mem(), Abs(), id, it)
    {
      if it == 0 {
        found := FindIdByRange(id, data, nextEvent);
      } else {
        var start := dataStart + it / TWO_32;
        found := FindIdByRange(id, start, start + it % TWO_32);
      }
    }

    method FindValue(target: NumType, id: CString, it: R.Iterator) returns (got: R.Found)
      requires Searchable(it)
      requires var p := R.FindId(Mem(), Abs(), id, it); p == 0 || R.PayloadInside(Mem(), p, target)
      ensures got == R.FindValue(Mem(), Abs(), target, id, it)
    {
      hide R.Walkable, R.FindId, R.GetSame, R.Convert, StrLen, At, U16At, Holds;
      var p := FindId(id, it);
      if p == 0 {
        return R.Found(R.NOT_FOUND, R.Untouched);
      }
      var code := U8(p);
      if code == target.Code() {
        var value := Same(target, p + U16(p + 1) - target.Width());
        return R.Found(R.OK + code, R.Value(value));
      }
      if 0 < code < TYPE_END_NUMERIC {
        var len := StringLength(p + 3);
        return Converted(p + len + 4, code, target);
      }
      return R.Found(R.ILLEGAL_TYPE + code, R.Untouched);
    }

    function Same(t: NumType, p: int): (v: int)
      requires Inside(p, t.Width())
      reads this, stream
      ensures v == R.GetSame(t, Mem(), p)
    {
      match t
      case S8 => ToS8(U8(p))
      case U8 => U8(p)
      case S16 => ToS16(U16(p))
      case U16 => U16(p)
      case S32 => ToS32(U32(p))
      case U32 => U32(p)
      case S64 => ToS64(U64(p))
      case U64 => U64(p)
      case Float => U32(p)
      case Double => U64(p)
    }

    // The switch over the type of the record found.
    function Converted(p: int, code: byte, target: NumType): (got: R.Found)
      requires 0 < code < TYPE_END_NUMERIC && Inside(p, R.TypeOf(code).Width())
      reads this, stream
      ensures got == R.Convert(Mem(), p, R.TypeOf(code), target)
    {
      if code >= 9 then R.Found(R.CONVERTED + 9, R.ThroughFloat)
      else if !target.IsInteger() then R.Found(R.CONVERTED + code, R.ThroughFloat)
      else
        var v := match code
          case 1 => ToS8(U8(p))
          case 2 => U8(p)
          case 3 => U16(p)
          case 4 => U16(p)
          case 5 => ToS32(U32(p))
          case 6 => ToS32(U32(p))
          case _ => U64(p);
        R.Found(R.CONVERTED + code, R.Value(R.Cast(target, v)))
    }

    method FindString(id: CString, it: R.Iterator) returns (got: R.FoundString)
      requires Searchable(it)
      ensures got == R.FindString(Mem(), Abs(), id, it)
    {
      hide R.Walkable, R.WellSized, R.FindIdByRange, StrLen, At, ToS32;
      var p := FindId(id, it);
      if p == 0 {
        return R.FoundString(R.NOT_FOUND, 0);
      }
      FoundComplete(Mem(), id, R.ScopeStart(Abs(), it), R.ScopeEnd(Abs(), it));
      var code := U8(p);
      if code != TYPE_STRING {
        return R.FoundString(R.ILLEGAL_TYPE + code, 0);
      }
      var len := StringLength(p + 3);
      return R.FoundString(R.OK + TYPE_STRING, p + 3 + len + 1);
    }

    method FindData(id: CString, it: R.Iterator) returns (got: R.FoundData)
      requires Searchable(it)
      ensures got == R.FindData(Mem(), Abs(), id, it)
    {
      hide R.Walkable, R.WellSized, R.FindIdByRange, StrLen, At, ToS32;
      var p := FindId(id, it);
      if p == 0 {
        return R.FoundData(R.NOT_FOUND, 0, 0);
      }
      FoundComplete(Mem(), id, R.ScopeStart(Abs(), it), R.ScopeEnd(Abs(), it));
      var code := U8(p);
      if code != TYPE_DATA {
        return R.FoundData(R.ILLEGAL_TYPE + code, 0, 0);
      }
      var len := StringLength(p + 5);
      var idLength := len + 1;
      var size := (ToS32(U32(p + 1)) - idLength - 5) % TWO_64;
      return R.FoundData(R.OK + TYPE_DATA, p + 5 + idLength, size);
    }

    method FindArray(id: CString, it: R.Iterator) returns (got: R.FoundArray)
      requires Searchable(it)
      ensures got == R.FindArray(Mem(), Abs(), id, it)
    {
      hide R.Walkable, R.WellSized, R.FindIdByRange, StrLen, At, ToS32;
      var p := FindId(id, it);
      if p == 0 {
        return R.FoundArray(R.NOT_FOUND, 0);
      }
      FoundComplete(Mem(), id, R.ScopeStart(Abs(), it), R.ScopeEnd(Abs(), it));
      var code := U8(p);
      if code != TYPE_ARRAY {
        return R.FoundArray(R.ILLEGAL_TYPE + code, 0);
      }
      var idLength := StringLength(p + 5);
      return R.FoundArray(R.OK + TYPE_ARRAY, (p + 5 + idLength + 1 - dataStart) % TWO_32 * TWO_32);
    }

    // One step of an array iterator, rewritten in place by the source.
    method NextEntry(it: R.Iterator) returns (next: R.Iterator, entries: int)
      requires Inside(dataStart + it / TWO_32 + it % TWO_32, 7)
      ensures R.NextRead(next, entries) == R.NextEntry(Mem(), Abs(), it)
    {
      hide At, U16At, U32At;
      var entryStart := dataStart + it / TWO_32 + it % TWO_32;
      if U8(entryStart) != TYPE_ENTRY {
        return it, -1;
      }
      var size := U32(entryStart + 1);
      entries := U16(entryStart + 5);
      next := (entryStart + 7 - dataStart) % TWO_32 * TWO_32 + (size - 7) % TWO_32;
    }
  }

  // One round of the search: the record at start is complete, and the search
  // either stops there or goes on behind it.
  lemma SearchStep(m: bytes, id: CString, start: int, end: int)
    requires start < end && R.Walkable(m, start, end)
    ensures Complete(m, start) && R.RecordSize(m, start) > 0
    ensures StrEqAt(m, R.NameAt(m, start), id) ==> R.FindIdByRange(m, id, start, end) == start
    ensures !StrEqAt(m, R.NameAt(m, start), id) ==>
              var next := start + R.RecordSize(m, start);
              R.Walkable(m, next, end) && R.FindIdByRange(m, id, start, end) == R.FindIdByRange(m, id, next, end)
  {
  }

  lemma SearchEnd(m: bytes, id: CString, start: int, end: int)
    requires end <= start
    ensures R.Walkable(m, start, end) && R.FindIdByRange(m, id, start, end) == 0
  {
  }

  // What reading the header of a record needs.
  predicate Complete(m: bytes, p: int) {
    && 0 < p && p + 4 <= |m| && (R.LongSized(At(m, p)) ==> p + 6 <= |m|)
    && R.NameAt(m, p) + StrLen(m, R.NameAt(m, p)) < |m|
  }

  // A record the search returns is one of the complete records it walked.
  lemma {:induction false} FoundComplete(m: bytes, id: CString, start: int, end: int)
    requires R.Walkable(m, start, end)
    ensures var p := R.FindIdByRange(m, id, start, end); p != 0 ==> 0 < p && Complete(m, p)
    decreases end - start
  {
    hide StrLen, StrEqAt;
    if start < end {
      SearchStep(m, id, start, end);
      if !StrEqAt(m, R.NameAt(m, start), id) {
        FoundComplete(m, id, start + R.RecordSize(m, start), end);
      }
    }
  }
}
