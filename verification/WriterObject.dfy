/** The writer as the source has it: one object that fills a buffer in place
    and patches sizes behind itself. Each method is proved against the state
    machine of module BinaryWriter. */
module WriterObject {
  import opened Bytes
  import opened Format
  import opened BinaryWriter

  // A 16-bit value in memory does not depend on what lies above 16 bits.
  lemma BE16Low(v: int, u: int)
    requires v % TWO_16 == u % TWO_16
    ensures BE16(v) == BE16(u)
  {
    Digits16(v);
    Digits16(u);
  }

  lemma Digits16(v: int)
    ensures v / TWO_8 % 256 == v % TWO_16 / TWO_8 && v % 256 == v % TWO_16 % 256
  {
  }

  class Writer {
    const buffer: array<byte>
    var data: nat
    var requestId: nat
    var eventOffset: nat
    var arrayOffset: nat
    var entryOffset: nat
    var writingEvent: bool
    var writingArray: bool
    var writingEntry: bool
    var entryCount: nat

    ghost function Abs(): State
      reads this, buffer
    {
      State(buffer[..], data, requestId, eventOffset, arrayOffset, entryOffset,
            writingEvent, writingArray, writingEntry, entryCount)
    }

    constructor ()
      ensures Valid(Abs()) && fresh(buffer)
      ensures Abs() == Initial(buffer[..])
    {
      buffer := new byte[CAPACITY];
      data, requestId := HEADER, 1;
      eventOffset, arrayOffset, entryOffset := 0, 0, 0;
      writingEvent, writingArray, writingEntry, entryCount := false, false, false, 0;
    }

    // memcpy
    method Copy(p: nat, b: bytes)
      requires p + |b| <= buffer.Length
      modifies buffer
      ensures buffer[..] == Put(old(buffer[..]), p, b)
    {
      var i := 0;
      while i < |b|
        invariant 0 <= i <= |b|
        invariant buffer[..] == Put(old(buffer[..]), p, b[..i])
      {
        buffer[p + i] := b[i];
        PutPut(old(buffer[..]), p, b[..i], [b[i]]);
        assert b[..i + 1] == b[..i] + [b[i]];
        i := i + 1;
      }
      assert b[..|b|] == b;
    }

    method Store8(p: nat, v: int)
      requires p < buffer.Length
      modifies buffer
      ensures buffer[..] == Put(old(buffer[..]), p, [v % 256])
    {
      buffer[p] := v % 256;
    }

    // Two big-endian bytes at p.
    method Store16(p: nat, v: int)
      requires p + 2 <= buffer.Length
      modifies buffer
      ensures buffer[..] == Put(old(buffer[..]), p, BE16(v))
    {
      buffer[p] := v / TWO_8 % 256;
      buffer[p + 1] := v % 256;
    }

    // Four big-endian bytes at p.
    method Store32(p: nat, v: int)
      requires p + 4 <= buffer.Length
      modifies buffer
      ensures buffer[..] == Put(old(buffer[..]), p, BE32(v))
    {
      buffer[p] := v / TWO_24 % 256;
      buffer[p + 1] := v / TWO_16 % 256;
      buffer[p + 2] := v / TWO_8 % 256;
      buffer[p + 3] := v % 256;
    }

    method WriteIdSize(id: CString, code: byte, typeSize: int)
      requires data + |id| + 4 <= buffer.Length
      modifies this`data, buffer
      ensures buffer[..] == Put(old(buffer[..]), old(data), Header(code, id, typeSize))
      ensures data == old(data) + |id| + 4
    {
      hide Put;
      var len := |id|;
      var totalSize := (len % TWO_16 + typeSize + 4) % TWO_16;
      Store8(data, code);
      Store16(data + 1, totalSize);
      PutPut(old(buffer[..]), data, [code], BE16(totalSize));
      Copy(data + 3, id + [0]);
      PutPut(old(buffer[..]), data, [code] + BE16(totalSize), id + [0]);
      BE16Low(totalSize, len + typeSize + 4);
      data := data + len + 4;
    }

    method CountField()
      modifies this`entryCount
      ensures entryCount == if writingEntry then (old(entryCount) + 1) % TWO_32 else old(entryCount)
    {
      if writingEntry {
        entryCount := (entryCount + 1) % TWO_32;
      }
    }

    // write_s8, write_u8
    method Write8(id: CString, t: NumType, v: int)
      requires Valid(Abs()) && t.Width() == 1 && data + |EncField(Num(id, t, v))| <= CAPACITY
      modifies this, buffer
      ensures Abs() == WriteField(old(Abs()), Num(id, t, v))
    {
      hide Put;
      WriteIdSize(id, t.Code(), 1);
      PutPut(old(buffer[..]), old(data), Header(t.Code(), id, 1), Payload(1, v));
      Store8(data, v);
      data := data + 1;
      CountField();
    }

    // write_s16, write_u16
    method Write16(id: CString, t: NumType, v: int)
      requires Valid(Abs()) && t.Width() == 2 && data + |EncField(Num(id, t, v))| <= CAPACITY
      modifies this, buffer
      ensures Abs() == WriteField(old(Abs()), Num(id, t, v))
    {
      hide Put;
      WriteIdSize(id, t.Code(), 2);
      PutPut(old(buffer[..]), old(data), Header(t.Code(), id, 2), Payload(2, v));
      Store16(data, v);
      data := data + 2;
      CountField();
    }

    // write_s32, write_u32, write_float
    method Write32(id: CString, t: NumType, v: int)
      requires Valid(Abs()) && t.Width() == 4 && data + |EncField(Num(id, t, v))| <= CAPACITY
      modifies this, buffer
      ensures Abs() == WriteField(old(Abs()), Num(id, t, v))
    {
      hide Put;
      WriteIdSize(id, t.Code(), 4);
      PutPut(old(buffer[..]), old(data), Header(t.Code(), id, 4), Payload(4, v));
      Store32(data, v);
      data := data + 4;
      CountField();
    }

    // write_s64, write_u64, write_double
    method Write64(id: CString, t: NumType, v: int)
      requires Valid(Abs()) && t.Width() == 8 && data + |EncField(Num(id, t, v))| <= CAPACITY
      modifies this, buffer
      ensures Abs() == WriteField(old(Abs()), Num(id, t, v))
    {
      hide Put;
      WriteIdSize(id, t.Code(), 8);
      ghost var m := buffer[..];
      PutPut(old(buffer[..]), old(data), Header(t.Code(), id, 8), Payload(8, v));
      Store32(data, v / TWO_32);
      Store32(data + 4, v);
      PutPut(m, data, BE32(v / TWO_32), BE32(v));
      Halves(v);
      data := data + 8;
      CountField();
    }

    lemma Halves(v: int)
      ensures BE64(v) == BE32(v / TWO_32) + BE32(v)
    {
      HighWord(v);
    }

    method WriteString(id: CString, s: CString)
      requires Valid(Abs()) && data + |EncField(Str(id, s))| <= CAPACITY
      modifies this, buffer
      ensures Abs() == WriteField(old(Abs()), Str(id, s))
    {
      hide Put, BE16;
      var len := |s| + 1;
      WriteIdSize(id, TYPE_STRING, len % TWO_16);
      BE16Low(|id| + len % TWO_16 + 4, |id| + len + 4);
      Copy(data, s + [0]);
      PutPut(old(buffer[..]), old(data), Header(TYPE_STRING, id, len), s + [0]);
      data := data + len;
      CountField();
    }

    method WriteData(id: CString, d: bytes)
      requires Valid(Abs()) && data + |EncField(Blob(id, d))| <= CAPACITY
      modifies this, buffer
      ensures Abs() == WriteField(old(Abs()), Blob(id, d))
    {
      hide Put, BE32;
      var totalSize := (|id| % TWO_16 + 4 + 1 + |d| + 1) % TWO_32;
      ghost var m := buffer[..];
      Store8(data, TYPE_DATA);
      Store32(data + 1, totalSize);
      PutPut(m, data, [TYPE_DATA], BE32(totalSize));
      Copy(data + 5, id + [0]);
      PutPut(m, data, [TYPE_DATA] + BE32(totalSize), id + [0]);
      Copy(data + 5 + |id| + 1, d);
      PutPut(m, data, [TYPE_DATA] + BE32(totalSize) + (id + [0]), d);
      data := data + totalSize;
      CountField();
    }

    method WriteEventBegin(event: int) returns (status: int)
      requires Valid(Abs()) && data + 30 <= CAPACITY
      modifies this, buffer
      ensures Step(Abs(), status) == BeginEvent(old(Abs()), event)
    {
      hide Put;
      var id := requestId;
      requestId := (requestId + 1) % TWO_64;
      eventOffset := data + 3;
      if writingEvent {
        return STATUS_FAIL;
      }
      Store8(data, TYPE_EVENT);
      Store16(data + 1, event);
      PutPut(old(buffer[..]), data, [TYPE_EVENT], BE16(event));
      writingEvent := true;
      data := data + 7;
      Write64(REQUEST_ID, U64, id);
      return id;
    }

    method WriteEventEnd() returns (status: int)
      requires Valid(Abs())
      modifies this, buffer
      ensures Step(Abs(), status) == EndEvent(old(Abs()))
    {
      if !writingEvent {
        return STATUS_FAIL;
      }
      var size := data - eventOffset + 3;
      Store32(eventOffset, size);
      writingEvent := false;
      return STATUS_OK;
    }

    method WriteArrayEntryBegin() returns (status: int)
      requires Valid(Abs()) && data + 7 <= CAPACITY
      modifies this, buffer
      ensures Step(Abs(), status) == BeginEntry(old(Abs()))
    {
      entryOffset := data + 1;
      if writingEntry {
        return STATUS_FAIL;
      }
      Store8(data, TYPE_ENTRY);
      writingEntry, entryCount := true, 0;
      data := data + 7;
      return STATUS_OK;
    }

    method WriteArrayEntryEnd() returns (status: int)
      requires Valid(Abs())
      modifies this, buffer
      ensures Step(Abs(), status) == EndEntry(old(Abs()))
    {
      hide Put;
      if !writingEntry {
        return STATUS_FAIL;
      }
      var size := data - entryOffset + 1;
      Store32(entryOffset, size);
      Store16(entryOffset + 4, entryCount);
      PutPut(old(buffer[..]), entryOffset, BE32(size), BE16(entryCount));
      writingEntry := false;
      return STATUS_OK;
    }

    method WriteArrayBegin(name: CString) returns (status: int)
      requires Valid(Abs()) && data + |name| + 6 <= CAPACITY
      modifies this, buffer
      ensures Step(Abs(), status) == BeginArray(old(Abs()), name)
    {
      hide Put;
      var len := |name| + 1;
      arrayOffset := data + 1;
      if writingArray {
        return STATUS_FAIL;
      }
      Store8(data, TYPE_ARRAY);
      Copy(data + 5, name + [0]);
      writingArray := true;
      data := data + len + 5;
      return STATUS_OK;
    }

    method WriteArrayEnd() returns (status: int)
      requires Valid(Abs()) && data + 7 <= CAPACITY
      modifies this, buffer
      ensures Step(Abs(), status) == EndArray(old(Abs()))
    {
      hide Put, BE16, BE32;
      if !writingArray {
        return STATUS_FAIL;
      }
      var _ := WriteArrayEntryBegin();
      var _ := WriteArrayEntryEnd();
      var size := data - arrayOffset + 1;
      Store32(arrayOffset, size);
      writingArray := false;
      return STATUS_OK;
    }

    // The writer's function table: one entry per kind of call.
    method Call(c: Call) returns (status: int)
      requires Valid(Abs()) && data + Cost(c) <= CAPACITY
      modifies this, buffer
      ensures Step(Abs(), status) == Apply(old(Abs()), c)
    {
      match c
      case EventBegin(event) => status := WriteEventBegin(event);
      case EventEnd => status := WriteEventEnd();
      case ArrayBegin(name) => status := WriteArrayBegin(name);
      case ArrayEnd => status := WriteArrayEnd();
      case EntryBegin => status := WriteArrayEntryBegin();
      case EntryEnd => status := WriteArrayEntryEnd();
      case Write(f) =>
        status := STATUS_OK;
        match f {
          case Num(id, t, v) =>
            if t.Width() == 1 {
              Write8(id, t, v);
            } else if t.Width() == 2 {
              Write16(id, t, v);
            } else if t.Width() == 4 {
              Write32(id, t, v);
            } else {
              Write64(id, t, v);
            }
          case Str(id, s) => WriteString(id, s);
          case Blob(id, d) => WriteData(id, d);
        }
    }

    // pd_binary_writer_get_size
    function Size(): (size: int)
      reads this
    {
      data - HEADER
    }

    // pd_binary_writer_finalize
    method Finish()
      requires Valid(Abs())
      modifies buffer
      ensures Abs() == Finalize(old(Abs()))
    {
      Store32(0, Size() + 4);
    }

    // pd_binary_writer_reset
    method Clear()
      requires Valid(Abs())
      modifies this
      ensures Abs() == Reset(old(Abs())) && data == HEADER
    {
      eventOffset, arrayOffset, entryOffset := 0, 0, 0;
      writingEvent, writingArray, writingEntry, entryCount := false, false, false, 0;
      data := HEADER;
    }
  }

  // Writes calls through a writer's function table.
  method WriteAll(writer: Writer, calls: seq<Call>)
    requires BinaryWriter.Valid(writer.Abs()) && writer.data + TotalCost(calls) <= CAPACITY
    modifies writer, writer.buffer
    ensures writer.Abs() == Run(old(writer.Abs()), calls)
  {
    var i := 0;
    assert calls[0..] == calls;
    while i < |calls|
      invariant 0 <= i <= |calls|
      invariant BinaryWriter.Valid(writer.Abs()) && writer.data + TotalCost(calls[i..]) <= CAPACITY
      invariant Run(writer.Abs(), calls[i..]) == Run(old(writer.Abs()), calls)
    {
      assert calls[i..][1..] == calls[i + 1..];
      var _ := writer.Call(calls[i]);
      i := i + 1;
    }
  }
}
