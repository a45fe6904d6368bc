/** The bytes on the wire, written out for one event of each kind of record. */
module WireFormat {
  import opened Bytes
  import opened Format
  import opened BinaryWriter

  lemma TypeCodes()
    ensures S8.Code() == 1 && U8.Code() == 2 && S16.Code() == 3 && U16.Code() == 4 && S32.Code() == 5
    ensures U32.Code() == 6 && S64.Code() == 7 && U64.Code() == 8 && Float.Code() == 9 && Double.Code() == 10
    ensures TYPE_STRING == 12 && TYPE_DATA == 13 && TYPE_EVENT == 14 && TYPE_ARRAY == 15 && TYPE_ENTRY == 16
  {
  }

  /** Numbers: type, size of the record in 16 bits, name and terminator, and the
      value, most significant byte first. */
  lemma BytesOnTheWire()
    ensures EncField(Num([97], NumType.U8, 7)) == [2, 0, 6, 97, 0, 7]
    ensures EncField(Num([97], NumType.S8, -1)) == [1, 0, 6, 97, 0, 255]
    ensures EncField(Num([97], NumType.U16, 0x0102)) == [4, 0, 7, 97, 0, 1, 2]
  {
  }

  lemma WordsOnTheWire()
    ensures EncField(Num([97], NumType.S32, -2)) == [5, 0, 9, 97, 0, 255, 255, 255, 254]
    ensures EncField(Num([97], NumType.U32, 0x0102_0304)) == [6, 0, 9, 97, 0, 1, 2, 3, 4]
  {
    assert BE32(-2) == [255, 255, 255, 254];
    assert BE32(0x0102_0304) == [1, 2, 3, 4];
    assert BE16(9) == [0, 9];
  }

  lemma LongsOnTheWire()
    ensures EncField(Num([97], NumType.U64, 0x0102_0304_0506_0708)) == [8, 0, 13, 97, 0, 1, 2, 3, 4, 5, 6, 7, 8]
  {
    assert BE64(0x0102_0304_0506_0708) == [1, 2, 3, 4, 5, 6, 7, 8];
    assert BE16(13) == [0, 13];
  }

  lemma TextOnTheWire()
    ensures EncField(Str([97], [104, 105])) == [12, 0, 8, 97, 0, 104, 105, 0]
    ensures EncField(Blob([97], [1, 2])) == [13, 0, 0, 0, 9, 97, 0, 1, 2]
  {
  }

  lemma ConcatOne(b: bytes)
    ensures Concat([b]) == b
  {
    assert Concat([]) == [];
    assert [b][..0] == [];
  }

  lemma OneField()
    ensures var f := Num([98], NumType.U8, 7);
            EncFields([f]) == EncItems([One(f)]) == [2, 0, 6, 98, 0, 7] && EncFields([]) == []
  {
    var f := Num([98], NumType.U8, 7);
    assert EncField(f) == [2, 0, 6, 98, 0, 7];
    assert FieldParts([f]) == [EncField(f)] && FieldParts([]) == [] && ItemParts([One(f)]) == [EncField(f)];
    ConcatOne(EncField(f));
  }

  /** An entry of one field, the array that holds it, and the event around it: sizes
      in 32 bits, the field count in 16, and the empty entry that ends the array. */
  lemma EntryOnTheWire()
    ensures EncEntry([Num([98], NumType.U8, 7)]) == [16, 0, 0, 0, 13, 0, 1, 2, 0, 6, 98, 0, 7]
    ensures EncEntry([]) == [16, 0, 0, 0, 7, 0, 0]
  {
    hide EncFields;
    OneField();
    assert BE32(13) == [0, 0, 0, 13] && BE32(7) == [0, 0, 0, 7] && BE16(1) == [0, 1] && BE16(0) == [0, 0];
  }

  lemma ArrayOnTheWire()
    ensures var e := EncEntry([Num([98], NumType.U8, 7)]);
            EncItem(Arr([97], [[Num([98], NumType.U8, 7)]])) ==
            [15] + [0, 0, 0, 27] + (([97, 0] + e) + [16, 0, 0, 0, 7, 0, 0])
  {
    hide EncFields, EncEntry, BE32, EncEntries;
    var e := EncEntry([Num([98], NumType.U8, 7)]);
    EntryOnTheWire();
    OneEntry(e);
    assert [97] + [0] == [97, 0];
    Size27();
  }

  lemma OneEntry(e: bytes)
    requires e == EncEntry([Num([98], NumType.U8, 7)])
    ensures EncEntries([[Num([98], NumType.U8, 7)]]) == e
  {
    hide EncEntry;
    assert EntryParts([[Num([98], NumType.U8, 7)]]) == [e];
    ConcatOne(e);
  }

  lemma Size27()
    ensures BE32(27) == [0, 0, 0, 27]
  {
  }

  lemma EventOnTheWire()
    ensures EncEvent(Event(0x0102, [One(Num([98], NumType.U8, 7))])) == [14, 1, 2, 0, 0, 0, 13, 2, 0, 6, 98, 0, 7]
  {
    hide EncItems;
    OneField();
    assert BE16(0x0102) == [1, 2] && BE32(13) == [0, 0, 0, 13];
  }

  /** A number or string can be read back only if its record is shorter than 2^16
      bytes: its size field holds the length exactly then. */
  lemma SizeFieldExact(f: Field)
    requires !f.Blob?
    ensures U16At(EncField(f), 1) == |EncField(f)| % TWO_16
    ensures U16At(EncField(f), 1) == |EncField(f)| <==> |EncField(f)| < TWO_16
  {
    hide Header, Payload, U16At;
    match f
    case Num(id, t, v) => SizeInHeader(t.Code(), id, t.Width(), Payload(t.Width(), v));
    case Str(id, s) => SizeInHeader(TYPE_STRING, id, |s| + 1, s + [0]);
  }

  lemma SizeInHeader(code: byte, id: CString, typeSize: nat, rest: bytes)
    ensures U16At(Header(code, id, typeSize) + rest, 1) == (|id| + typeSize + 4) % TWO_16
  {
    hide U16At, BE16;
    var m := Header(code, id, typeSize) + rest;
    assert m[1..3] == BE16(|id| + typeSize + 4);
    U16Holds(m, 1, |id| + typeSize + 4);
  }

  /** A data record's size leaves out the high bits of the length of its id. */
  lemma DataSizeExact(id: CString, d: bytes)
    requires |id| + 6 + |d| <= CAPACITY
    ensures BlobSize(id, d) == |id| % TWO_16 + 6 + |d|
    ensures BlobSize(id, d) == |id| + 6 + |d| <==> |id| < TWO_16
  {
    LowPart(|id|, TWO_16);
  }

  // A call that the state of the writer rejects.
  predicate Rejects(w: State, c: Call) {
    match c
    case EventBegin(_) => w.writingEvent
    case ArrayBegin(_) => w.writingArray
    case EntryBegin => w.writingEntry
    case EventEnd => !w.writingEvent
    case ArrayEnd => !w.writingArray
    case EntryEnd => !w.writingEntry
    case Write(_) => false
  }

  /** What each call reports, and what a rejected one leaves: the bytes, the write
      position and the flags; but a rejected begin has moved its offset, and a
      rejected begin-event has used up a request id. */
  lemma RejectedExactly(w: State, c: Call)
    requires Valid(w) && w.data + Cost(c) <= CAPACITY
    ensures var s := Apply(w, c);
            && (Rejects(w, c) ==>
                  && s.status == 1
                  && s.w == w.(requestId := s.w.requestId, eventOffset := s.w.eventOffset,
                               arrayOffset := s.w.arrayOffset, entryOffset := s.w.entryOffset)
                  && s.w.eventOffset == (if c.EventBegin? then w.data + 3 else w.eventOffset)
                  && s.w.arrayOffset == (if c.ArrayBegin? then w.data + 1 else w.arrayOffset)
                  && s.w.entryOffset == (if c.EntryBegin? then w.data + 1 else w.entryOffset)
                  && s.w.requestId == (if c.EventBegin? then (w.requestId + 1) % TWO_64 else w.requestId))
            && (!Rejects(w, c) ==> s.status == if c.EventBegin? then w.requestId else 0)
  {
    hide Put, EncField, WriteField;
  }

  /** Fields are counted while an entry is open, modulo 2^32, and from 0. */
  lemma CountsFields(w: State, f: Field)
    requires Valid(w) && w.data + |EncField(f)| <= CAPACITY
    ensures WriteField(w, f).entryCount == if w.writingEntry then (w.entryCount + 1) % TWO_32 else w.entryCount
    ensures w.data + 7 <= CAPACITY && !w.writingEntry ==> BeginEntry(w).w.entryCount == 0
  {
  }
}
