/** The ProDBG stream: a sequence of events, each holding typed fields and
    arrays of entries, and its encoding as bytes. Every record starts with a
    type code and carries its own length. */
module Format {
  import opened Bytes

  datatype NumType = S8 | U8 | S16 | U16 | S32 | U32 | S64 | U64 | Float | Double {
    function Code(): (c: byte)
      ensures 1 <= c < TYPE_END_NUMERIC
    {
      match this
      case S8 => 1 case U8 => 2 case S16 => 3 case U16 => 4 case S32 => 5
      case U32 => 6 case S64 => 7 case U64 => 8 case Float => 9 case Double => 10
    }

    function Width(): (w: nat)
      ensures w == 1 || w == 2 || w == 4 || w == 8
    {
      match this
      case S8 => 1 case U8 => 1 case S16 => 2 case U16 => 2 case S32 => 4
      case U32 => 4 case S64 => 8 case U64 => 8 case Float => 4 case Double => 8
    }

    // The values of the C parameter type; floats and doubles are bit patterns.
    predicate Fits(v: int) {
      match this
      case S8 => -128 <= v < 128
      case U8 => 0 <= v < TWO_8
      case S16 => -0x8000 <= v < 0x8000
      case U16 => 0 <= v < TWO_16
      case S32 => -TWO_31 <= v < TWO_31
      case U32 => 0 <= v < TWO_32
      case S64 => -TWO_63 <= v < TWO_63
      case U64 => 0 <= v < TWO_64
      case Float => 0 <= v < TWO_32
      case Double => 0 <= v < TWO_64
    }

    predicate IsInteger() {
      !Float? && !Double?
    }
  }

  const TYPE_END_NUMERIC: byte := 11
  const TYPE_STRING: byte := 12
  const TYPE_DATA: byte := 13
  const TYPE_EVENT: byte := 14
  const TYPE_ARRAY: byte := 15
  const TYPE_ENTRY: byte := 16

  datatype Field =
    | Num(id: CString, t: NumType, v: int)
    | Str(id: CString, s: CString)
    | Blob(id: CString, d: bytes)

  datatype Item =
    | One(f: Field)
    | Arr(name: CString, entries: seq<seq<Field>>)
  {
    function Id(): CString {
      match this
      case One(f) => f.id
      case Arr(name, _) => name
    }
  }

  datatype Event = Event(id: int, items: seq<Item>)

  function Payload(w: nat, v: int): (b: bytes)
    requires w == 1 || w == 2 || w == 4 || w == 8
    ensures |b| == w
  {
    if w == 1 then [v % 256] else if w == 2 then BE16(v) else if w == 4 then BE32(v) else BE64(v)
  }

  // Type, 16-bit total size and id: the header of a number or a string.
  function Header(code: byte, id: CString, typeSize: int): (b: bytes)
    ensures |b| == |id| + 4
  {
    [code] + BE16(|id| + typeSize + 4) + (id + [0])
  }

  function EncField(f: Field): (b: bytes)
    ensures |b| >= 4
  {
    match f
    case Num(id, t, v) => Header(t.Code(), id, t.Width()) + Payload(t.Width(), v)
    case Str(id, s) => Header(TYPE_STRING, id, |s| + 1) + (s + [0])
    case Blob(id, d) => [TYPE_DATA] + BE32(|id| + 6 + |d|) + (id + [0]) + d
  }

  function FieldParts(fs: seq<Field>): (parts: seq<bytes>)
    ensures |parts| == |fs|
    ensures forall i :: 0 <= i < |fs| ==> parts[i] == EncField(fs[i])
  {
    seq(|fs|, i requires 0 <= i < |fs| => EncField(fs[i]))
  }

  function EncFields(fs: seq<Field>): bytes {
    Concat(FieldParts(fs))
  }

  function EncEntry(fs: seq<Field>): (b: bytes)
    ensures |b| == 7 + |EncFields(fs)|
  {
    [TYPE_ENTRY] + BE32(7 + |EncFields(fs)|) + BE16(|fs|) + EncFields(fs)
  }

  function EntryParts(es: seq<seq<Field>>): (parts: seq<bytes>)
    ensures |parts| == |es|
    ensures forall i :: 0 <= i < |es| ==> parts[i] == EncEntry(es[i])
  {
    seq(|es|, i requires 0 <= i < |es| => EncEntry(es[i]))
  }

  function EncEntries(es: seq<seq<Field>>): bytes {
    Concat(EntryParts(es))
  }

  // An array ends with an entry without fields.
  function EncItem(i: Item): (b: bytes)
    ensures |b| >= 4
  {
    match i
    case One(f) => EncField(f)
    case Arr(name, es) =>
      var body := (name + [0]) + EncEntries(es) + EncEntry([]);
      [TYPE_ARRAY] + BE32(5 + |body|) + body
  }

  function ItemParts(items: seq<Item>): (parts: seq<bytes>)
    ensures |parts| == |items|
    ensures forall i :: 0 <= i < |items| ==> parts[i] == EncItem(items[i])
  {
    seq(|items|, i requires 0 <= i < |items| => EncItem(items[i]))
  }

  function EncItems(items: seq<Item>): bytes {
    Concat(ItemParts(items))
  }

  function EncEvent(e: Event): (b: bytes)
    ensures |b| == 7 + |EncItems(e.items)|
  {
    [TYPE_EVENT] + BE16(e.id) + BE32(7 + |EncItems(e.items)|) + EncItems(e.items)
  }

  function EventParts(es: seq<Event>): (parts: seq<bytes>)
    ensures |parts| == |es|
    ensures forall i :: 0 <= i < |es| ==> parts[i] == EncEvent(es[i])
  {
    seq(|es|, i requires 0 <= i < |es| => EncEvent(es[i]))
  }

  function EncEvents(es: seq<Event>): bytes {
    Concat(EventParts(es))
  }

  // The fields of an entry as a scope of items.
  function AsItems(fs: seq<Field>): (items: seq<Item>)
    ensures |items| == |fs|
    ensures forall i :: 0 <= i < |fs| ==> items[i] == One(fs[i])
  {
    seq(|fs|, i requires 0 <= i < |fs| => One(fs[i]))
  }

  lemma AsItemsEnc(fs: seq<Field>)
    ensures EncItems(AsItems(fs)) == EncFields(fs)
  {
    assert ItemParts(AsItems(fs)) == FieldParts(fs);
  }

  lemma EncFieldsSnoc(fs: seq<Field>, e: Field)
    ensures EncFields(fs + [e]) == EncFields(fs) + EncField(e)
  {
    ConcatSnoc(FieldParts(fs), EncField(e));
    assert FieldParts(fs + [e]) == FieldParts(fs) + [EncField(e)];
  }

  lemma EncEntriesSnoc(es: seq<seq<Field>>, e: seq<Field>)
    ensures EncEntries(es + [e]) == EncEntries(es) + EncEntry(e)
  {
    ConcatSnoc(EntryParts(es), EncEntry(e));
    assert EntryParts(es + [e]) == EntryParts(es) + [EncEntry(e)];
  }

  lemma EncItemsSnoc(items: seq<Item>, e: Item)
    ensures EncItems(items + [e]) == EncItems(items) + EncItem(e)
  {
    ConcatSnoc(ItemParts(items), EncItem(e));
    assert ItemParts(items + [e]) == ItemParts(items) + [EncItem(e)];
  }

  lemma EncEventsSnoc(es: seq<Event>, e: Event)
    ensures EncEvents(es + [e]) == EncEvents(es) + EncEvent(e)
  {
    ConcatSnoc(EventParts(es), EncEvent(e));
    assert EventParts(es + [e]) == EventParts(es) + [EncEvent(e)];
  }

  // Where record k of an encoded sequence lies in memory.
  lemma EncItemsAt(m: bytes, p: nat, items: seq<Item>, k: nat)
    requires Holds(m, p, EncItems(items)) && k < |items|
    ensures Holds(m, p + |EncItems(items[..k])|, EncItem(items[k]))
    ensures |EncItems(items[..k + 1])| == |EncItems(items[..k])| + |EncItem(items[k])|
    ensures |EncItems(items[..k + 1])| <= |EncItems(items)|
  {
    hide EncItem, Concat;
    ConcatAt(m, p, ItemParts(items), k);
    assert ItemParts(items[..k]) == ItemParts(items)[..k] && ItemParts(items[..k + 1]) == ItemParts(items)[..k + 1];
  }

  lemma EncEntriesAt(m: bytes, p: nat, es: seq<seq<Field>>, k: nat)
    requires Holds(m, p, EncEntries(es)) && k < |es|
    ensures Holds(m, p + |EncEntries(es[..k])|, EncEntry(es[k]))
    ensures |EncEntries(es[..k + 1])| == |EncEntries(es[..k])| + |EncEntry(es[k])|
    ensures |EncEntries(es[..k + 1])| <= |EncEntries(es)|
  {
    hide EncEntry, Concat;
    ConcatAt(m, p, EntryParts(es), k);
    assert EntryParts(es[..k]) == EntryParts(es)[..k] && EntryParts(es[..k + 1]) == EntryParts(es)[..k + 1];
  }

  lemma EncEventsAt(m: bytes, p: nat, es: seq<Event>, k: nat)
    requires Holds(m, p, EncEvents(es)) && k < |es|
    ensures Holds(m, p + |EncEvents(es[..k])|, EncEvent(es[k]))
    ensures |EncEvents(es[..k + 1])| == |EncEvents(es[..k])| + |EncEvent(es[k])|
    ensures |EncEvents(es[..k + 1])| <= |EncEvents(es)|
  {
    hide EncEvent, Concat;
    ConcatAt(m, p, EventParts(es), k);
    assert EventParts(es[..k]) == EventParts(es)[..k] && EventParts(es[..k + 1]) == EventParts(es)[..k + 1];
  }
}
