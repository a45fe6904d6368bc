/** The encoding loses nothing: the bytes of a stream determine its events,
    items, entries and values. */
module Unambiguous {
  import opened Bytes
  import opened Format
  import opened RoundTrip
  import opened Events

  lemma Word32Unique(v: int, u: int)
    requires BE32(v) == BE32(u)
    ensures v % TWO_32 == u % TWO_32
  {
    Digits32(v);
    Digits32(u);
    assert BE32(v)[0] == BE32(u)[0] && BE32(v)[1] == BE32(u)[1] && BE32(v)[2] == BE32(u)[2] && BE32(v)[3] == BE32(u)[3];
  }

  lemma Word64Unique(v: int, u: int)
    requires BE64(v) == BE64(u)
    ensures v % TWO_64 == u % TWO_64
  {
    HighWord(v);
    HighWord(u);
    assert BE32(v) == BE64(v)[4..] && BE32(u) == BE64(u)[4..];
    assert BE32(v / TWO_32) == BE64(v)[..4] && BE32(u / TWO_32) == BE64(u)[..4];
    Word32Unique(v, u);
    Word32Unique(v / TWO_32, u / TWO_32);
  }

  lemma Word16Unique(v: int, u: int)
    requires BE16(v) == BE16(u)
    ensures v % TWO_16 == u % TWO_16
  {
    assert BE16(v)[0] == BE16(u)[0] && BE16(v)[1] == BE16(u)[1];
    Read16Mod(v);
    Read16Mod(u);
  }

  lemma Read16Mod(v: int)
    ensures v / TWO_8 % 256 * TWO_8 + v % 256 == v % TWO_16
  {
  }

  // A value of the type is known from its low bits.
  lemma FitsUnique(t: NumType, v: int, u: int)
    requires t.Fits(v) && t.Fits(u)
    requires t.Width() == 1 ==> v % TWO_8 == u % TWO_8
    requires t.Width() == 2 ==> v % TWO_16 == u % TWO_16
    requires t.Width() == 4 ==> v % TWO_32 == u % TWO_32
    requires t.Width() == 8 ==> v % TWO_64 == u % TWO_64
    ensures v == u
  {
    match t
    case S8 =>
    case U8 =>
    case S16 =>
    case U16 =>
    case S32 =>
    case U32 =>
    case S64 =>
    case U64 =>
    case Float =>
    case Double =>
  }

  lemma PayloadUnique(t: NumType, v: int, u: int)
    requires t.Fits(v) && t.Fits(u) && Payload(t.Width(), v) == Payload(t.Width(), u)
    ensures v == u
  {
    hide BE16, BE32, BE64;
    match t.Width() {
      case 1 => assert Payload(1, v)[0] == Payload(1, u)[0];
      case 2 => Word16Unique(v, u);
      case 4 => Word32Unique(v, u);
      case _ => Word64Unique(v, u);
    }
    FitsUnique(t, v, u);
  }

  // Two contents of the same length at the same place are the same.
  lemma SameBytes(m: bytes, p: nat, a: bytes, b: bytes)
    requires Holds(m, p, a) && Holds(m, p, b) && |a| == |b|
    ensures a == b
  {
  }

  lemma SameString(m: bytes, p: nat, a: CString, b: CString)
    requires Holds(m, p, a + [0]) && Holds(m, p, b + [0])
    ensures a == b
  {
    StrEqExact(m, p, a, b);
  }

  lemma FieldUnique(m: bytes, p: nat, f: Field, g: Field)
    requires Holds(m, p, EncField(f)) && Holds(m, p, EncField(g)) && Small(f) && Small(g) && |m| < TWO_31
    ensures f == g
  {
    hide EncField, Holds, Payload, At, U16At, U32At;
    EncOne(f);
    EncOne(g);
    TypeCodeAt(m, p, One(f));
    TypeCodeAt(m, p, One(g));
    match f
    case Num(id, t, v) =>
      NumAt(m, p, id, t, v);
      NumAt(m, p, g.id, g.t, g.v);
      SameString(m, p + 3, id, g.id);
      SameBytes(m, p + |id| + 4, Payload(t.Width(), v), Payload(t.Width(), g.v));
      PayloadUnique(t, v, g.v);
    case Str(id, s) =>
      StrAt(m, p, id, s);
      StrAt(m, p, g.id, g.s);
      SameString(m, p + 3, id, g.id);
      SameString(m, p + |id| + 4, s, g.s);
    case Blob(id, d) =>
      BlobAt(m, p, id, d);
      BlobAt(m, p, g.id, g.d);
      SameString(m, p + 5, id, g.id);
      SameBytes(m, p + 6 + |id|, d, g.d);
  }

  lemma {:induction false} FieldsUnique(m: bytes, p: nat, a: seq<Field>, b: seq<Field>)
    requires Holds(m, p, EncFields(a)) && Holds(m, p, EncFields(b)) && |a| == |b| && |m| < TWO_31
    requires forall i :: 0 <= i < |a| ==> Small(a[i]) && Small(b[i])
    ensures a == b
  {
    hide EncField, Holds, Concat;
    var n := |a| - 1;
    if a != [] {
      EncFieldsSnoc(a[..n], a[n]);
      EncFieldsSnoc(b[..n], b[n]);
      assert a == a[..n] + [a[n]] && b == b[..n] + [b[n]];
      HoldsSplit(m, p, EncFields(a[..n]), EncField(a[n]));
      HoldsSplit(m, p, EncFields(b[..n]), EncField(b[n]));
      FieldsUnique(m, p, a[..n], b[..n]);
      FieldUnique(m, p + |EncFields(a[..n])|, a[n], b[n]);
    }
  }

  predicate EntryOk(fs: seq<Field>) {
    |fs| < TWO_16 && forall i :: 0 <= i < |fs| ==> Small(fs[i])
  }

  predicate EntriesOk(es: seq<seq<Field>>) {
    forall k :: 0 <= k < |es| ==> EntryOk(es[k])
  }

  lemma EntryUnique(m: bytes, p: nat, a: seq<Field>, b: seq<Field>)
    requires Holds(m, p, EncEntry(a)) && Holds(m, p, EncEntry(b)) && |m| < TWO_31
    requires EntryOk(a) && EntryOk(b)
    ensures a == b
  {
    hide EncFields, EncEntry, Holds, At, U16At, U32At;
    EntryAt(m, p, a);
    EntryAt(m, p, b);
    FieldsUnique(m, p + 7, a, b);
  }

  // Behind a common prefix stands the same entry.
  lemma NextEntryUnique(m: bytes, p: nat, a: seq<seq<Field>>, b: seq<seq<Field>>, k: nat)
    requires Holds(m, p, EncEntries(a)) && Holds(m, p, EncEntries(b)) && |m| < TWO_31
    requires EntriesOk(a) && EntriesOk(b)
    requires k < |a| && k < |b| && a[..k] == b[..k]
    ensures a[k] == b[k]
  {
    hide EncEntries, EncEntry, Holds, EntryOk;
    EncEntriesAt(m, p, a, k);
    EncEntriesAt(m, p, b, k);
    EntryUnique(m, p + |EncEntries(a[..k])|, a[k], b[k]);
  }

  lemma OneLonger<T>(a: seq<T>, b: seq<T>, k: nat)
    requires k < |a| && k < |b| && a[..k] == b[..k] && a[k] == b[k]
    ensures a[..k + 1] == b[..k + 1]
  {
    assert a[..k + 1] == a[..k] + [a[k]] && b[..k + 1] == b[..k] + [b[k]];
  }

  // Entries up to the terminator.
  lemma {:induction false} EntriesUnique(m: bytes, p: nat, a: seq<seq<Field>>, b: seq<seq<Field>>, k: nat)
    requires Holds(m, p, EncEntries(a)) && Holds(m, p, EncEntries(b)) && |m| < TWO_31
    requires EntriesOk(a) && EntriesOk(b)
    requires k <= |a| && k <= |b|
    ensures a[..k] == b[..k]
  {
    hide EncEntries, EncEntry, Holds, EntriesOk;
    if k > 0 {
      EntriesUnique(m, p, a, b, k - 1);
      NextEntryUnique(m, p, a, b, k - 1);
      OneLonger(a, b, k - 1);
    }
  }

  // An array with more entries is longer.
  lemma SameEntryCount(m: bytes, p: nat, a: seq<seq<Field>>, b: seq<seq<Field>>)
    requires Holds(m, p, EncEntries(a)) && Holds(m, p, EncEntries(b)) && |EncEntries(a)| == |EncEntries(b)|
    requires |m| < TWO_31 && EntriesOk(a) && EntriesOk(b)
    ensures a == b
  {
    hide EncEntries, EncEntry, Holds, EntryOk;
    var k := if |a| < |b| then |a| else |b|;
    EntriesUnique(m, p, a, b, k);
    assert a == a[..|a|] && b == b[..|b|];
    if |a| < |b| {
      EncEntriesAt(m, p, b, k);
    } else if |b| < |a| {
      EncEntriesAt(m, p, a, k);
    }
  }

  predicate Exactable(i: Item) {
    match i
    case One(f) => Small(f)
    case Arr(_, es) => EntriesOk(es)
  }

  lemma ItemUnique(m: bytes, p: nat, i: Item, j: Item)
    requires Holds(m, p, EncItem(i)) && Holds(m, p, EncItem(j)) && |m| < TWO_31
    requires Exactable(i) && Exactable(j)
    ensures i == j
  {
    hide EncEntries, EncField, EncItem, Holds, At, U32At;
    TypeCodeAt(m, p, i);
    TypeCodeAt(m, p, j);
    match i
    case One(f) =>
      EncOne(f);
      EncOne(j.f);
      FieldUnique(m, p, f, j.f);
    case Arr(name, es) =>
      ArrAt(m, p, name, es);
      ArrAt(m, p, j.name, j.entries);
      SameString(m, p + 5, name, j.name);
      ArrSize(name, es);
      ArrSize(name, j.entries);
      SameEntryCount(m, p + 6 + |name|, es, j.entries);
  }

  lemma ArrSize(name: CString, es: seq<seq<Field>>)
    ensures |EncItem(Arr(name, es))| == 13 + |name| + |EncEntries(es)|
  {
    EmptyFields();
  }

  lemma EmptyFields()
    ensures |EncFields([])| == 0
  {
  }

  predicate ExactableItems(items: seq<Item>) {
    forall i :: 0 <= i < |items| ==> Exactable(items[i])
  }

  lemma {:induction false} ItemsUnique(m: bytes, p: nat, a: seq<Item>, b: seq<Item>, k: nat)
    requires Holds(m, p, EncItems(a)) && Holds(m, p, EncItems(b)) && |m| < TWO_31
    requires ExactableItems(a) && ExactableItems(b) && k <= |a| && k <= |b|
    ensures a[..k] == b[..k]
  {
    hide EncItems, EncItem, Holds, Exactable;
    if k > 0 {
      ItemsUnique(m, p, a, b, k - 1);
      EncItemsAt(m, p, a, k - 1);
      EncItemsAt(m, p, b, k - 1);
      ItemUnique(m, p + |EncItems(a[..k - 1])|, a[k - 1], b[k - 1]);
      OneLonger(a, b, k - 1);
    }
  }

  /** Equal scope bytes are equal items, for entries of fewer than 65536 fields. */
  lemma ScopeDeterminesItems(a: seq<Item>, b: seq<Item>)
    requires EncItems(a) == EncItems(b) && |EncItems(a)| < TWO_31 && ExactableItems(a) && ExactableItems(b)
    ensures a == b
  {
    hide EncItems, EncItem, Exactable;
    var m := EncItems(a);
    assert m[0..|m|] == m;
    var k := if |a| < |b| then |a| else |b|;
    ItemsUnique(m, 0, a, b, k);
    assert a == a[..|a|] && b == b[..|b|];
    if |a| < |b| {
      EncItemsAt(m, 0, b, k);
    } else if |b| < |a| {
      EncItemsAt(m, 0, a, k);
    }
  }

  predicate ExactableEvents(events: seq<Event>) {
    forall i :: 0 <= i < |events| ==> ExactableItems(events[i].items) && |EncItems(events[i].items)| < TWO_31
  }

  /** What a drained reader shows determines the events completely. */
  lemma ViewsDetermineEvents(a: seq<Event>, b: seq<Event>)
    requires Views(a) == Views(b) && ExactableEvents(a) && ExactableEvents(b)
    ensures a == b
  {
    hide EncItems, ExactableItems;
    assert |a| == |Views(a)| == |b|;
    forall i | 0 <= i < |a|
      ensures a[i] == b[i]
    {
      assert Views(a)[i] == Views(b)[i];
      ScopeDeterminesItems(a[i].items, b[i].items);
    }
  }
}
