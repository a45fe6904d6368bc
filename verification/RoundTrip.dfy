/** Reading back what was written: search, values, arrays and events. */
module RoundTrip {
  import opened Bytes
  import opened Format
  import opened BinaryReader
  import opened Codec

  // The record's own length fits its size bytes.
  predicate Small(f: Field) {
    match f
    case Num(_, t, v) => t.Fits(v) && |EncField(f)| < TWO_16
    case Str(_, _) => |EncField(f)| < TWO_16
    case Blob(_, _) => true
  }

  predicate Readable(items: seq<Item>) {
    forall i :: 0 <= i < |items| && items[i].One? ==> Small(items[i].f)
  }

  predicate ReadableEntries(es: seq<seq<Field>>) {
    forall k, i :: 0 <= k < |es| && 0 <= i < |es[k]| ==> Small(es[k][i])
  }

  // Index of the first item from k on with this id, or |items|.
  function First(items: seq<Item>, id: CString, k: nat): (j: nat)
    requires k <= |items|
    ensures k <= j <= |items|
    ensures forall i :: k <= i < j ==> items[i].Id() != id
    ensures j < |items| ==> items[j].Id() == id
    decreases |items| - k
  {
    if k == |items| || items[k].Id() == id then k else First(items, id, k + 1)
  }

  // Where item k of a scope at p starts.
  function Pos(p: nat, items: seq<Item>, k: nat): nat
    requires k <= |items|
  {
    p + |EncItems(items[..k])|
  }

  // Where the first item from k on with this id starts, or null.
  function PosOf(p: nat, items: seq<Item>, id: CString, k: nat): int
    requires k <= |items|
  {
    var j := First(items, id, k);
    if j < |items| then Pos(p, items, j) else 0
  }

  // The search from item k on finds the first match and nothing else.
  predicate FindsFirst(m: bytes, p: nat, items: seq<Item>, id: CString, k: nat)
    requires k <= |items|
  {
    var start, end := Pos(p, items, k), p + |EncItems(items)|;
    Walkable(m, start, end) && FindIdByRange(m, id, start, end) == PosOf(p, items, id, k)
  }

  lemma HeaderAt(m: bytes, p: nat, code: byte, id: CString, typeSize: nat)
    requires Holds(m, p, Header(code, id, typeSize)) && |id| + typeSize + 4 < TWO_16
    ensures At(m, p) == code && U16At(m, p + 1) == |id| + typeSize + 4
    ensures Holds(m, p + 3, id + [0])
  {
    HoldsSplit(m, p, [code] + BE16(|id| + typeSize + 4), id + [0]);
    HoldsSplit(m, p, [code], BE16(|id| + typeSize + 4));
    HoldsByte(m, p, [code], 0);
    U16Holds(m, p + 1, |id| + typeSize + 4);
  }

  lemma LongHeaderAt(m: bytes, p: nat, code: byte, size: nat, id: CString, rest: bytes)
    requires Holds(m, p, [code] + BE32(size) + (id + [0]) + rest) && size < TWO_32
    ensures At(m, p) == code && U32At(m, p + 1) == size
    ensures Holds(m, p + 5, id + [0]) && Holds(m, p + 6 + |id|, rest)
  {
    HoldsSplit(m, p, [code] + BE32(size) + (id + [0]), rest);
    HoldsSplit(m, p, [code] + BE32(size), id + [0]);
    HoldsSplit(m, p, [code], BE32(size));
    HoldsByte(m, p, [code], 0);
    U32Holds(m, p + 1, size);
  }

  // A number in memory: its header, and its payload at both offsets the
  // source computes.
  lemma NumAt(m: bytes, p: nat, id: CString, t: NumType, v: int)
    requires Holds(m, p, EncField(Num(id, t, v))) && Small(Num(id, t, v))
    ensures At(m, p) == t.Code() && U16At(m, p + 1) == |EncField(Num(id, t, v))|
    ensures Holds(m, p + 3, id + [0])
    ensures U16At(m, p + 1) - t.Width() == StrLen(m, p + 3) + 4
    ensures Holds(m, p + |id| + 4, Payload(t.Width(), v))
  {
    HoldsSplit(m, p, Header(t.Code(), id, t.Width()), Payload(t.Width(), v));
    HeaderAt(m, p, t.Code(), id, t.Width());
    StrLenHolds(m, p + 3, id);
  }

  lemma StrAt(m: bytes, p: nat, id: CString, s: CString)
    requires Holds(m, p, EncField(Str(id, s))) && Small(Str(id, s))
    ensures At(m, p) == TYPE_STRING && U16At(m, p + 1) == |EncField(Str(id, s))|
    ensures Holds(m, p + 3, id + [0]) && Holds(m, p + |id| + 4, s + [0])
  {
    HoldsSplit(m, p, Header(TYPE_STRING, id, |s| + 1), s + [0]);
    HeaderAt(m, p, TYPE_STRING, id, |s| + 1);
  }

  // Any record: its length and where its id lies.
  lemma ItemAt(m: bytes, p: nat, i: Item)
    requires Holds(m, p, EncItem(i)) && |m| < TWO_31
    requires i.One? ==> Small(i.f)
    ensures RecordSize(m, p) == |EncItem(i)| && WellSized(m, p)
    ensures Holds(m, NameAt(m, p), i.Id() + [0])
  {
    hide Holds, EncEntries, EncEntry, StrLen, At, U16At, U32At;
    HoldsBound(m, p, EncItem(i));
    match i {
      case One(Num(id, t, v)) => NumAt(m, p, id, t, v);
      case One(Str(id, s)) => StrAt(m, p, id, s);
      case One(Blob(id, d)) => LongHeaderAt(m, p, TYPE_DATA, |id| + 6 + |d|, id, d);
      case Arr(name, es) => ArrAt(m, p, name, es);
    }
    StrLenHolds(m, NameAt(m, p), i.Id());
  }

  lemma ArrAt(m: bytes, p: nat, name: CString, es: seq<seq<Field>>)
    requires Holds(m, p, EncItem(Arr(name, es))) && |m| < TWO_31
    ensures At(m, p) == TYPE_ARRAY && U32At(m, p + 1) == |EncItem(Arr(name, es))|
    ensures Holds(m, p + 5, name + [0])
    ensures Holds(m, p + 6 + |name|, EncEntries(es))
    ensures Holds(m, p + 6 + |name| + |EncEntries(es)|, EncEntry([]))
  {
    hide EncEntries, EncEntry, Holds, BE32, At, U32At;
    var body := (name + [0]) + EncEntries(es) + EncEntry([]);
    var size := 5 + |body|;
    HoldsBound(m, p, EncItem(Arr(name, es)));
    HoldsSplit(m, p, [TYPE_ARRAY] + BE32(size), body);
    HoldsSplit(m, p, [TYPE_ARRAY], BE32(size));
    HoldsSplit(m, p + 5, (name + [0]) + EncEntries(es), EncEntry([]));
    HoldsSplit(m, p + 5, name + [0], EncEntries(es));
    HoldsByte(m, p, [TYPE_ARRAY], 0);
    U32Holds(m, p + 1, size);
  }

  lemma HoldsBound(m: bytes, p: nat, b: bytes)
    requires Holds(m, p, b)
    ensures p + |b| <= |m|
  {
  }

  /** The scoped search finds exactly the first record with the id: it stays
      on record boundaries and skips arrays as a whole. */
  lemma {:induction false} SearchFrom(m: bytes, p: nat, items: seq<Item>, id: CString, k: nat)
    requires Holds(m, p, EncItems(items)) && Readable(items) && 0 < p && |m| < TWO_31
    requires k <= |items|
    ensures FindsFirst(m, p, items, id, k)
    decreases |items| - k
  {
    hide EncItem, EncItems, Holds;
    if k == |items| {
      assert items[..k] == items;
    } else {
      EncItemsAt(m, p, items, k);
      var q := Pos(p, items, k);
      ItemAt(m, q, items[k]);
      StrEqExact(m, NameAt(m, q), items[k].Id(), id);
      SearchFrom(m, p, items, id, k + 1);
      HoldsBound(m, p, EncItems(items));
    }
  }

  // The reader's scope for this iterator is exactly these items.
  predicate InScope(m: bytes, r: Reader, it: Iterator, items: seq<Item>) {
    && |m| < TWO_31 && Readable(items)
    && 0 < ScopeStart(r, it)
    && Holds(m, ScopeStart(r, it), EncItems(items))
    && ScopeEnd(r, it) == ScopeStart(r, it) + |EncItems(items)|
  }

  lemma FindIdFirst(m: bytes, r: Reader, it: Iterator, items: seq<Item>, id: CString)
    requires InScope(m, r, it, items)
    ensures Searchable(m, r, it) && FindId(m, r, id, it) == PosOf(ScopeStart(r, it), items, id, 0)
  {
    hide EncItem, Holds;
    SearchFrom(m, ScopeStart(r, it), items, id, 0);
    assert items[..0] == [] && EncItems([]) == [];
  }

  // The item found, in place.
  lemma FoundItem(m: bytes, r: Reader, it: Iterator, items: seq<Item>, id: CString)
    requires InScope(m, r, it, items) && First(items, id, 0) < |items|
    ensures Searchable(m, r, it)
    ensures var p := FindId(m, r, id, it); 0 < p && Holds(m, p, EncItem(items[First(items, id, 0)]))
  {
    hide EncItem, EncItems, Holds, FindId, Searchable;
    FindIdFirst(m, r, it, items, id);
    EncItemsAt(m, ScopeStart(r, it), items, First(items, id, 0));
  }

  /** What a typed find returns, in terms of the written items alone. */
  function ExpectValue(items: seq<Item>, id: CString, target: NumType): Found {
    var j := First(items, id, 0);
    if j == |items| then Found(NOT_FOUND, Untouched) else ItemValue(items[j], target)
  }

  function ItemValue(i: Item, target: NumType): Found {
    match i
    case One(Num(_, t, v)) =>
      if t == target then Found(OK + t.Code(), Value(ReadBack(t, t, v)))
      else if t.Double? then Found(CONVERTED + Float.Code(), ThroughFloat)
      else if t.Float? || !target.IsInteger() then Found(CONVERTED + t.Code(), ThroughFloat)
      else Found(CONVERTED + t.Code(), Value(ReadBack(t, target, v)))
    case _ => Found(ILLEGAL_TYPE + TypeCode(i), Untouched)
  }

  lemma ValueAtItem(m: bytes, p: nat, i: Item, target: NumType)
    requires Holds(m, p, EncItem(i)) && |m| < TWO_31
    requires i.One? ==> Small(i.f)
    ensures ValueAt(m, p, target) == ItemValue(i, target)
  {
    hide EncField, EncItem, Holds, GetSame, GetForConversion, Cast, Payload, At, U16At, StrLen;
    TypeCodeAt(m, p, i);
    match i
    case One(Num(id, t, v)) =>
      EncOne(i.f);
      NumAt(m, p, id, t, v);
      StrLenHolds(m, p + 3, id);
      PayloadAt(m, p + |id| + 4, t, v);
    case _ =>
  }

  /** Every typed find on a written scope stays inside the stream. */
  lemma FindStaysInside(m: bytes, r: Reader, it: Iterator, items: seq<Item>, id: CString, target: NumType)
    requires InScope(m, r, it, items)
    ensures Searchable(m, r, it)
    ensures var p := FindId(m, r, id, it); p == 0 || PayloadInside(m, p, target)
  {
    hide EncItem, EncItems, Holds, FindId, Searchable, PayloadInside;
    FindIdFirst(m, r, it, items, id);
    var j := First(items, id, 0);
    if j < |items| {
      FoundItem(m, r, it, items, id);
      ItemInside(m, FindId(m, r, id, it), items[j], target);
    }
  }

  lemma ItemInside(m: bytes, p: nat, i: Item, target: NumType)
    requires 0 < p && Holds(m, p, EncItem(i)) && |m| < TWO_31
    requires i.One? ==> Small(i.f)
    ensures PayloadInside(m, p, target)
  {
    hide EncItem, Holds, At, U16At, StrLen, Payload;
    HoldsBound(m, p, EncItem(i));
    TypeCodeAt(m, p, i);
    match i
    case One(Num(id, t, v)) =>
      EncOne(i.f);
      NumAt(m, p, id, t, v);
    case _ =>
  }

  lemma EncOne(f: Field)
    ensures EncItem(One(f)) == EncField(f)
  {
  }

  predicate FindsValue(m: bytes, r: Reader, it: Iterator, items: seq<Item>, id: CString, target: NumType) {
    Searchable(m, r, it) && FindValue(m, r, target, id, it) == ExpectValue(items, id, target)
  }

  /** A typed find on any scope returns what the first matching item dictates. */
  lemma FindsValueAlways(m: bytes, r: Reader, it: Iterator, items: seq<Item>, id: CString, target: NumType)
    requires InScope(m, r, it, items)
    ensures FindsValue(m, r, it, items, id, target)
  {
    hide EncItem, EncItems, Holds, ValueAt, ItemValue, FindId, Searchable;
    FindIdFirst(m, r, it, items, id);
    var j := First(items, id, 0);
    if j < |items| {
      FoundItem(m, r, it, items, id);
      ValueAtItem(m, FindId(m, r, id, it), items[j], target);
    }
  }

  /** The status of a find names the type that was written, converted or not, if
      and only if that is not a double found as something else; that one is
      called a float. */
  lemma StatusNamesType(m: bytes, r: Reader, it: Iterator, items: seq<Item>, id: CString, target: NumType)
    requires InScope(m, r, it, items) && First(items, id, 0) < |items|
    requires var i := items[First(items, id, 0)]; i.One? && i.f.Num?
    ensures Searchable(m, r, it)
    ensures var status, t := FindValue(m, r, target, id, it).status, items[First(items, id, 0)].f.t;
            && (status % 0x100 == t.Code() <==> t == target || !t.Double?)
            && (t.Double? && t != target ==> status == CONVERTED + Float.Code())
  {
    hide InScope, FindId, Searchable, ReadBack, ValueAt;
    FindsValueAlways(m, r, it, items, id, target);
  }

  lemma BlobAt(m: bytes, p: nat, id: CString, d: bytes)
    requires Holds(m, p, EncField(Blob(id, d))) && |m| < TWO_31
    ensures At(m, p) == TYPE_DATA && U32At(m, p + 1) == |id| + 6 + |d|
    ensures Holds(m, p + 5, id + [0]) && Holds(m, p + 6 + |id|, d)
  {
    LongHeaderAt(m, p, TYPE_DATA, |id| + 6 + |d|, id, d);
  }

  // A string, data or array search: success with the written contents, or the
  // status that says why not.
  function ExpectStatus(items: seq<Item>, id: CString, code: byte): int {
    var j := First(items, id, 0);
    if j == |items| then NOT_FOUND
    else if TypeCode(items[j]) == code then OK + code
    else ILLEGAL_TYPE + TypeCode(items[j])
  }

  function TypeCode(i: Item): byte {
    match i
    case One(Num(_, t, _)) => t.Code()
    case One(Str(_, _)) => TYPE_STRING
    case One(Blob(_, _)) => TYPE_DATA
    case Arr(_, _) => TYPE_ARRAY
  }

  lemma TypeCodeAt(m: bytes, p: nat, i: Item)
    requires Holds(m, p, EncItem(i)) && |m| < TWO_31
    requires i.One? ==> Small(i.f)
    ensures At(m, p) == TypeCode(i)
  {
    match i
    case One(Num(id, t, v)) => NumAt(m, p, id, t, v);
    case One(Str(id, s)) => StrAt(m, p, id, s);
    case One(Blob(id, d)) => BlobAt(m, p, id, d);
    case Arr(name, es) => ArrAt(m, p, name, es);
  }

  predicate FindsString(m: bytes, r: Reader, it: Iterator, items: seq<Item>, id: CString) {
    Searchable(m, r, it) &&
    var got := FindString(m, r, id, it);
    && got.status == ExpectStatus(items, id, TYPE_STRING)
    && (got.status == OK + TYPE_STRING ==>
          var i := items[First(items, id, 0)];
          i.One? && i.f.Str? && got.at > 0 && Holds(m, got.at, i.f.s + [0]))
  }

  lemma StringAtItem(m: bytes, p: nat, i: Item)
    requires Holds(m, p, EncItem(i)) && |m| < TWO_31
    requires i.One? ==> Small(i.f)
    ensures StringAt(m, p).status == if TypeCode(i) == TYPE_STRING then OK + TYPE_STRING else ILLEGAL_TYPE + TypeCode(i)
    ensures TypeCode(i) == TYPE_STRING ==> StringAt(m, p).at > 0 && Holds(m, StringAt(m, p).at, i.f.s + [0])
  {
    hide EncField, EncItem, Holds, At, StrLen;
    TypeCodeAt(m, p, i);
    if TypeCode(i) == TYPE_STRING {
      EncOne(i.f);
      StrAt(m, p, i.f.id, i.f.s);
      StrLenHolds(m, p + 3, i.f.id);
    }
  }

  lemma FindsStringAlways(m: bytes, r: Reader, it: Iterator, items: seq<Item>, id: CString)
    requires InScope(m, r, it, items)
    ensures FindsString(m, r, it, items, id)
  {
    hide EncItem, EncItems, Holds, StringAt, FindId, Searchable;
    FindIdFirst(m, r, it, items, id);
    var j := First(items, id, 0);
    if j < |items| {
      FoundItem(m, r, it, items, id);
      StringAtItem(m, FindId(m, r, id, it), items[j]);
    }
  }

  predicate FindsData(m: bytes, r: Reader, it: Iterator, items: seq<Item>, id: CString) {
    Searchable(m, r, it) &&
    var got := FindData(m, r, id, it);
    && got.status == ExpectStatus(items, id, TYPE_DATA)
    && (got.status == OK + TYPE_DATA ==>
          var i := items[First(items, id, 0)];
          i.One? && i.f.Blob? && got.at > 0 && got.size == |i.f.d| && Holds(m, got.at, i.f.d))
  }

  lemma DataAtItem(m: bytes, p: nat, i: Item)
    requires Holds(m, p, EncItem(i)) && |m| < TWO_31
    requires i.One? ==> Small(i.f)
    ensures DataAt(m, p).status == if TypeCode(i) == TYPE_DATA then OK + TYPE_DATA else ILLEGAL_TYPE + TypeCode(i)
    ensures TypeCode(i) == TYPE_DATA ==>
              DataAt(m, p).at > 0 && DataAt(m, p).size == |i.f.d| && Holds(m, DataAt(m, p).at, i.f.d)
  {
    hide EncField, EncItem, Holds, At, U32At, StrLen;
    TypeCodeAt(m, p, i);
    if TypeCode(i) == TYPE_DATA {
      EncOne(i.f);
      BlobAt(m, p, i.f.id, i.f.d);
      StrLenHolds(m, p + 5, i.f.id);
      HoldsBound(m, p + 6 + |i.f.id|, i.f.d);
    }
  }

  lemma FindsDataAlways(m: bytes, r: Reader, it: Iterator, items: seq<Item>, id: CString)
    requires InScope(m, r, it, items)
    ensures FindsData(m, r, it, items, id)
  {
    hide EncItem, EncItems, Holds, DataAt, FindId, Searchable;
    FindIdFirst(m, r, it, items, id);
    var j := First(items, id, 0);
    if j < |items| {
      FoundItem(m, r, it, items, id);
      DataAtItem(m, FindId(m, r, id, it), items[j]);
    }
  }

  // An iterator over the entries es, encoded from q on, that has yielded the
  // first k of them; its scope is the entry yielded last.
  predicate Iterating(m: bytes, r: Reader, it: Iterator, q: int, es: seq<seq<Field>>, k: nat)
    requires k <= |es|
  {
    && |m| < TWO_31 && r.dataStart == 4 < q && ReadableEntries(es) && it != 0
    && Holds(m, q, EncEntries(es)) && Holds(m, q + |EncEntries(es)|, EncEntry([]))
    && 4 + it / TWO_32 + it % TWO_32 == q + |EncEntries(es[..k])|
    && (k > 0 ==> InScope(m, r, it, AsItems(es[k - 1])))
  }

  // The packed iterator loses nothing.
  lemma Packed(r: Reader, p: nat, size: nat)
    requires r.dataStart == 4 < p < TWO_32 + 4 && size < TWO_32
    ensures var it := OffsetUpper(r, p) + size;
            it < TWO_64 && it / TWO_32 == p - 4 && it % TWO_32 == size && it != 0
  {
  }

  // Where the entries of the array found start.
  function EntriesStart(m: bytes, r: Reader, it: Iterator, id: CString): int
    requires Searchable(m, r, it)
  {
    FindId(m, r, id, it) + 6 + |id|
  }

  predicate FindsArray(m: bytes, r: Reader, it: Iterator, items: seq<Item>, id: CString) {
    Searchable(m, r, it) &&
    var got := FindArray(m, r, id, it);
    && got.status == ExpectStatus(items, id, TYPE_ARRAY)
    && (got.status == OK + TYPE_ARRAY ==>
          var i := items[First(items, id, 0)];
          i.Arr? && (ReadableEntries(i.entries) ==>
                       Iterating(m, r, got.it, EntriesStart(m, r, it, id), i.entries, 0)))
  }

  lemma ArrayAtItem(m: bytes, r: Reader, p: nat, i: Item)
    requires Holds(m, p, EncItem(i)) && |m| < TWO_31 && r.dataStart == 4
    requires i.One? ==> Small(i.f)
    ensures ArrayAt(m, r, p).status == if TypeCode(i) == TYPE_ARRAY then OK + TYPE_ARRAY else ILLEGAL_TYPE + TypeCode(i)
    ensures TypeCode(i) == TYPE_ARRAY && ReadableEntries(i.entries) ==>
              Iterating(m, r, ArrayAt(m, r, p).it, p + 6 + |i.name|, i.entries, 0)
  {
    hide EncItem, EncEntries, EncEntry, Holds, At, StrLen, OffsetUpper, InScope;
    TypeCodeAt(m, p, i);
    if TypeCode(i) == TYPE_ARRAY {
      var q := p + 6 + |i.name|;
      ArrAt(m, p, i.name, i.entries);
      StrLenHolds(m, p + 5, i.name);
      HoldsBound(m, q + |EncEntries(i.entries)|, EncEntry([]));
      Packed(r, q, 0);
      assert i.entries[..0] == [];
      NoEntries();
    }
  }

  lemma FindsArrayAlways(m: bytes, r: Reader, it: Iterator, items: seq<Item>, id: CString)
    requires InScope(m, r, it, items) && r.dataStart == 4
    ensures FindsArray(m, r, it, items, id)
  {
    hide EncItem, EncItems, Holds, ArrayAt, FindId, Searchable, Iterating;
    FindIdFirst(m, r, it, items, id);
    var j := First(items, id, 0);
    if j < |items| {
      FoundItem(m, r, it, items, id);
      ArrayAtItem(m, r, FindId(m, r, id, it), items[j]);
    }
  }

  lemma NoEntries()
    ensures |EncEntries([])| == 0
  {
  }

  lemma EntryAt(m: bytes, p: nat, fs: seq<Field>)
    requires Holds(m, p, EncEntry(fs)) && |m| < TWO_31
    ensures At(m, p) == TYPE_ENTRY && U32At(m, p + 1) == |EncEntry(fs)|
    ensures U16At(m, p + 5) == |fs| % TWO_16
    ensures Holds(m, p + 7, EncFields(fs))
  {
    hide EncFields, Concat;
    var size := 7 + |EncFields(fs)|;
    HoldsBound(m, p, EncEntry(fs));
    HoldsSplit(m, p, [TYPE_ENTRY] + BE32(size) + BE16(|fs|), EncFields(fs));
    HoldsSplit(m, p, [TYPE_ENTRY] + BE32(size), BE16(|fs|));
    HoldsSplit(m, p, [TYPE_ENTRY], BE32(size));
    HoldsByte(m, p, [TYPE_ENTRY], 0);
    U32Holds(m, p + 1, size);
    U16Holds(m, p + 5, |fs|);
  }

  // The iterator on the entry at p has that entry as its scope.
  lemma EntryStep(m: bytes, r: Reader, it: Iterator, p: nat, fs: seq<Field>)
    requires |m| < TWO_31 && r.dataStart == 4 < p && 4 + it / TWO_32 + it % TWO_32 == p
    requires Holds(m, p, EncEntry(fs)) && forall i :: 0 <= i < |fs| ==> Small(fs[i])
    ensures var next := NextEntry(m, r, it);
            && next.entries == |fs| % TWO_16 && next.it != 0
            && 4 + next.it / TWO_32 + next.it % TWO_32 == p + |EncEntry(fs)|
            && InScope(m, r, next.it, AsItems(fs))
  {
    hide EncFields, EncItems, EncEntry, Holds, At, U16At, U32At, OffsetUpper;
    EntryAt(m, p, fs);
    HoldsBound(m, p, EncEntry(fs));
    Packed(r, p + 7, |EncFields(fs)|);
    AsItemsEnc(fs);
  }

  /** Each step of the iterator yields the next entry's field count and makes
      that entry the scope; after the last it yields 0, the terminator. */
  lemma NextEntryStep(m: bytes, r: Reader, it: Iterator, q: nat, es: seq<seq<Field>>, k: nat)
    requires k <= |es| && Iterating(m, r, it, q, es, k)
    ensures k < |es| ==>
              var next := NextEntry(m, r, it);
              next.entries == |es[k]| % TWO_16 && Iterating(m, r, next.it, q, es, k + 1)
    ensures k == |es| ==> NextEntry(m, r, it).entries == 0
  {
    hide EncEntry, EncEntries, Holds, InScope, NextEntry;
    var p := q + |EncEntries(es[..k])|;
    if k < |es| {
      EncEntriesAt(m, q, es, k);
      EntryStep(m, r, it, p, es[k]);
    } else {
      assert es[..k] == es;
      EntryStep(m, r, it, p, []);
    }
  }

  /** So does every step of an array iterator. */
  lemma NextEntryInside(m: bytes, r: Reader, it: Iterator, q: nat, es: seq<seq<Field>>, k: nat)
    requires k <= |es| && Iterating(m, r, it, q, es, k)
    ensures 0 <= r.dataStart + it / TWO_32 + it % TWO_32 && r.dataStart + it / TWO_32 + it % TWO_32 + 7 <= |m|
  {
    hide EncEntry, EncEntries, Holds, InScope;
    if k < |es| {
      EncEntriesAt(m, q, es, k);
      HoldsBound(m, q + |EncEntries(es[..k])|, EncEntry(es[k]));
    } else {
      assert es[..k] == es;
      HoldsBound(m, q + |EncEntries(es)|, EncEntry([]));
    }
  }
}
