/** A C string kept inline up to 511 bytes and on the heap beyond: appending
    makes it the concatenation of everything written. */
module FixedString {
  import opened Bytes

  const STRING_SIZE: nat := 512

  // `inline` is the buffer of the Local variant, `heap` the string of Heap.
  datatype Repr = Local(buffer: bytes, len: nat) | Heap(heap: bytes, len: nat)

  datatype Append = Appended(s: Repr) | Panic

  predicate Valid(s: Repr) {
    match s
    case Local(buffer, len) => |buffer| == STRING_SIZE && len < STRING_SIZE
    case Heap(heap, len) => len == |heap| && len >= STRING_SIZE
  }

  // as_str
  function Text(s: Repr): bytes
    requires Valid(s)
  {
    match s
    case Local(buffer, len) => buffer[..len]
    case Heap(heap, _) => heap
  }

  // A fresh value over whatever the uninitialised buffer holds.
  function New(junk: bytes): Repr {
    Local(junk, 0)
  }

  predicate NoNul(b: bytes) {
    forall i :: 0 <= i < |b| ==> b[i] != 0
  }

  // write_str: the heap string refuses an interior NUL by panicking.
  function AppendTo(s: Repr, b: bytes): (r: Append)
    requires Valid(s)
    ensures r.Appended? ==> Valid(r.s)
  {
    var len := s.len + |b|;
    if len <= STRING_SIZE - 1 then
      Appended(Local(Put(Put(s.buffer, s.len, b), len, [0]), len))
    else if NoNul(Text(s) + b) then
      Appended(Heap(Text(s) + b, len))
    else Panic
  }

  /** What one append leaves: the concatenation; inline with a NUL behind it if
      and only if it is at most 511 bytes. It panics exactly when a string that
      no longer fits inline contains a NUL. */
  lemma WriteAppends(s: Repr, b: bytes)
    requires Valid(s)
    ensures var r := AppendTo(s, b);
            && (r.Panic? <==> s.len + |b| >= STRING_SIZE && !NoNul(Text(s) + b))
            && (r.Appended? ==>
                  && Text(r.s) == Text(s) + b
                  && (r.s.Local? <==> |Text(s) + b| < STRING_SIZE)
                  && (r.s.Local? ==> r.s.buffer[r.s.len] == 0))
  {
    var len := s.len + |b|;
    if len < STRING_SIZE {
      var once := Put(s.buffer, s.len, b);
      assert once[..len] == s.buffer[..s.len] + b;
      assert Put(once, len, [0])[..len] == once[..len];
    }
  }

  // A run of appends; it stops at a panic.
  function WriteAll(s: Repr, parts: seq<bytes>): Append
    requires Valid(s)
    decreases |parts|
  {
    if parts == [] then Appended(s)
    else
      var r := AppendTo(s, parts[0]);
      if r.Panic? then Panic else WriteAll(r.s, parts[1..])
  }

  /** After any sequence of appends without NULs the contents are all
      arguments concatenated, and the storage follows from their length. */
  lemma {:induction false} WriteAllConcatenates(s: Repr, parts: seq<bytes>)
    requires Valid(s) && NoNul(Text(s)) && forall i :: 0 <= i < |parts| ==> NoNul(parts[i])
    requires s.Local? ==> s.buffer[s.len] == 0
    ensures var r := WriteAll(s, parts);
            && r.Appended? && Valid(r.s)
            && Text(r.s) == Text(s) + Joined(parts) && NoNul(Text(r.s))
            && (r.s.Local? <==> |Text(r.s)| < STRING_SIZE)
            && (r.s.Local? ==> r.s.buffer[r.s.len] == 0)
    decreases |parts|
  {
    hide AppendTo;
    if parts == [] {
      assert Text(s) + [] == Text(s);
    } else {
      assert NoNul(parts[0]);
      WriteAppends(s, parts[0]);
      var s1 := AppendTo(s, parts[0]).s;
      WriteAllConcatenates(s1, parts[1..]);
      assert Text(s) + parts[0] + Joined(parts[1..]) == Text(s) + (parts[0] + Joined(parts[1..]));
    }
  }

  function Joined(parts: seq<bytes>): bytes {
    if parts == [] then [] else parts[0] + Joined(parts[1..])
  }

  // From a new value; a value never written to has no NUL yet.
  lemma NewConcatenates(junk: bytes, parts: seq<bytes>)
    requires |junk| == STRING_SIZE && parts != [] && forall i :: 0 <= i < |parts| ==> NoNul(parts[i])
    ensures var r := WriteAll(New(junk), parts);
            && r.Appended? && Valid(r.s) && Text(r.s) == Joined(parts)
            && (r.s.Local? <==> |Joined(parts)| <= 511)
            && (r.s.Local? ==> r.s.buffer[r.s.len] == 0)
  {
    hide AppendTo;
    assert NoNul(parts[0]);
    assert Text(New(junk)) + parts[0] == parts[0];
    WriteAppends(New(junk), parts[0]);
    WriteAllConcatenates(AppendTo(New(junk), parts[0]).s, parts[1..]);
  }

  class CFixedString {
    var isLocal: bool
    var buffer: array<byte>
    var heap: bytes
    var len: nat

    ghost function Abs(): Repr
      reads this, buffer
    {
      if isLocal then Local(buffer[..], len) else Heap(heap, len)
    }

    constructor ()
      ensures Valid(Abs()) && fresh(buffer) && Text(Abs()) == []
    {
      isLocal, heap, len := true, [], 0;
      buffer := new byte[STRING_SIZE];
    }

    method AsStr() returns (b: bytes)
      requires Valid(Abs())
      ensures b == Text(Abs())
    {
      if isLocal {
        b := buffer[..len];
      } else {
        b := heap;
      }
    }

    // ok is false where the source panics.
    method WriteStr(s: bytes) returns (ok: bool)
      requires Valid(Abs())
      modifies this, buffer
      ensures Valid(Abs()) && buffer == old(buffer)
      ensures (if ok then Appended(Abs()) else Panic) == AppendTo(old(Abs()), s)
      ensures !ok ==> Abs() == old(Abs())
    {
      var newLen := len + |s|;
      if newLen <= STRING_SIZE - 1 {
        Copy(len, s);
        Copy(newLen, [0]);
        len := newLen;
        return true;
      }
      var text := AsStr();
      var heapstring := text + s;
      var i := 0;
      while i < |heapstring|
        invariant 0 <= i <= |heapstring|
        invariant forall j :: 0 <= j < i ==> heapstring[j] != 0
      {
        if heapstring[i] == 0 {
          return false;
        }
        i := i + 1;
      }
      isLocal, heap, len := false, heapstring, newLen;
      return true;
    }

    // ptr::copy
    method Copy(p: nat, b: bytes)
      requires p + |b| <= buffer.Length
      modifies buffer
      ensures buffer[..] == Put(old(buffer[..]), p, b)
    {
      var i := 0;
      while i < |b|
        invariant 0 <= i <= |b|
        invariant forall j :: 0 <= j < buffer.Length ==>
                    buffer[j] == if p <= j < p + i then b[j - p] else old(buffer[j])
      {
        buffer[p + i] := b[i];
        i := i + 1;
      }
    }
  }
}
