/** Bytes, C strings, big-endian integers and the C integer conversions the
    message format relies on. Pointers into a buffer are offsets. */
module Bytes {

  type byte = x: int | 0 <= x < 256
  type bytes = seq<byte>

  // A C string without its terminator.
  type CString = s: bytes | forall i :: 0 <= i < |s| ==> s[i] != 0

  const TWO_8: int := 0x100
  const TWO_16: int := 0x1_0000
  const TWO_24: int := 0x100_0000
  const TWO_31: int := 0x8000_0000
  const TWO_32: int := 0x1_0000_0000
  const TWO_40: int := 0x100_0000_0000
  const TWO_48: int := 0x1_0000_0000_0000
  const TWO_56: int := 0x100_0000_0000_0000
  const TWO_63: int := 0x8000_0000_0000_0000
  const TWO_64: int := 0x1_0000_0000_0000_0000

  // The source writes each byte as (v >> k) & 0xff, for signed v too: an
  // arithmetic shift is a floored division.
  function BE16(v: int): (b: bytes)
    ensures |b| == 2
  {
    [v / TWO_8 % 256, v % 256]
  }

  function BE32(v: int): (b: bytes)
    ensures |b| == 4
  {
    [v / TWO_24 % 256, v / TWO_16 % 256, v / TWO_8 % 256, v % 256]
  }

  function BE64(v: int): (b: bytes)
    ensures |b| == 8
  {
    [v / TWO_56 % 256, v / TWO_48 % 256, v / TWO_40 % 256, v / TWO_32 % 256,
     v / TWO_24 % 256, v / TWO_16 % 256, v / TWO_8 % 256, v % 256]
  }

  /** The byte at offset p. The readers never look outside the buffer on the
      streams this model is about; elsewhere the value is immaterial. */
  function At(m: bytes, p: int): byte {
    if 0 <= p < |m| then m[p] else 0
  }

  function U16At(m: bytes, p: int): (v: int)
    ensures 0 <= v < TWO_16
  {
    At(m, p) * TWO_8 + At(m, p + 1)
  }

  function U32At(m: bytes, p: int): (v: int)
    ensures 0 <= v < TWO_32
  {
    At(m, p) * TWO_24 + At(m, p + 1) * TWO_16 + At(m, p + 2) * TWO_8 + At(m, p + 3)
  }

  // Conversions to the signed C integer types, as two's complement.
  function ToS8(v: int): (s: int)
    ensures -128 <= s < 128 && s % TWO_8 == v % TWO_8
    ensures -128 <= v < 128 ==> s == v
  {
    if v % TWO_8 < 128 then v % TWO_8 else v % TWO_8 - TWO_8
  }

  function ToS16(v: int): (s: int)
    ensures -0x8000 <= s < 0x8000 && s % TWO_16 == v % TWO_16
    ensures -0x8000 <= v < 0x8000 ==> s == v
  {
    if v % TWO_16 < 0x8000 then v % TWO_16 else v % TWO_16 - TWO_16
  }

  function ToS32(v: int): (s: int)
    ensures -TWO_31 <= s < TWO_31 && s % TWO_32 == v % TWO_32
    ensures -TWO_31 <= v < TWO_31 ==> s == v
  {
    if v % TWO_32 < TWO_31 then v % TWO_32 else v % TWO_32 - TWO_32
  }

  function ToS64(v: int): (s: int)
    ensures -TWO_63 <= s < TWO_63 && s % TWO_64 == v % TWO_64
    ensures -TWO_63 <= v < TWO_63 ==> s == v
  {
    if v % TWO_64 < TWO_63 then v % TWO_64 else v % TWO_64 - TWO_64
  }

  // The slice of m at p is b.
  predicate Holds(m: bytes, p: nat, b: bytes) {
    p + |b| <= |m| && m[p..p + |b|] == b
  }

  // memcpy of b to offset p.
  function Put(m: bytes, p: nat, b: bytes): (r: bytes)
    requires p + |b| <= |m|
    ensures |r| == |m|
  {
    m[..p] + b + m[p + |b|..]
  }

  lemma PutHolds(m: bytes, p: nat, b: bytes)
    requires p + |b| <= |m|
    ensures Holds(Put(m, p, b), p, b)
  {
  }

  lemma HoldsSplit(m: bytes, p: nat, a: bytes, b: bytes)
    ensures Holds(m, p, a + b) <==> Holds(m, p, a) && Holds(m, p + |a|, b)
  {
    if p + |a| + |b| <= |m| {
      var x, y := m[p..p + |a|], m[p + |a|..p + |a| + |b|];
      assert m[p..p + |a + b|] == x + y;
      assert x == (x + y)[..|a|] && y == (x + y)[|a|..];
      assert a == (a + b)[..|a|] && b == (a + b)[|a|..];
    }
  }

  // Writing outside a region leaves it alone.
  lemma PutElsewhere(m: bytes, p: nat, b: bytes, q: nat, c: bytes)
    requires p + |b| <= |m|
    requires q + |c| <= p || p + |b| <= q
    ensures Holds(Put(m, p, b), q, c) == Holds(m, q, c)
  {
    var r := Put(m, p, b);
    assert r == m[..p] + b + m[p + |b|..];
    assert forall i :: 0 <= i < p ==> r[i] == m[i];
    assert forall i :: p + |b| <= i < |m| ==> r[i] == m[i];
    assert r[..p] == m[..p];
    assert r[p + |b|..] == m[p + |b|..];
    if q + |c| <= p {
      assert r[q..q + |c|] == r[..p][q..q + |c|] && m[q..q + |c|] == m[..p][q..q + |c|];
    } else if q + |c| <= |m| {
      var k := p + |b|;
      assert r[q..q + |c|] == r[k..][q - k..q - k + |c|];
      assert m[q..q + |c|] == m[k..][q - k..q - k + |c|];
    }
  }

  // Two writes side by side are one write of the concatenation.
  lemma PutPut(m: bytes, p: nat, a: bytes, b: bytes)
    requires p + |a| + |b| <= |m|
    ensures Put(Put(m, p, a), p + |a|, b) == Put(m, p, a + b)
  {
  }

  lemma HoldsByte(m: bytes, p: nat, b: bytes, i: nat)
    requires Holds(m, p, b) && i < |b|
    ensures At(m, p + i) == b[i]
  {
    assert m[p..p + |b|][i] == m[p + i];
  }

  lemma U16Holds(m: bytes, p: nat, v: int)
    requires Holds(m, p, BE16(v))
    ensures U16At(m, p) == v % TWO_16
  {
    HoldsByte(m, p, BE16(v), 0);
    HoldsByte(m, p, BE16(v), 1);
  }

  lemma U32Holds(m: bytes, p: nat, v: int)
    requires Holds(m, p, BE32(v))
    ensures U32At(m, p) == v % TWO_32
  {
    HoldsByte(m, p, BE32(v), 0);
    HoldsByte(m, p, BE32(v), 1);
    HoldsByte(m, p, BE32(v), 2);
    HoldsByte(m, p, BE32(v), 3);
    Digits32(v);
  }

  lemma Digits32(v: int)
    ensures v / TWO_24 % 256 * TWO_24 + v / TWO_16 % 256 * TWO_16 + v / TWO_8 % 256 * TWO_8 + v % 256 == v % TWO_32
  {
    assert v / TWO_16 == v / TWO_8 / 256;
    assert v / TWO_24 == v / TWO_16 / 256;
    assert v / TWO_32 == v / TWO_24 / 256;
  }

  lemma HighWord(v: int)
    ensures v / TWO_40 == v / TWO_32 / TWO_8 && v / TWO_48 == v / TWO_32 / TWO_16
    ensures v / TWO_56 == v / TWO_32 / TWO_24
    ensures v % TWO_64 == v / TWO_32 % TWO_32 * TWO_32 + v % TWO_32
  {
  }

  /** strcmp(m + p, id) == 0 */
  predicate StrEqAt(m: bytes, p: int, id: CString) {
    p >= 0 && Holds(m, p, id + [0])
  }

  /** strlen(m + p); the length up to the end of the buffer when there is no NUL. */
  function StrLen(m: bytes, p: nat): (n: nat)
    ensures p <= |m| ==> p + n <= |m|
    ensures forall i :: p <= i < p + n ==> At(m, i) != 0
    ensures p + n < |m| ==> At(m, p + n) == 0
    decreases |m| - p
  {
    if p >= |m| || m[p] == 0 then 0 else 1 + StrLen(m, p + 1)
  }

  lemma {:induction false} StrLenHolds(m: bytes, p: nat, s: CString)
    requires Holds(m, p, s + [0])
    ensures StrLen(m, p) == |s|
  {
    var n := StrLen(m, p);
    HoldsByte(m, p, s + [0], |s|);
    if n < |s| {
      HoldsByte(m, p, s + [0], n);
      assert false;
    }
  }

  // A C string in memory determines the string, so strcmp decides equality.
  lemma StrEqExact(m: bytes, p: nat, s: CString, id: CString)
    requires Holds(m, p, s + [0])
    ensures StrEqAt(m, p, id) <==> s == id
  {
    if StrEqAt(m, p, id) {
      StrLenHolds(m, p, s);
      StrLenHolds(m, p, id);
      assert s == (s + [0])[..|s|] && id == (id + [0])[..|id|];
    }
  }

  // Records laid end to end.
  function Concat(parts: seq<bytes>): bytes {
    if parts == [] then [] else Concat(parts[..|parts| - 1]) + parts[|parts| - 1]
  }

  lemma ConcatSnoc(parts: seq<bytes>, b: bytes)
    ensures Concat(parts + [b]) == Concat(parts) + b
  {
    assert (parts + [b])[..|parts|] == parts;
  }

  // Where part k of a concatenation lies in memory.
  lemma {:induction false} ConcatAt(m: bytes, p: nat, parts: seq<bytes>, k: nat)
    requires Holds(m, p, Concat(parts)) && k < |parts|
    ensures Holds(m, p + |Concat(parts[..k])|, parts[k])
    ensures |Concat(parts[..k + 1])| == |Concat(parts[..k])| + |parts[k]|
    ensures |Concat(parts[..k + 1])| <= |Concat(parts)|
  {
    var n := |parts| - 1;
    var init := parts[..n];
    HoldsSplit(m, p, Concat(init), parts[n]);
    ConcatSnoc(parts[..k], parts[k]);
    assert parts[..k + 1] == parts[..k] + [parts[k]];
    if k < n {
      ConcatAt(m, p, init, k);
      assert init[..k] == parts[..k] && init[..k + 1] == parts[..k + 1];
    } else {
      assert parts[..k + 1] == parts;
    }
  }
}
