/** Integers through the stream: what a find returns for a number that was
    written, and exactly when that is the number itself. */
module Codec {
  import opened Bytes
  import opened Format
  import opened BinaryReader

  // What finding a record of type t, value v as `target` returns.
  function ReadBack(t: NumType, target: NumType, v: int): int
    requires t == target || (t.IsInteger() && target.IsInteger())
  {
    var b := Payload(t.Width(), v);
    if t == target then GetSame(t, b, 0) else Cast(target, GetForConversion(t, b, 0))
  }

  // The damage done to the upper half of a 64-bit value.
  predicate Survives64(v: int) {
    v % TWO_32 < TWO_31 || v / TWO_32 % TWO_32 == TWO_32 - 1
  }

  /** The exact domain of a find: the value fits the target and the getter
      used for the record does not lose it. */
  predicate Exact(t: NumType, target: NumType, v: int) {
    && target.Fits(v)
    && (t.S16? ==> 0 <= v || target.Width() <= 2)
    && (t.U32? && target.Width() == 8 ==> v < TWO_31)
    && (t.Width() == 8 && target.Width() == 8 ==> Survives64(v))
  }

  lemma Read16(v: int)
    ensures U16At(BE16(v), 0) == v % TWO_16
  {
  }

  lemma Read32(v: int)
    ensures U32At(BE32(v), 0) == v % TWO_32
  {
    Digits32(v);
  }

  // A 64-bit read: the value, or all ones above a set bit 31.
  function Mangle(v: int): (u: int)
    ensures 0 <= u < TWO_64 && u % TWO_32 == v % TWO_32
    ensures u == v % TWO_64 <==> Survives64(v)
  {
    HighWord(v);
    (if v % TWO_32 >= TWO_31 then TWO_32 - 1 else v / TWO_32 % TWO_32) * TWO_32 + v % TWO_32
  }

  lemma Read64(v: int)
    ensures GetU64(BE64(v), 0) == Mangle(v)
  {
    HighWord(v);
    Digits32(v);
    Digits32(v / TWO_32);
    var b := BE64(v);
    assert U32At(b, 0) == v / TWO_32 % TWO_32;
    assert U32At(b, 4) == v % TWO_32;
  }

  // What a converting find fetches, before the cast to its target.
  function Fetched(t: NumType, v: int): int
    requires t.IsInteger()
  {
    match t
    case S8 => v
    case U8 => v
    case S16 => v % TWO_16
    case U16 => v
    case S32 => v
    case U32 => ToS32(v)
    case S64 => Mangle(v)
    case U64 => Mangle(v)
  }

  lemma FetchedAt(t: NumType, v: int)
    requires t.IsInteger() && t.Fits(v)
    ensures GetForConversion(t, Payload(t.Width(), v), 0) == Fetched(t, v)
    ensures GetSame(t, Payload(t.Width(), v), 0) ==
            if t.Width() < 8 then v else if t.S64? then ToS64(Mangle(v)) else Mangle(v)
  {
    hide BE16, BE32, BE64, U16At, U32At, GetU64, Mangle;
    Read16(v);
    Read32(v);
    Read64(v);
    match t
    case S8 =>
    case U8 =>
    case S16 =>
    case U16 =>
    case S32 =>
    case U32 =>
    case S64 =>
    case U64 =>
  }

  // A cast keeps exactly the values of its type.
  lemma CastExact(target: NumType, v: int)
    requires target.IsInteger()
    ensures Cast(target, v) == v <==> target.Fits(v)
  {
    match target
    case S8 =>
    case U8 =>
    case S16 =>
    case U16 =>
    case S32 =>
    case U32 =>
    case S64 =>
    case U64 =>
  }

  // Signed shorts are fetched unsigned.
  lemma ShortExact(target: NumType, v: int)
    requires target.IsInteger() && S16.Fits(v)
    ensures Cast(target, v % TWO_16) == v <==> target.Fits(v) && (0 <= v || target.Width() <= 2)
  {
    match target
    case S8 =>
    case U8 =>
    case S16 =>
    case U16 =>
    case S32 =>
    case U32 =>
    case S64 =>
    case U64 =>
  }

  // Unsigned words are fetched signed.
  lemma WordExact(target: NumType, v: int)
    requires target.IsInteger() && U32.Fits(v)
    ensures Cast(target, ToS32(v)) == v <==> target.Fits(v) && (target.Width() == 8 ==> v < TWO_31)
  {
    match target
    case S8 =>
    case U8 =>
    case S16 =>
    case U16 =>
    case S32 =>
    case U32 =>
    case S64 =>
    case U64 =>
  }

  // Casting to 32 bits or less looks at the low word only.
  lemma LowExact(target: NumType, u: int, v: int)
    requires target.IsInteger() && target.Width() < 8 && u % TWO_32 == v % TWO_32
    ensures Cast(target, u) == v <==> target.Fits(v)
  {
    SameLowBits(u, v);
    CastExact(target, v);
    assert Cast(target, u) == Cast(target, v);
  }

  lemma SameLowBits(u: int, v: int)
    requires u % TWO_32 == v % TWO_32
    ensures u % TWO_16 == v % TWO_16 && u % TWO_8 == v % TWO_8
  {
    LowBits(u, u / TWO_32, u % TWO_32);
    LowBits(v, v / TWO_32, v % TWO_32);
  }

  lemma LowBits(v: int, k: int, r: int)
    requires v == 0x1_0000_0000 * k + r
    ensures v % TWO_16 == r % TWO_16 && v % TWO_8 == r % TWO_8
  {
    Digit16(0x1_0000 * k + r / 0x1_0000, r % 0x1_0000);
    Digit8(0x100_0000 * k + r / 0x100, r % 0x100);
  }

  lemma Digit16(q: int, d: int)
    requires 0 <= d < 0x1_0000
    ensures (0x1_0000 * q + d) % 0x1_0000 == d
  {
  }

  lemma Digit8(q: int, d: int)
    requires 0 <= d < 0x100
    ensures (0x100 * q + d) % 0x100 == d
  {
  }

  lemma HighExact(target: NumType, u: int, v: int)
    requires target.IsInteger() && target.Width() == 8 && 0 <= u < TWO_64
    requires S64.Fits(v) || U64.Fits(v)
    ensures Cast(target, u) == v <==> target.Fits(v) && u == v % TWO_64
  {
    match target
    case S64 =>
    case U64 =>
  }

  /** A find returns the written value exactly on the domain Exact. */
  lemma ReadBackExact(t: NumType, target: NumType, v: int)
    requires t.IsInteger() && target.IsInteger() && t.Fits(v)
    ensures ReadBack(t, target, v) == v <==> Exact(t, target, v)
  {
    hide Mangle, GetSame, GetForConversion, Cast, Payload;
    FetchedAt(t, v);
    if t.Width() == 8 {
      var u := Mangle(v);
      if target.Width() < 8 {
        LowExact(target, u, v);
      } else {
        HighExact(target, u, v);
      }
    } else if t != target {
      CastExact(target, v);
      match t
      case S8 =>
      case U8 =>
      case S16 => ShortExact(target, v);
      case U16 =>
      case S32 =>
      case U32 => WordExact(target, v);
    }
  }

  // What the getters make of v before it is fitted to its target: 64-bit values
  // extend from bit 31, and when the type changes, signed shorts lose their sign
  // and unsigned words gain one.
  function Seen(t: NumType, target: NumType, v: int): int {
    if t.Width() == 8 then (if v % TWO_32 >= TWO_31 then v % TWO_32 - TWO_32 else v)
    else if t == target then v
    else if t.S16? then v % TWO_16
    else if t.U32? && v >= TWO_31 then v - TWO_32
    else v
  }

  // The number of values of a type.
  function Values(t: NumType): int {
    if t.Width() == 1 then TWO_8 else if t.Width() == 2 then TWO_16 else if t.Width() == 4 then TWO_32 else TWO_64
  }

  lemma CastWraps(target: NumType, u: int)
    requires target.IsInteger()
    ensures target.Fits(Cast(target, u)) && Cast(target, u) % Values(target) == u % Values(target)
  {
    match target
    case S8 =>
    case U8 =>
    case S16 =>
    case U16 =>
    case S32 =>
    case U32 =>
    case S64 =>
    case U64 =>
  }

  // The same residue for every target.
  lemma MangleSeen(v: int, target: NumType)
    requires target.IsInteger() && (S64.Fits(v) || U64.Fits(v))
    ensures Mangle(v) % Values(target) == (if v % TWO_32 >= TWO_31 then v % TWO_32 - TWO_32 else v) % Values(target)
  {
    hide Mangle;
    var s := if v % TWO_32 >= TWO_31 then v % TWO_32 - TWO_32 else v;
    if target.Width() == 8 {
      MangleWhole(v);
    } else {
      SameLowBits(Mangle(v), v);
      SameLowBits(s, v);
    }
  }

  lemma MangleWhole(v: int)
    ensures Mangle(v) % TWO_64 == (if v % TWO_32 >= TWO_31 then v % TWO_32 - TWO_32 else v) % TWO_64
  {
    HighWord(v);
  }

  /** Outside the exact domain too: a find returns the value of the target type that
      agrees modulo its size with what the getters see. */
  lemma ReadBackWraps(t: NumType, target: NumType, v: int)
    requires t.IsInteger() && target.IsInteger() && t.Fits(v)
    ensures var r := ReadBack(t, target, v);
            target.Fits(r) && r % Values(target) == Seen(t, target, v) % Values(target)
  {
    hide Mangle, GetSame, GetForConversion, Cast, Payload, Values;
    FetchedAt(t, v);
    if t.Width() == 8 {
      MangleSeen(v, target);
      CastWraps(target, Mangle(v));
      SameCast(t, Mangle(v));
    } else if t != target {
      CastWraps(target, Fetched(t, v));
      FetchedSeen(t, target, v);
    }
  }

  // Reading a 64-bit type as itself is the cast, too.
  lemma SameCast(t: NumType, u: int)
    requires t.IsInteger() && t.Width() == 8 && 0 <= u < TWO_64
    ensures Cast(t, u) == if t.S64? then ToS64(u) else u
  {
  }

  lemma FetchedSeen(t: NumType, target: NumType, v: int)
    requires t.IsInteger() && t.Width() < 8 && t.Fits(v) && t != target
    ensures Fetched(t, v) == Seen(t, target, v)
  {
  }

  /** Floats survive; a double survives unless its low word has bit 31 set
      and its high word is not all ones. */
  lemma FloatsExact(v: int)
    ensures Float.Fits(v) ==> ReadBack(Float, Float, v) == v
    ensures Double.Fits(v) ==> (ReadBack(Double, Double, v) == v <==> Survives64(v))
  {
    hide BE32, BE64, U32At, GetU64, Mangle;
    Read32(v);
    Read64(v);
    var u := Mangle(v);
  }

  // 0.1 as a double is 0x3fb999999999999a: it does not survive.
  lemma TenthIsLost()
    ensures Double.Fits(0x3fb9_9999_9999_999a)
    ensures ReadBack(Double, Double, 0x3fb9_9999_9999_999a) == 0xffff_ffff_9999_999a
  {
    Read64(0x3fb9_9999_9999_999a);
  }

  // Reading depends only on the payload bytes.
  lemma PayloadAt(m: bytes, p: nat, t: NumType, v: int)
    requires Holds(m, p, Payload(t.Width(), v))
    ensures GetSame(t, m, p) == GetSame(t, Payload(t.Width(), v), 0)
    ensures t.IsInteger() ==> GetForConversion(t, m, p) == GetForConversion(t, Payload(t.Width(), v), 0)
  {
    var b := Payload(t.Width(), v);
    forall i | 0 <= i < |b|
      ensures At(m, p + i) == At(b, i)
    {
      HoldsByte(m, p, b, i);
    }
    assert At(m, p) == At(b, 0);
    if t.Width() >= 2 {
      assert At(m, p + 1) == At(b, 1);
    }
    if t.Width() >= 4 {
      assert U32At(m, p) == U32At(b, 0) by {
        assert At(m, p + 2) == At(b, 2) && At(m, p + 3) == At(b, 3);
      }
    }
    if t.Width() == 8 {
      assert U32At(m, p + 4) == U32At(b, 4) by {
        assert At(m, p + 4 + 1) == At(b, 4 + 1) && At(m, p + 4 + 2) == At(b, 4 + 2);
        assert At(m, p + 4) == At(b, 4) && At(m, p + 4 + 3) == At(b, 4 + 3);
      }
    }
  }
}
