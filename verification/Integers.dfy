// What the operators of the filter language make of integers, in whatever representation
// (genet-filter/src/variant.rs).
module Integers {
  import opened Base
  import opened Frames
  import opened Numerals
  import opened Variants

  // A value that stands for an integer.
  predicate IsInteger(v: Variant)
  {
    InRange(v) && (v.Int64? || v.UInt64? || v.BigInt? || v.Buffer? || v.Slice?)
  }

  function IntegerOf(v: Variant): int
    requires IsInteger(v)
  {
    match v
    case Int64(i) => i
    case UInt64(u) => u
    case BigInt(b) => FromSignedBytes(b)
    case Buffer(b) => Magnitude(b)
    case Slice(b) => Magnitude(b)
  }

  // A BigInt has no needless first byte. Literals, arithmetic and buffers only make such ones.
  predicate Canonical(v: Variant)
  {
    v.BigInt? ==> Minimal(v.digits)
  }

  // Both are compared byte by byte.
  predicate BothBig(x: Variant, y: Variant)
  {
    AsNumber(x).BigInt? && AsNumber(y).BigInt?
  }

  lemma NumberKeepsInteger(v: Variant)
    requires IsInteger(v)
    ensures var n := AsNumber(v);
      && (n.Int64? || n.UInt64? || n.BigInt?) && IsInteger(n) && IntegerOf(n) == IntegerOf(v)
      && (n.BigInt? || n == v)
      && (Canonical(v) ==> Canonical(n))
  {
    if v.Buffer? || v.Slice? {
      SignedBytesRoundTrip(Magnitude(v.bytes));
      ToSignedMinimal(Magnitude(v.bytes));
    }
  }

  /** shrink changes the representation, never the number. */
  lemma ShrinkKeepsInteger(n: int)
    ensures var v := Shrink(BigInt(ToSignedBytes(n))); IsInteger(v) && Canonical(v) && IntegerOf(v) == n
    ensures 0 <= n < TWO_64 ==> Shrink(BigInt(ToSignedBytes(n))) == UInt64(n)
    ensures -TWO_63 <= n < 0 ==> Shrink(BigInt(ToSignedBytes(n))) == Int64(n)
  {
    SignedBytesRoundTrip(n);
    ToSignedMinimal(n);
  }

  // ---- Equality

  // A negative Int64 and the UInt64 with the same 64 bits.
  predicate SameBits(x: Variant, y: Variant)
  {
    || (x.Int64? && y.UInt64? && y.u == x.i + TWO_64)
    || (x.UInt64? && y.Int64? && x.u == y.i + TWO_64)
  }

  lemma BigOrdering(f: Floats, x: Variant, y: Variant, a: seq<byte>, b: seq<byte>)
    requires AsNumber(x) == BigInt(a) && AsNumber(y) == BigInt(b)
    ensures Ord(f, x, y) == Some(CompareBytes(a, b))
    ensures Same(f, x, y) ==> a == b
  {
  }

  lemma BigEquality(f: Floats, x: Variant, y: Variant)
    requires IsInteger(x) && IsInteger(y) && BothBig(x, y)
    ensures OpEq(f, x, y) <==> AsNumber(x) == AsNumber(y)
    ensures AsNumber(x) == AsNumber(y) ==> IntegerOf(x) == IntegerOf(y)
  {
    NumberKeepsInteger(x);
    NumberKeepsInteger(y);
    var a, b := AsNumber(x).digits, AsNumber(y).digits;
    BigOrdering(f, x, y, a, b);
    CompareBytesEqual(a, b);
  }

  lemma SameNumberSameBytes(x: Variant, y: Variant)
    requires IsInteger(x) && IsInteger(y) && BothBig(x, y) && Canonical(x) && Canonical(y)
    requires IntegerOf(x) == IntegerOf(y)
    ensures AsNumber(x) == AsNumber(y)
  {
    NumberKeepsInteger(x);
    NumberKeepsInteger(y);
    MinimalUnique(AsNumber(x).digits);
    MinimalUnique(AsNumber(y).digits);
  }

  lemma SmallEquality(f: Floats, x: Variant, y: Variant)
    requires IsInteger(x) && IsInteger(y) && !BothBig(x, y)
    ensures OpEq(f, x, y) <==> IntegerOf(x) == IntegerOf(y) || SameBits(x, y)
  {
    if x == y {
      assert OpEq(f, x, y);
    } else {
      SmallOrdering(f, x, y);
    }
  }

  // Two integers that are not both big compare equal exactly when they are the same number or the same bits.
  lemma SmallOrdering(f: Floats, x: Variant, y: Variant)
    requires IsInteger(x) && IsInteger(y) && !BothBig(x, y)
    ensures Ord(f, x, y) == Some(Equal) <==> IntegerOf(x) == IntegerOf(y) || SameBits(x, y)
  {
    NumberKeepsInteger(x);
    NumberKeepsInteger(y);
  }

  /** Two integers are equal for the filter language exactly when they are the same number, in the same bytes if
      both are big, or one is a negative Int64 and the other the UInt64 with the same bits. Without needless
      bytes the same number is in the same bytes. */
  lemma IntegerEquality(f: Floats, x: Variant, y: Variant)
    requires IsInteger(x) && IsInteger(y)
    ensures OpEq(f, x, y) <==>
      (IntegerOf(x) == IntegerOf(y) && (BothBig(x, y) ==> AsNumber(x) == AsNumber(y))) || SameBits(x, y)
    ensures BothBig(x, y) && Canonical(x) && Canonical(y) ==>
      (AsNumber(x) == AsNumber(y) <==> IntegerOf(x) == IntegerOf(y))
  {
    if BothBig(x, y) {
      BigEquality(f, x, y);
      assert !SameBits(x, y);
      if Canonical(x) && Canonical(y) && IntegerOf(x) == IntegerOf(y) { SameNumberSameBytes(x, y); }
    } else {
      SmallEquality(f, x, y);
    }
  }

  // ---- The order of BigInts

  // The same number in n bytes.
  function Padded(b: seq<byte>, n: nat): (r: seq<byte>)
    requires |b| <= n
    ensures |r| == n && Negative(r) == Negative(b)
    decreases n - |b|
  {
    if |b| == n then b else Padded([SignByte(b)] + b, n)
  }

  lemma {:induction false} PaddedKeepsNumber(b: seq<byte>, n: nat)
    requires |b| <= n
    ensures FromSignedBytes(Padded(b, n)) == FromSignedBytes(b)
    decreases n - |b|
  {
    if |b| < n {
      OneSignMore(b);
      PaddedKeepsNumber([SignByte(b)] + b, n);
    }
  }

  // Both have the same sign, and in equally many bytes they compare as they do now.
  predicate BytesOrderIsSafe(a: seq<byte>, b: seq<byte>)
  {
    var n := Max(|a|, |b|);
    Negative(a) == Negative(b) && CompareBytes(a, b) == CompareBytes(Padded(a, n), Padded(b, n))
  }

  lemma BytesOrder(a: seq<byte>, b: seq<byte>)
    ensures CompareBytes(a, b) == CompareInts(FromSignedBytes(a), FromSignedBytes(b)) <==> BytesOrderIsSafe(a, b)
  {
    var n := Max(|a|, |b|);
    PaddedKeepsNumber(a, n);
    PaddedKeepsNumber(b, n);
    EqualLengthOrder(Padded(a, n), Padded(b, n));
    if Negative(a) != Negative(b) {
      SignIsFirst(a);
      SignIsFirst(b);
      SignDecides(a, b);
    }
  }

  lemma SignDecides(a: seq<byte>, b: seq<byte>)
    requires Negative(a) != Negative(b)
    ensures CompareBytes(a, b) == if Negative(a) then Greater else Less
  {
  }

  // The first bytes have the same sign, and where the lengths differ the first byte that differs, or the lack of
  // one, tells that the longer number is further from zero.
  predicate InOrder(a: seq<byte>, b: seq<byte>)
    requires a != [] && b != []
  {
    && (a[0] < 0x80 <==> b[0] < 0x80)
    && (|a| < |b| ==> ShorterInOrder(a, b))
    && (|b| < |a| ==> ShorterInOrder(b, a))
  }

  // A positive number comes before a longer one, a negative number after it.
  predicate ShorterInOrder(a: seq<byte>, b: seq<byte>)
    requires a != [] && b != []
  {
    var n := Common(a, b);
    if a[0] < 0x80 then n == |a| || (n < |b| && a[n] < b[n])
    else n < |a| && n < |b| && a[n] > b[n]
  }

  /** Of BigInts without needless bytes the order is right exactly if they have the same sign and equal lengths, or
      the first byte that differs agrees with the lengths. */
  lemma MinimalOrder(a: seq<byte>, b: seq<byte>)
    requires Minimal(a) && Minimal(b)
    ensures CompareBytes(a, b) == CompareInts(FromSignedBytes(a), FromSignedBytes(b)) <==> InOrder(a, b)
  {
    BytesOrder(a, b);
    if Negative(a) == Negative(b) {
      if |a| < |b| {
        ShorterOrder(a, b);
      } else if |b| < |a| {
        ShorterOrder(b, a);
        Mirrored(a, b);
        Mirrored(Padded(a, |a|), Padded(b, |a|));
      }
    }
  }

  lemma ShorterOrder(a: seq<byte>, b: seq<byte>)
    requires Minimal(a) && Minimal(b) && |a| < |b| && Negative(a) == Negative(b)
    ensures CompareBytes(a, b) == CompareBytes(Padded(a, |b|), Padded(b, |b|)) <==> ShorterInOrder(a, b)
  {
    CompareBytesOrder(a, b);
    LongerIsFurther(a, b);
  }

  // Of one sign, the longer number is further from zero.
  lemma LongerIsFurther(a: seq<byte>, b: seq<byte>)
    requires Minimal(b) && a != [] && |a| < |b| && Negative(a) == Negative(b)
    ensures CompareBytes(Padded(a, |b|), b) == if Negative(a) then Greater else Less
  {
    PaddedStart(a, |b|);
    var p := Padded(a, |b|);
    assert p[1..][0] == p[1] && b[1..][0] == b[1];
  }

  lemma {:induction false} PaddedStart(b: seq<byte>, n: nat)
    requires b != [] && |b| < n
    ensures var p := Padded(b, n); p[0] == SignByte(b) && (p[1] >= 0x80 <==> Negative(b))
    decreases n - |b|
  {
    var c := [SignByte(b)] + b;
    if |c| < n { PaddedStart(c, n); }
  }

  lemma {:induction false} Mirrored(a: seq<byte>, b: seq<byte>)
    ensures CompareBytes(a, b) == Less <==> CompareBytes(b, a) == Greater
    ensures CompareBytes(a, b) == Greater <==> CompareBytes(b, a) == Less
  {
    if a != [] && b != [] { Mirrored(a[1..], b[1..]); }
  }

  /** As BigInts, 256 is below 2 and 1 below -1. */
  lemma BigIntsOutOfOrder(f: Floats)
    ensures OpLt(f, BigInt([1, 0]), BigInt([2])) && FromSignedBytes([1, 0]) == 256 && FromSignedBytes([2]) == 2
    ensures OpLt(f, BigInt([1]), BigInt([0xff])) && FromSignedBytes([1]) == 1 && FromSignedBytes([0xff]) == -1
  {
    assert [1, 0][..1] == [1];
  }

  // ---- The order of all integers

  // The other 64-bit number as this one's type: the same number, or on the same side.
  predicate CastIsSafe(x: Variant, y: Variant)
  {
    && (x.Int64? && y.UInt64? ==> y.u < TWO_63 || x.i < y.u - TWO_64)
    && (x.UInt64? && y.Int64? ==> y.i >= 0 || x.u > y.i + TWO_64)
  }

  // The cast turns nothing round, and the bytes of two big numbers are in the order of the numbers.
  predicate OrderIsSafe(x: Variant, y: Variant)
  {
    CastIsSafe(x, y) && (BothBig(x, y) ==> BytesOrderIsSafe(AsNumber(x).digits, AsNumber(y).digits))
  }

  lemma CastsAre(u: nat, i: int)
    requires u < TWO_64 && -TWO_63 <= i < TWO_63
    ensures AsI64(u) == if u < TWO_63 then u else u - TWO_64
    ensures AsU64(i) == if i < 0 then i + TWO_64 else i
  {
  }

  lemma SameTypeOrder(f: Floats, x: Variant, y: Variant)
    requires IsInteger(x) && IsInteger(y) && !BothBig(x, y) && !(x.Int64? && y.UInt64?) && !(x.UInt64? && y.Int64?)
    ensures Ord(f, x, y) == Some(CompareInts(IntegerOf(x), IntegerOf(y)))
  {
    NumberKeepsInteger(x);
    NumberKeepsInteger(y);
  }

  lemma SmallOrder(f: Floats, x: Variant, y: Variant)
    requires IsInteger(x) && IsInteger(y) && !BothBig(x, y)
    ensures Ord(f, x, y).Some?
    ensures Ord(f, x, y) == Some(CompareInts(IntegerOf(x), IntegerOf(y))) <==> CastIsSafe(x, y)
  {
    if x.Int64? && y.UInt64? {
      CastsAre(y.u, x.i);
    } else if x.UInt64? && y.Int64? {
      CastsAre(x.u, y.i);
    } else {
      SameTypeOrder(f, x, y);
    }
  }

  lemma BigOrder(f: Floats, x: Variant, y: Variant)
    requires IsInteger(x) && IsInteger(y) && BothBig(x, y)
    ensures Ord(f, x, y) == Some(CompareBytes(AsNumber(x).digits, AsNumber(y).digits))
    ensures Ord(f, x, y) == Some(CompareInts(IntegerOf(x), IntegerOf(y)))
      <==> BytesOrderIsSafe(AsNumber(x).digits, AsNumber(y).digits)
  {
    NumberKeepsInteger(x);
    NumberKeepsInteger(y);
    var a, b := AsNumber(x).digits, AsNumber(y).digits;
    BigOrdering(f, x, y, a, b);
    BytesOrder(a, b);
  }

  /** Integers of any representation are ordered as numbers exactly when casting the right one to the left one's
      type does not turn it round (a UInt64 of 2^63 or more becomes negative, a negative Int64 becomes large), and
      two big ones have bytes in the order of the numbers. */
  lemma IntegerOrder(f: Floats, x: Variant, y: Variant)
    requires IsInteger(x) && IsInteger(y)
    ensures (OpLt(f, x, y) <==> IntegerOf(x) < IntegerOf(y)) && (OpGt(f, x, y) <==> IntegerOf(x) > IntegerOf(y))
      <==> OrderIsSafe(x, y)
    ensures OrderIsSafe(x, y) ==>
      && (OpLte(f, x, y) <==> IntegerOf(x) <= IntegerOf(y))
      && (OpGte(f, x, y) <==> IntegerOf(x) >= IntegerOf(y))
  {
    if BothBig(x, y) { BigOrder(f, x, y); } else { SmallOrder(f, x, y); }
  }

  /** Two big integers without needless bytes, buffers included, are ordered as numbers exactly when their
      two's-complement bytes are InOrder. */
  lemma BigIntegerOrder(f: Floats, x: Variant, y: Variant)
    requires IsInteger(x) && IsInteger(y) && BothBig(x, y) && Canonical(x) && Canonical(y)
    ensures AsNumber(x).digits != [] && AsNumber(y).digits != []
    ensures (OpLt(f, x, y) <==> IntegerOf(x) < IntegerOf(y)) && (OpGt(f, x, y) <==> IntegerOf(x) > IntegerOf(y))
      <==> InOrder(AsNumber(x).digits, AsNumber(y).digits)
  {
    NumberKeepsInteger(x);
    NumberKeepsInteger(y);
    BigOrder(f, x, y);
    MinimalOrder(AsNumber(x).digits, AsNumber(y).digits);
  }

  /** Minus one equals the largest UInt64, and zero is not below 2^63. */
  lemma CastsTurnRound(f: Floats)
    ensures OpEq(f, Int64(-1), UInt64(TWO_64 - 1)) && IntegerOf(Int64(-1)) != IntegerOf(UInt64(TWO_64 - 1))
    ensures !OpLt(f, Int64(0), UInt64(TWO_63)) && OpGt(f, Int64(0), UInt64(TWO_63))
  {
    IntegerEquality(f, Int64(-1), UInt64(TWO_64 - 1));
    assert AsI64(TWO_63) == -TWO_63;
  }
}
