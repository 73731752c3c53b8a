// Values of the filter language and their operators (genet-filter/src/variant.rs).
module Variants {
  import opened Base
  import opened Frames
  import opened Numerals

  datatype Ordering = Less | Equal | Greater

  // Library code on 64-bit floats, on their bit patterns.
  datatype Floats = Floats(
    same: (nat, nat) -> bool,
    compare: (nat, nat) -> Option<Ordering>,
    negate: nat -> nat,
    toI64: nat -> int,
    toU64: nat -> nat,
    fromI64: int -> nat,
    fromU64: nat -> nat,
    read: string -> nat,
    show: nat -> string)

  // The ranges of the fixed-width variants.
  predicate InRange(v: Variant)
  {
    match v
    case Int64(i) => -TWO_63 <= i < TWO_63
    case UInt64(u) => u < TWO_64
    case Float64(bits) => bits < TWO_64
    case _ => true
  }

  // u64 as i64, and an i64 result that wraps around.
  function AsI64(n: int): (i: int)
    ensures -TWO_63 <= i < TWO_63
  {
    (n + TWO_63) % TWO_64 - TWO_63
  }

  // i64 as u64
  function AsU64(n: int): (u: nat)
    ensures u < TWO_64
  {
    n % TWO_64
  }

  function Shrink(v: Variant): Variant
  {
    if v.BigInt? then
      var n := FromSignedBytes(v.digits);
      if 0 <= n < TWO_64 then UInt64(n)
      else if -TWO_63 <= n < TWO_63 then Int64(n)
      else v
    else v
  }

  predicate IsTruthy(v: Variant)
  {
    v != Nil && v != Bool(false)
  }

  function UnaryPlus(v: Variant): Variant
  {
    if v.Int64? || v.UInt64? || v.Float64? || v.BigInt? then v else Int64(0)
  }

  function UnaryNegation(f: Floats, v: Variant): Variant
  {
    match v
    case Int64(i) => Int64(AsI64(-i))
    case UInt64(u) => Int64(AsI64(-AsI64(u)))
    case Float64(x) => Float64(f.negate(x))
    case BigInt(b) => BigInt(ToSignedBytes(-FromSignedBytes(b)))
    case _ => Int64(0)
  }

  function CompareInts(a: int, b: int): Ordering
  {
    if a < b then Less else if a == b then Equal else Greater
  }

  // Lexicographic order of slices.
  function CompareBytes(a: seq<byte>, b: seq<byte>): Ordering
  {
    if a == [] && b == [] then Equal
    else if a == [] then Less
    else if b == [] then Greater
    else if a[0] != b[0] then CompareInts(a[0], b[0])
    else CompareBytes(a[1..], b[1..])
  }

  // Order of strings, which is that of their code points.
  function CompareText(a: string, b: string): Ordering
  {
    if a == [] && b == [] then Equal
    else if a == [] then Less
    else if b == [] then Greater
    else if a[0] != b[0] then CompareInts(a[0] as int, b[0] as int)
    else CompareText(a[1..], b[1..])
  }

  // Buffers are compared as unsigned integers.
  function AsNumber(v: Variant): Variant
  {
    match v
    case Buffer(b) => BigInt(ToSignedBytes(Magnitude(b)))
    case Slice(b) => BigInt(ToSignedBytes(Magnitude(b)))
    case _ => v
  }

  function Ord(f: Floats, x: Variant, y: Variant): Option<Ordering>
  {
    match (AsNumber(x), AsNumber(y))
    case (String(a), String(b)) => Some(CompareText(a, b))
    case (Int64(a), Int64(b)) => Some(CompareInts(a, b))
    case (UInt64(a), UInt64(b)) => Some(CompareInts(a, b))
    case (Float64(a), Float64(b)) => f.compare(a, b)
    case (BigInt(a), BigInt(b)) => Some(CompareBytes(a, b))

    case (Int64(a), UInt64(b)) => Some(CompareInts(a, AsI64(b)))
    case (Int64(a), Float64(b)) => Some(CompareInts(a, f.toI64(b)))
    case (UInt64(a), Int64(b)) => Some(CompareInts(a, AsU64(b)))
    case (UInt64(a), Float64(b)) => Some(CompareInts(a, f.toU64(b)))
    case (Float64(a), Int64(b)) => f.compare(a, f.fromI64(b))
    case (Float64(a), UInt64(b)) => f.compare(a, f.fromU64(b))

    case (Int64(a), BigInt(b)) => Some(CompareInts(a, FromSignedBytes(b)))
    case (UInt64(a), BigInt(b)) => Some(CompareInts(a, FromSignedBytes(b)))
    case (Float64(a), BigInt(b)) => Some(CompareInts(f.toI64(a), FromSignedBytes(b)))

    case (BigInt(a), Int64(b)) => Some(CompareInts(FromSignedBytes(a), b))
    case (BigInt(a), UInt64(b)) => Some(CompareInts(FromSignedBytes(a), b))
    case (BigInt(a), Float64(b)) => Some(CompareInts(FromSignedBytes(a), f.toI64(b)))
    case _ => None
  }

  // The derived equality.
  predicate Same(f: Floats, x: Variant, y: Variant)
  {
    if x.Float64? && y.Float64? then f.same(x.bits, y.bits) else x == y
  }

  predicate OpEq(f: Floats, x: Variant, y: Variant)
  {
    Same(f, x, y) || Ord(f, x, y) == Some(Equal)
  }

  predicate OpLt(f: Floats, x: Variant, y: Variant) { Ord(f, x, y) == Some(Less) }

  predicate OpGt(f: Floats, x: Variant, y: Variant) { Ord(f, x, y) == Some(Greater) }

  predicate OpLte(f: Floats, x: Variant, y: Variant) { Ord(f, x, y) == Some(Less) || Ord(f, x, y) == Some(Equal) }

  predicate OpGte(f: Floats, x: Variant, y: Variant) { Ord(f, x, y) == Some(Greater) || Ord(f, x, y) == Some(Equal) }

  // ---- The order of bytes

  lemma {:induction false} CompareBytesEqual(a: seq<byte>, b: seq<byte>)
    ensures CompareBytes(a, b) == Equal <==> a == b
  {
    if a != [] && b != [] {
      CompareBytesEqual(a[1..], b[1..]);
      assert a == [a[0]] + a[1..] && b == [b[0]] + b[1..];
    }
  }

  // How far two byte strings agree.
  function Common(a: seq<byte>, b: seq<byte>): (n: nat)
    ensures n <= |a| && n <= |b| && a[..n] == b[..n] && (n < |a| && n < |b| ==> a[n] != b[n])
  {
    if a != [] && b != [] && a[0] == b[0] then
      var n := Common(a[1..], b[1..]);
      assert a[..n + 1] == [a[0]] + a[1..][..n] && b[..n + 1] == [b[0]] + b[1..][..n];
      1 + n
    else 0
  }

  /** Bytes are ordered by the first that differs; a beginning comes before what it begins. */
  lemma {:induction false} CompareBytesOrder(a: seq<byte>, b: seq<byte>)
    ensures var n := Common(a, b);
      && (CompareBytes(a, b) == Less <==> n < |b| && (n == |a| || a[n] < b[n]))
      && (CompareBytes(a, b) == Greater <==> n < |a| && (n == |b| || a[n] > b[n]))
  {
    if a != [] && b != [] && a[0] == b[0] { CompareBytesOrder(a[1..], b[1..]); }
  }

  lemma {:induction false} CompareLast(a: seq<byte>, b: seq<byte>, x: byte, y: byte)
    requires |a| == |b|
    ensures CompareBytes(a + [x], b + [y]) ==
      if CompareBytes(a, b) == Equal then CompareInts(x, y) else CompareBytes(a, b)
  {
    if a == [] {
      assert a + [x] == [x] && b + [y] == [y];
      assert [x][1..] == [] && [y][1..] == [];
    } else {
      CompareLast(a[1..], b[1..], x, y);
      assert (a + [x])[1..] == a[1..] + [x] && (b + [y])[1..] == b[1..] + [y];
    }
  }

  /** Of equally long bytes the order is that of the unsigned numbers; of two's-complement numbers it is the order
      if both have the same sign, and the other way round if they have not. */
  lemma {:induction false} EqualLengthOrder(a: seq<byte>, b: seq<byte>)
    requires |a| == |b|
    ensures CompareBytes(a, b) == CompareInts(Magnitude(a), Magnitude(b))
    ensures CompareBytes(a, b) ==
      if Negative(a) == Negative(b) then CompareInts(FromSignedBytes(a), FromSignedBytes(b))
      else CompareInts(FromSignedBytes(b), FromSignedBytes(a))
  {
    if a != [] {
      var n := |a| - 1;
      EqualLengthOrder(a[..n], b[..n]);
      CompareLast(a[..n], b[..n], a[n], b[n]);
      assert a[..n] + [a[n]] == a && b[..n] + [b[n]] == b;
      SignIsFirst(a);
      SignIsFirst(b);
    }
  }
}
