// The filter that the program writes for an attribute: the attribute's id, compared with its value.
module FilterSelfMatch {
  import opened Base
  import opened Frames
  import opened Numerals
  import opened Variants
  import opened Integers
  import opened FilterAst
  import opened FilterSyntax
  import opened FilterParser
  import opened Unparser
  import opened FilterText
  import opened FilterRoundTrip

  // The library reads the address texts that it writes, each as its own kind.
  ghost predicate AddressLaws(lib: Library)
  {
    && (forall b: Bytes :: |b| == 4 ==> IsMacro(lib.showIpv4(b)) && lib.readIpv4(lib.showIpv4(b)) == Some(b))
    && (forall b: Bytes :: |b| == 16 ==> IsMacro(lib.showIpv6(b)) && lib.readIpv4(lib.showIpv6(b)).None?
                                         && lib.readIpv6(lib.showIpv6(b)) == Some(b))
    && (forall b: Bytes :: |b| == 6 ==> IsMacro(lib.showMac(b)) && lib.readIpv4(lib.showMac(b)).None?
                                        && lib.readIpv6(lib.showMac(b)).None? && lib.readMac(lib.showMac(b)) == Some(b))
  }

  function SelfFilter(lib: Library, id: string, typ: string, v: Variant): Expr
  {
    Binary(Eq, Token(id), UnparseAttr(lib, typ, v))
  }

  lemma OneClimb(lhs: Expr, op: BinaryOp, rhs: Expr)
    ensures Climb(lhs, 0, [(op, rhs)]) == (Binary(op, lhs, rhs), [])
  {
    assert [(op, rhs)][1..] == [];
    assert ClimbRight(rhs, Prec(op), []) == (rhs, []);
  }

  lemma ComparisonIsReread(lib: Library, id: string, x: Expr)
    requires IsMember(id) && IsLeaf(x) && Printable(x) && Fold(Eq, Token(id), x).None?
    ensures Parse(lib, Unparse(lib, Binary(Eq, Token(id), x))) == Parsed(Binary(Eq, Token(id), ReadAtom(lib, x)))
  {
    var e := Binary(Eq, Token(id), x);
    PrintedIsReread(lib, e);
    var items := [(Eq, ReadAtom(lib, x))];
    assert Spine(lib, e) == (Token(id), items) by {
      assert Spine(lib, Token(id)) == (Token(id), []) && Spine(lib, x) == (ReadAtom(lib, x), []);
      assert [] + items + [] == items;
    }
    OneClimb(Token(id), Eq, ReadAtom(lib, x));
  }

  // What a printed operand evaluates to after a round through text.
  function Reading(lib: Library, x: Expr): Variant
    requires IsLeaf(x) && Printable(x)
  {
    Eval(lib.floats, ReadAtom(lib, x), [])
  }

  // The parsed comparison holds where the id's value equals the operand as it was read.
  predicate Compares(lib: Library, id: string, x: Expr, layers: seq<Layer>, y: Variant)
  {
    var o := Parse(lib, Unparse(lib, Binary(Eq, Token(id), x)));
    o.Parsed? && (Test(lib.floats, o.expr, layers) <==> OpEq(lib.floats, LookUp(id, layers), y))
  }

  lemma ComparisonHolds(lib: Library, id: string, x: Expr, layers: seq<Layer>)
    requires IsMember(id) && IsLeaf(x) && Printable(x) && Fold(Eq, Token(id), x).None? && !ReadAtom(lib, x).Token?
    ensures Compares(lib, id, x, layers, Reading(lib, x))
  {
    ComparisonIsReread(lib, id, x);
    ReadingIsConstant(lib, x, layers);
    var y := ReadAtom(lib, x);
    assert Eval(lib.floats, Binary(Eq, Token(id), y), layers)
      == Bool(OpEq(lib.floats, Eval(lib.floats, Token(id), layers), Eval(lib.floats, y, layers)));
  }

  lemma ReadingIsConstant(lib: Library, x: Expr, layers: seq<Layer>)
    requires IsLeaf(x) && Printable(x) && !ReadAtom(lib, x).Token?
    ensures Eval(lib.floats, ReadAtom(lib, x), layers) == Reading(lib, x)
  {
    var leaf := ReadLeaf(lib, x);
    assert Eval(lib.floats, leaf, layers) == Eval(lib.floats, leaf, []);
  }

  lemma NumberIsRead(n: nat)
    ensures ReadNumber(n).Literal?
    ensures var v := ReadNumber(n).value;
      IsInteger(v) && Canonical(v) && IntegerOf(v) == n && (if n < TWO_64 then v == UInt64(n) else v.BigInt?)
  {
    ShrinkKeepsInteger(n);
    SignedBytesRoundTrip(n);
  }

  lemma NegationWraps(f: Floats, n: nat)
    requires 0 < n <= TWO_63
    ensures UnaryNegation(f, UInt64(n)) == Int64(0 - n)
  {
    assert TWO_64 == 2 * TWO_63;
    if n < TWO_63 { assert AsI64(n) == n; } else { assert AsI64(n) == -TWO_63; }
  }

  lemma NegativeIsRead(lib: Library, i: int)
    requires -TWO_63 <= i < 0
    ensures Reading(lib, Literal(Int64(i))) == Int64(i)
  {
    NumberIsRead(-i);
    NegationWraps(lib.floats, -i);
    var minus := Unary(Minus, Literal(UInt64(-i)));
    assert ReadAtom(lib, Literal(Int64(i))) == minus;
    assert Eval(lib.floats, minus, []) == UnaryNegation(lib.floats, Eval(lib.floats, Literal(UInt64(-i)), []));
  }

  // The number that is printed for an integer.
  function Shown(v: Variant): int
    requires IsInteger(v)
  {
    if v.BigInt? then Magnitude(v.digits) else IntegerOf(v)
  }

  lemma LiteralIsRead(lib: Library, v: Variant)
    requires IsInteger(v)
    ensures var r := Reading(lib, Literal(v));
      && IsInteger(r) && Canonical(r) && IntegerOf(r) == Shown(v)
      && (r.UInt64? <==> 0 <= Shown(v) < TWO_64) && (r.Int64? <==> Shown(v) < 0)
  {
    if v.Int64? && v.i < 0 {
      NegativeIsRead(lib, v.i);
    } else {
      NumberIsRead(Shown(v));
      assert ReadAtom(lib, Literal(v)) == ReadNumber(Shown(v));
    }
  }

  // A value compares as another number n: its 64 bits, read with the other sign.
  predicate WrapsTo(w: Variant, n: int)
  {
    || (w.Int64? && w.i < 0 && n == w.i + TWO_64)
    || (w.UInt64? && n < 0 && w.u == n + TWO_64)
  }

  // A big number compares by its bytes, so a BigInt is found only if it has no needless ones.
  predicate SameNumber(w: Variant, n: int, big: bool)
    requires IsInteger(w)
  {
    IntegerOf(w) == n && (big ==> Canonical(w))
  }

  lemma LiteralSelects(lib: Library, id: string, v: Variant, layers: seq<Layer>)
    requires IsMember(id) && IsInteger(v) && IsInteger(LookUp(id, layers))
    ensures var o, w := Parse(lib, Unparse(lib, Binary(Eq, Token(id), Literal(v)))), LookUp(id, layers);
      && o.Parsed?
      && (Test(lib.floats, o.expr, layers) <==> SameNumber(w, Shown(v), Shown(v) >= TWO_64) || WrapsTo(w, Shown(v)))
  {
    var x, w := Literal(v), LookUp(id, layers);
    ComparisonHolds(lib, id, x, layers);
    LiteralIsRead(lib, v);
    EqualToRead(lib.floats, w, Reading(lib, x));
  }

  // Equality with a value that was read.
  lemma EqualToRead(f: Floats, w: Variant, r: Variant)
    requires IsInteger(w) && IsInteger(r) && Canonical(r) && (r.UInt64? || r.Int64? || AsNumber(r).BigInt?)
    requires r.Int64? ==> r.i < 0
    ensures OpEq(f, w, r) <==>
      SameNumber(w, IntegerOf(r), AsNumber(r).BigInt?) || (!AsNumber(r).BigInt? && WrapsTo(w, IntegerOf(r)))
  {
    IntegerEquality(f, w, r);
    NumberKeepsInteger(w);
    NumberKeepsInteger(r);
  }

  // An address is printed as one and read as a buffer.
  predicate IsAddress(typ: string, v: Variant)
  {
    v.Slice? && (
      || (typ == "@ipv4:addr" && |v.bytes| == 4)
      || (typ == "@ipv6:addr" && |v.bytes| == 16)
      || (typ == "@eth:mac" && |v.bytes| == 6))
  }

  lemma AddressIsRead(lib: Library, typ: string, v: Variant)
    requires AddressLaws(lib) && IsAddress(typ, v)
    ensures var x := UnparseAttr(lib, typ, v);
      x.Macro? && Printable(x) && ReadAtom(lib, x) == Literal(Buffer(v.bytes))
  {
  }

  lemma AddressSelects(lib: Library, id: string, typ: string, v: Variant, layers: seq<Layer>)
    requires IsMember(id) && AddressLaws(lib) && IsAddress(typ, v) && IsInteger(LookUp(id, layers))
    ensures var o, w := Parse(lib, Unparse(lib, SelfFilter(lib, id, typ, v))), LookUp(id, layers);
      o.Parsed? && (Test(lib.floats, o.expr, layers) <==> SameNumber(w, Magnitude(v.bytes), true))
  {
    var x, w := UnparseAttr(lib, typ, v), LookUp(id, layers);
    AddressIsRead(lib, typ, v);
    ComparisonHolds(lib, id, x, layers);
    EqualToRead(lib.floats, w, Buffer(v.bytes));
  }

  // The filter written for v compares big numbers.
  predicate AsksForBig(typ: string, v: Variant)
    requires IsInteger(v)
  {
    IsAddress(typ, v) || Shown(v) >= TWO_64
  }

  /** The filter written for an integer holds on exactly the frames where the id has the same number, without
      needless bytes if it is big, or one that wraps around to it. A BigInt counts without its sign. */
  lemma SelectsTheNumber(lib: Library, id: string, typ: string, v: Variant, layers: seq<Layer>)
    requires IsMember(id) && AddressLaws(lib) && IsInteger(v) && IsInteger(LookUp(id, layers))
    ensures var o, w := Parse(lib, Unparse(lib, SelfFilter(lib, id, typ, v))), LookUp(id, layers);
      && o.Parsed?
      && (Test(lib.floats, o.expr, layers) <==>
          SameNumber(w, Shown(v), AsksForBig(typ, v)) || (!IsAddress(typ, v) && WrapsTo(w, Shown(v))))
  {
    if IsAddress(typ, v) {
      AddressSelects(lib, id, typ, v, layers);
    } else {
      assert UnparseAttr(lib, typ, v) == Literal(v);
      LiteralSelects(lib, id, v, layers);
    }
  }

  // ---- Which frames the filter selects

  predicate Printed(v: Variant)
  {
    v.Nil? || v.Bool? || v.String? || IsInteger(v)
  }

  // The value that the text of v stands for: integers shrink, big ones lose their sign, addresses become buffers.
  function AsRead(typ: string, v: Variant): Variant
    requires Printed(v)
  {
    if IsAddress(typ, v) then Buffer(v.bytes)
    else if v.Nil? || v.Bool? || v.String? || (v.Int64? && v.i < 0) then v
    else Shrink(BigInt(ToSignedBytes(Shown(v))))
  }

  // The id's value w compares equal to the value as read; a Boolean constant asks for truth instead.
  predicate Selects(f: Floats, typ: string, v: Variant, w: Variant)
    requires Printed(v)
  {
    if v.Bool? then IsTruthy(w) == v.b else OpEq(f, w, AsRead(typ, v))
  }

  lemma BoolSelects(lib: Library, id: string, typ: string, b: bool, layers: seq<Layer>)
    requires IsMember(id)
    ensures var o := Parse(lib, Unparse(lib, SelfFilter(lib, id, typ, Bool(b))));
      o.Parsed? && (Test(lib.floats, o.expr, layers) <==> IsTruthy(LookUp(id, layers)) == b)
  {
    var e, t := SelfFilter(lib, id, typ, Bool(b)), Token(id);
    PrintedIsReread(lib, e);
    assert Spine(lib, t) == (t, []);
    var read := if b then t else Unary(Not, t);
    assert Fold(Eq, t, Literal(Bool(b))) == Some(read);
    assert Spine(lib, Unary(Not, t)) == (Unary(Not, t), []);
    assert Spine(lib, e) == Spine(lib, read);
    assert Reread(lib, e) == read;
    assert Eval(lib.floats, t, layers) == LookUp(id, layers);
    assert Eval(lib.floats, Unary(Not, t), layers) == Bool(!IsTruthy(Eval(lib.floats, t, layers)));
  }

  lemma ReadingIsAsRead(lib: Library, typ: string, v: Variant)
    requires AddressLaws(lib) && Printed(v)
    ensures var x := UnparseAttr(lib, typ, v);
      IsLeaf(x) && Printable(x) && !ReadAtom(lib, x).Token? && Reading(lib, x) == AsRead(typ, v)
  {
    var x := UnparseAttr(lib, typ, v);
    if IsAddress(typ, v) {
      AddressIsRead(lib, typ, v);
    } else if v.Int64? && v.i < 0 {
      NegativeIsRead(lib, v.i);
    } else if IsInteger(v) {
      assert ReadAtom(lib, x) == ReadNumber(Shown(v));
    }
  }

  /** The filter written for an attribute value parses, and holds on exactly the frames where the id's
      value compares equal to the value as read. */
  lemma SelfFilterSelects(lib: Library, id: string, typ: string, v: Variant, layers: seq<Layer>)
    requires IsMember(id) && AddressLaws(lib) && Printed(v)
    ensures var o := Parse(lib, Unparse(lib, SelfFilter(lib, id, typ, v)));
      o.Parsed? && (Test(lib.floats, o.expr, layers) <==> Selects(lib.floats, typ, v, LookUp(id, layers)))
  {
    if v.Bool? {
      BoolSelects(lib, id, typ, v.b, layers);
    } else {
      ReadingIsAsRead(lib, typ, v);
      ComparisonHolds(lib, id, UnparseAttr(lib, typ, v), layers);
    }
  }

  // A BigInt comes back from its text if it is not negative, and fits in 64 bits or has no needless bytes.
  predicate FindsItself(v: Variant)
  {
    v.BigInt? ==>
      var n := FromSignedBytes(v.digits);
      n >= 0 && (n < TWO_64 || Minimal(v.digits))
  }

  lemma SelectsItself(f: Floats, typ: string, v: Variant)
    requires Printed(v)
    ensures Selects(f, typ, v, v) <==> FindsItself(v)
  {
    if v.BigInt? {
      BigSelectsItself(f, v);
    } else if IsInteger(v) {
      if IsAddress(typ, v) {
        IntegerEquality(f, v, Buffer(v.bytes));
      } else if v.Int64? && v.i < 0 {
      } else {
        NumberIsRead(Shown(v));
        IntegerEquality(f, v, AsRead(typ, v));
        SameBuffer(v);
      }
    }
  }

  lemma BigSelectsItself(f: Floats, v: Variant)
    requires v.BigInt?
    ensures OpEq(f, v, AsRead("", v)) <==> FindsItself(v)
  {
    var r := AsRead("", v);
    NumberIsRead(Shown(v));
    EqualToRead(f, v, r);
    assert AsNumber(r).BigInt? <==> Shown(v) >= TWO_64;
    ShownIsNumber(v);
  }

  // A BigInt is shown as its number exactly if it is not negative.
  lemma ShownIsNumber(v: Variant)
    requires v.BigInt?
    ensures FromSignedBytes(v.digits) >= 0 <==> Shown(v) == FromSignedBytes(v.digits)
  {
    if FromSignedBytes(v.digits) >= 0 { MagnitudeOfPositive(v.digits); }
  }

  // What is read for a buffer is the number that it is compared as.
  lemma SameBuffer(v: Variant)
    requires IsInteger(v) && !v.BigInt? && Shown(v) >= 0
    ensures BothBig(v, AsRead("", v)) ==> AsNumber(v) == AsNumber(AsRead("", v))
  {
  }

  /** The filter written for an attribute value holds on every frame where the id has that value,
      unless the value is a negative BigInt, or a big one with needless bytes. */
  lemma SelfMatch(lib: Library, id: string, typ: string, v: Variant, layers: seq<Layer>)
    requires IsMember(id) && AddressLaws(lib) && LookUp(id, layers) == v && Printed(v)
    ensures var o := Parse(lib, Unparse(lib, SelfFilter(lib, id, typ, v)));
      o.Parsed? && (Test(lib.floats, o.expr, layers) <==> FindsItself(v))
  {
    SelfFilterSelects(lib, id, typ, v, layers);
    SelectsItself(lib.floats, typ, v);
  }

  /** The filter written for -1 as a BigInt does not hold where the id is -1: it asks for 255. */
  lemma NegativeBigIntMissed(lib: Library, id: string, layers: seq<Layer>)
    requires IsMember(id) && AddressLaws(lib) && LookUp(id, layers) == BigInt([0xff])
    ensures var o := Parse(lib, Unparse(lib, SelfFilter(lib, id, "", BigInt([0xff]))));
      o.Parsed? && !Test(lib.floats, o.expr, layers)
  {
    SelfMatch(lib, id, "", BigInt([0xff]), layers);
  }

  // 2^64 with a needless byte in front.
  const PADDED: Bytes := [0, 1] + [0, 0, 0, 0] + [0, 0, 0, 0]

  lemma OneZeroMore(b: Bytes)
    requires b != []
    ensures FromSignedBytes(b + [0]) == 0x100 * FromSignedBytes(b)
  {
    assert (b + [0])[..|b|] == b;
  }

  lemma FourZerosMore(b: Bytes)
    requires b != []
    ensures FromSignedBytes(b + [0, 0, 0, 0]) == 0x1_0000_0000 * FromSignedBytes(b)
  {
    OneZeroMore(b);
    OneZeroMore(b + [0]);
    OneZeroMore(b + [0] + [0]);
    OneZeroMore(b + [0] + [0] + [0]);
    assert b + [0] + [0] + [0] + [0] == b + [0, 0, 0, 0];
  }

  lemma PaddedIsBig()
    ensures FromSignedBytes(PADDED) == TWO_64 && !Minimal(PADDED)
  {
    assert [0, 1][..1] == [0];
    FourZerosMore([0, 1]);
    FourZerosMore([0, 1] + [0, 0, 0, 0]);
  }

  /** The filter written for 2^64 in ten bytes, one of them needless, misses its own frame. */
  lemma PaddedBigIntMissed(lib: Library, id: string, layers: seq<Layer>)
    requires IsMember(id) && AddressLaws(lib) && LookUp(id, layers) == BigInt(PADDED)
    ensures var o := Parse(lib, Unparse(lib, SelfFilter(lib, id, "", BigInt(PADDED))));
      o.Parsed? && !Test(lib.floats, o.expr, layers)
  {
    PaddedIsBig();
    SelfMatch(lib, id, "", BigInt(PADDED), layers);
  }

  // ---- Attributes of a layer

  // The attribute is what its id reads as: the first of its id in layer k, and no layer above says anything.
  predicate Foremost(layers: seq<Layer>, k: nat, a: Attr)
  {
    && k < |layers| && layers[k].id != a.id
    && FindAttr(a.id, layers[k].headers + layers[k].attrs) == Some(a)
    && forall j :: k < j < |layers| ==> Answer(a.id, layers[j]).None?
  }

  lemma ForemostIsLookedUp(layers: seq<Layer>, k: nat, a: Attr)
    requires Foremost(layers, k, a) && a.value.Some?
    ensures LookUp(a.id, layers) == a.value.value
  {
    TopmostDecides(a.id, layers, k + 1);
  }

  /** The second of two attributes with one id is shadowed: the filter written for it misses its own frame. */
  lemma ShadowedAttrMissed(lib: Library, id: string)
    requires IsMember(id) && AddressLaws(lib) && id != "tcp"
    ensures var layers := [Layer("tcp", [], [Attr(id, "", true, Some(UInt64(1))), Attr(id, "", true, Some(UInt64(2)))], [], [])];
      var o := Parse(lib, Unparse(lib, SelfFilter(lib, id, "", UInt64(2))));
      o.Parsed? && !Test(lib.floats, o.expr, layers)
  {
    var a := Attr(id, "", true, Some(UInt64(1)));
    var layers := [Layer("tcp", [], [a, Attr(id, "", true, Some(UInt64(2)))], [], [])];
    assert ([] + layers[0].attrs)[0] == a;
    ForemostIsLookedUp(layers, 0, a);
    SelectsTheNumber(lib, id, "", UInt64(2), layers);
  }
}
