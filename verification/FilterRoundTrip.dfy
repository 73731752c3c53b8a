// Printing an expression and parsing the text.
module FilterRoundTrip {
  import opened Base
  import opened Frames
  import opened Numerals
  import opened Variants
  import opened FilterAst
  import opened FilterSyntax
  import opened FilterParser
  import opened Unparser
  import opened FilterText
  import Json

  // ---- What a printed expression is read as

  // The literal read from the digits of a number.
  function ReadNumber(n: nat): Expr
  {
    Literal(Shrink(BigInt(ToSignedBytes(n))))
  }

  // The leaf that a printed leaf is read as; a minus sign becomes an operator above it.
  function ReadLeaf(lib: Library, e: Expr): Expr
  {
    match e
    case Macro(text) => ParseMacro(lib, text)
    case Literal(Int64(i)) => ReadNumber(if i < 0 then -i else i)
    case Literal(UInt64(u)) => ReadNumber(u)
    case Literal(BigInt(b)) => ReadNumber(Magnitude(b))
    case Literal(Buffer(b)) => ReadNumber(Magnitude(b))
    case Literal(Slice(b)) => ReadNumber(Magnitude(b))
    case _ => e
  }

  function ReadAtom(lib: Library, e: Expr): Expr
    requires Printable(e) && IsLeaf(e)
  {
    if e.Literal? && e.value.Int64? && e.value.i < 0 then Unary(Minus, ReadLeaf(lib, e)) else ReadLeaf(lib, e)
  }

  // The operands, each with its unary operators, and the operators between them.
  function Spine(lib: Library, e: Expr): (Expr, Items)
    requires Printable(e)
    decreases Size(e)
  {
    match e
    case Unary(op, x) => (Unary(op, Spine(lib, x).0), Spine(lib, x).1)
    case Binary(op, l, r) =>
      if Fold(op, l, r).Some? then Spine(lib, Fold(op, l, r).value)
      else (Spine(lib, l).0, Spine(lib, l).1 + [(op, Spine(lib, r).0)] + Spine(lib, r).1)
    case _ => (ReadAtom(lib, e), [])
  }

  // The expression that climbing makes of them.
  function Reread(lib: Library, e: Expr): Expr
    requires Printable(e)
  {
    Climb(Spine(lib, e).0, 0, Spine(lib, e).1).0
  }

  lemma {:induction false} ItemsAppend(lib: Library, a: seq<Item>, b: seq<Item>)
    requires ConsumeItems(lib, a).Some? && ConsumeItems(lib, b).Some?
    ensures ConsumeItems(lib, a + b) == Some(ConsumeItems(lib, a).value + ConsumeItems(lib, b).value)
  {
    if a == [] {
      assert a + b == b;
      assert [] + ConsumeItems(lib, b).value == ConsumeItems(lib, b).value;
    } else {
      ItemsAppend(lib, a[1..], b);
      assert (a + b)[1..] == a[1..] + b && (a + b)[0] == a[0];
      var first := (a[0].op, ConsumeItem(lib, a[0]).value);
      var more, last := ConsumeItems(lib, a[1..]).value, ConsumeItems(lib, b).value;
      assert ConsumeItems(lib, a).value == [first] + more;
      assert ([first] + more) + last == [first] + (more + last);
    }
  }

  lemma OneItem(lib: Library, op: BinaryOp, p: Primary)
    requires ConsumePrimary(lib, p).Some?
    ensures ConsumeItems(lib, [Item(op, p)]) == Some([(op, ConsumePrimary(lib, p).value)])
  {
    var items := [Item(op, p)];
    assert items[1..] == [];
    assert ConsumeItem(lib, items[0]) == ConsumePrimary(lib, p);
    var first := (op, ConsumePrimary(lib, p).value);
    assert [first] + [] == [first];
  }

  lemma NumberConsumes(lib: Library, n: nat, radix: nat)
    requires 2 <= radix <= 16
    ensures ConsumeOperand(lib, IntegerText(radix, Digits(n, radix))) == Some(ReadNumber(n))
  {
    DigitsRoundTrip(n, radix);
  }

  lemma OperandConsumes(lib: Library, o: Operand, ops: seq<UnaryOp>)
    requires ConsumeOperand(lib, o).Some?
    ensures ConsumePrimary(lib, Primary(ops, o)) == Some(Wrap(ops, ConsumeOperand(lib, o).value))
  {
  }

  lemma IntegerConsumes(lib: Library, v: Variant)
    requires v.Int64? || v.UInt64? || v.BigInt? || v.Buffer? || v.Slice?
    requires InRange(v)
    ensures ConsumePrimary(lib, LiteralPrimary(v)) == Some(ReadAtom(lib, Literal(v)))
  {
    var p := LiteralPrimary(v);
    match v
    case Int64(i) =>
      var n := if i < 0 then -i else i;
      NumberConsumes(lib, n, 10);
      OperandConsumes(lib, p.operand, p.ops);
      assert Wrap([Minus], ReadNumber(n)) == Unary(Minus, Wrap([Minus][1..], ReadNumber(n)));
    case UInt64(u) => NumberConsumes(lib, u, 10);
    case BigInt(b) => NumberConsumes(lib, Magnitude(b), 16);
    case Buffer(b) => NumberConsumes(lib, Magnitude(b), 16);
    case Slice(b) => NumberConsumes(lib, Magnitude(b), 16);
  }

  lemma AtomConsumes(lib: Library, e: Expr)
    requires Printable(e) && IsLeaf(e)
    ensures ConsumePrimary(lib, Flat(e).first) == Some(ReadAtom(lib, e))
  {
    if e.Literal? && e.value.String? {
      Json.RoundTrip(e.value.text);
      OperandConsumes(lib, StringText(Json.Write(e.value.text)), []);
    } else if e.Literal? && !e.value.Nil? && !e.value.Bool? {
      IntegerConsumes(lib, e.value);
    } else {
      OperandConsumes(lib, Flat(e).first.operand, []);
    }
  }

  lemma {:induction false} FlatConsumes(lib: Library, e: Expr)
    requires Printable(e)
    ensures ConsumePrimary(lib, Flat(e).first) == Some(Spine(lib, e).0)
    ensures ConsumeItems(lib, Flat(e).rest) == Some(Spine(lib, e).1)
    decreases Size(e)
  {
    match e
    case Unary(op, x) =>
      FlatConsumes(lib, x);
      assert ([op] + Flat(x).first.ops)[1..] == Flat(x).first.ops;
    case Binary(op, l, r) =>
      if Fold(op, l, r).Some? {
        FlatConsumes(lib, Fold(op, l, r).value);
      } else {
        FlatConsumes(lib, l);
        FlatConsumes(lib, r);
        OneItem(lib, op, Flat(r).first);
        ItemsAppend(lib, Flat(l).rest, [Item(op, Flat(r).first)]);
        ItemsAppend(lib, Flat(l).rest + [Item(op, Flat(r).first)], Flat(r).rest);
      }
    case _ => AtomConsumes(lib, e);
  }

  /** Printed text always parses, and never panics. */
  lemma PrintedIsReread(lib: Library, e: Expr)
    requires Printable(e)
    ensures Parse(lib, Unparse(lib, e)) == Parsed(Reread(lib, e))
  {
    PrintedIsFlat(lib, e);
    FlatConsumes(lib, e);
  }

  // ---- Parser normal form

  // An atom that the parser itself makes.
  predicate IsAtom(lib: Library, e: Expr)
  {
    match e
    case Literal(Nil) => true
    case Literal(Bool(_)) => true
    case Literal(UInt64(_)) => true
    case Literal(String(_)) => true
    case Literal(BigInt(b)) => Minimal(b) && FromSignedBytes(b) >= TWO_64
    case Literal(_) => false
    case Token(_) => true
    case Macro(text) => lib.readIpv4(text).None? && lib.readIpv6(text).None? && lib.readMac(text).None?
    case _ => false
  }

  predicate IsChain(lib: Library, e: Expr)
  {
    if e.Unary? then IsChain(lib, e.operand) else IsAtom(lib, e)
  }

  // How tight the top of the expression binds; a chain binds tighter than every operator.
  function Tightness(e: Expr): nat
  {
    if e.Binary? then Prec(e.op) else 5
  }

  // Unary chains over atoms, joined as the precedence table joins them, and no comparison with a
  // Boolean constant.
  predicate Normal(lib: Library, e: Expr)
  {
    if e.Binary? then
      && Normal(lib, e.lhs) && Normal(lib, e.rhs)
      && Tightness(e.lhs) >= Prec(e.op) && Tightness(e.rhs) > Prec(e.op)
      && Fold(e.op, e.lhs, e.rhs).None?
    else IsChain(lib, e)
  }

  lemma MagnitudeOfPositive(b: seq<byte>)
    requires FromSignedBytes(b) >= 0
    ensures Magnitude(b) == FromSignedBytes(b)
  {
    if |b| == 1 {
      assert b[..0] == [];
    } else if b != [] {
      MagnitudeOfPositive(b[..|b| - 1]);
    }
  }

  lemma AtomIsReread(lib: Library, e: Expr)
    requires Printable(e) && IsAtom(lib, e)
    ensures ReadAtom(lib, e) == e
  {
    match e
    case Literal(UInt64(u)) => SignedBytesRoundTrip(u);
    case Literal(BigInt(b)) =>
      MagnitudeOfPositive(b);
      MinimalUnique(b);
    case _ =>
  }

  lemma {:induction false} ChainIsReread(lib: Library, e: Expr)
    requires Printable(e) && IsChain(lib, e)
    ensures Spine(lib, e) == (e, [])
  {
    if e.Unary? { ChainIsReread(lib, e.operand); } else { AtomIsReread(lib, e); }
  }

  // ---- Climbing rebuilds normal expressions

  // What follows does not bind tighter than e.
  predicate Loose(e: Expr, rest: Items)
  {
    rest == [] || Prec(rest[0].0) <= Tightness(e)
  }

  lemma ItemsRegroup(l: Items, item: (BinaryOp, Expr), r: Items, rest: Items)
    ensures (l + [item] + r) + rest == l + ([item] + (r + rest))
    ensures ([item] + (r + rest))[1..] == r + rest
  {
  }

  // The right operand of an operator, followed by something no tighter than the operator.
  lemma {:induction false} RightOperand(lib: Library, e: Expr, p: nat, rest: Items)
    requires Printable(e) && Normal(lib, e) && p < Tightness(e) && Loose(e, rest)
    ensures var (first, tail) := Spine(lib, e);
      ClimbRight(first, p, tail + rest) == ClimbRight(e, p, rest)
    decreases e, 1
  {
    if e.Binary? {
      var (op, l, r) := (e.op, e.lhs, e.rhs);
      var tail := [(op, Spine(lib, r).0)] + (Spine(lib, r).1 + rest);
      ItemsRegroup(Spine(lib, l).1, (op, Spine(lib, r).0), Spine(lib, r).1, rest);
      RightOperand(lib, l, p, tail);
      OneOperator(lib, op, l, r, Prec(op), rest);
    } else {
      ChainIsReread(lib, e);
      assert [] + rest == rest;
    }
  }

  // One operator with its whole right operand.
  lemma {:induction false} OneOperator(lib: Library, op: BinaryOp, l: Expr, r: Expr, min: nat, rest: Items)
    requires Printable(r) && Normal(lib, r) && min <= Prec(op) < Tightness(r)
    requires rest == [] || Prec(rest[0].0) <= Prec(op)
    ensures Climb(l, min, [(op, Spine(lib, r).0)] + (Spine(lib, r).1 + rest)) == Climb(Binary(op, l, r), min, rest)
    decreases r, 2
  {
    var tail := Spine(lib, r).1 + rest;
    assert ([(op, Spine(lib, r).0)] + tail)[1..] == tail;
    RightOperand(lib, r, Prec(op), rest);
  }

  lemma {:induction false} LeftOperand(lib: Library, e: Expr, min: nat, rest: Items)
    requires Printable(e) && Normal(lib, e) && min <= Tightness(e) && Loose(e, rest)
    ensures var (first, tail) := Spine(lib, e);
      Climb(first, min, tail + rest) == Climb(e, min, rest)
  {
    if e.Binary? {
      var (op, l, r) := (e.op, e.lhs, e.rhs);
      var tail := [(op, Spine(lib, r).0)] + (Spine(lib, r).1 + rest);
      ItemsRegroup(Spine(lib, l).1, (op, Spine(lib, r).0), Spine(lib, r).1, rest);
      LeftOperand(lib, l, min, tail);
      OneOperator(lib, op, l, r, min, rest);
    } else {
      ChainIsReread(lib, e);
      assert [] + rest == rest;
    }
  }

  /** Printing then parsing gives a normal expression back. */
  lemma NormalRoundTrip(lib: Library, e: Expr)
    requires Printable(e) && Normal(lib, e)
    ensures Parse(lib, Unparse(lib, e)) == Parsed(e)
  {
    PrintedIsReread(lib, e);
    LeftOperand(lib, e, 0, []);
    assert Spine(lib, e).1 + [] == Spine(lib, e).1;
  }

  // ---- Only normal expressions come back

  function Leaves(e: Expr): (s: seq<Expr>)
    ensures s != []
  {
    match e
    case Binary(_, l, r) => Leaves(l) + Leaves(r)
    case Unary(_, x) => Leaves(x)
    case _ => [e]
  }

  function LeavesOf(items: Items): seq<Expr>
  {
    if items == [] then [] else Leaves(items[0].1) + LeavesOf(items[1..])
  }

  // The leaves that are printed: all but the folded constants.
  function Printed(e: Expr): seq<Expr>
    decreases Size(e)
  {
    match e
    case Binary(op, l, r) =>
      if Fold(op, l, r).Some? then Printed(Fold(op, l, r).value) else Printed(l) + Printed(r)
    case Unary(_, x) => Printed(x)
    case _ => [e]
  }

  predicate Unfolded(e: Expr)
  {
    match e
    case Binary(op, l, r) => Fold(op, l, r).None? && Unfolded(l) && Unfolded(r)
    case Unary(_, x) => Unfolded(x)
    case _ => true
  }

  lemma {:induction false} PrintedIsAll(e: Expr)
    ensures |Printed(e)| <= |Leaves(e)|
    ensures |Printed(e)| == |Leaves(e)| ==> Printed(e) == Leaves(e) && Unfolded(e)
    decreases Size(e)
  {
    match e
    case Binary(op, l, r) =>
      if Fold(op, l, r).Some? {
        PrintedIsAll(Fold(op, l, r).value);
      } else {
        PrintedIsAll(l);
        PrintedIsAll(r);
      }
    case Unary(_, x) => PrintedIsAll(x);
    case _ =>
  }

  predicate ReadFrom(lib: Library, leaves: seq<Expr>, printed: seq<Expr>)
  {
    |leaves| == |printed| && forall i :: 0 <= i < |leaves| ==> leaves[i] == ReadLeaf(lib, printed[i])
  }

  lemma {:induction false} LeavesOfAppend(a: Items, b: Items)
    ensures LeavesOf(a + b) == LeavesOf(a) + LeavesOf(b)
  {
    if a == [] {
      assert a + b == b;
    } else {
      LeavesOfAppend(a[1..], b);
      assert (a + b)[1..] == a[1..] + b && (a + b)[0] == a[0];
    }
  }

  lemma OneItemLeaves(op: BinaryOp, e: Expr)
    ensures LeavesOf([(op, e)]) == Leaves(e)
  {
    assert [(op, e)][1..] == [];
  }

  lemma JoinedLeaves(head: Expr, left: Items, op: BinaryOp, first: Expr, right: Items)
    ensures Leaves(head) + LeavesOf(left + [(op, first)] + right)
      == (Leaves(head) + LeavesOf(left)) + (Leaves(first) + LeavesOf(right))
  {
    OneItemLeaves(op, first);
    LeavesOfAppend(left, [(op, first)]);
    LeavesOfAppend(left + [(op, first)], right);
  }

  lemma ReadFromJoins(lib: Library, a: seq<Expr>, p: seq<Expr>, b: seq<Expr>, q: seq<Expr>)
    requires ReadFrom(lib, a, p) && ReadFrom(lib, b, q)
    ensures ReadFrom(lib, a + b, p + q)
  {
  }

  function SpineLeavesOf(lib: Library, e: Expr): seq<Expr>
    requires Printable(e)
  {
    Leaves(Spine(lib, e).0) + LeavesOf(Spine(lib, e).1)
  }

  lemma BinarySpineLeaves(lib: Library, op: BinaryOp, l: Expr, r: Expr)
    requires Printable(l) && Printable(r) && Fold(op, l, r).None?
    ensures SpineLeavesOf(lib, Binary(op, l, r)) == SpineLeavesOf(lib, l) + SpineLeavesOf(lib, r)
  {
    JoinedLeaves(Spine(lib, l).0, Spine(lib, l).1, op, Spine(lib, r).0, Spine(lib, r).1);
  }

  lemma {:induction false} SpineLeaves(lib: Library, e: Expr)
    requires Printable(e)
    ensures ReadFrom(lib, SpineLeavesOf(lib, e), Printed(e))
    decreases Size(e)
  {
    match e
    case Unary(_, x) => SpineLeaves(lib, x);
    case Binary(op, l, r) =>
      if Fold(op, l, r).Some? {
        SpineLeaves(lib, Fold(op, l, r).value);
      } else {
        SpineLeaves(lib, l);
        SpineLeaves(lib, r);
        BinarySpineLeaves(lib, op, l, r);
        ReadFromJoins(lib, SpineLeavesOf(lib, l), Printed(l), SpineLeavesOf(lib, r), Printed(r));
      }
    case _ => assert Leaves(ReadAtom(lib, e)) == [ReadLeaf(lib, e)];
  }

  lemma {:induction false} ClimbLeaves(lhs: Expr, min: nat, items: Items)
    ensures var (r, rest) := Climb(lhs, min, items);
      Leaves(r) + LeavesOf(rest) == Leaves(lhs) + LeavesOf(items)
    decreases |items|, 0
  {
    if items != [] && Prec(items[0].0) >= min {
      var (op, next) := items[0];
      var (rhs, rest) := ClimbRight(next, Prec(op), items[1..]);
      ClimbRightLeaves(next, Prec(op), items[1..]);
      ClimbLeaves(Binary(op, lhs, rhs), min, rest);
    }
  }

  lemma {:induction false} ClimbRightLeaves(rhs: Expr, prec: nat, items: Items)
    ensures var (r, rest) := ClimbRight(rhs, prec, items);
      Leaves(r) + LeavesOf(rest) == Leaves(rhs) + LeavesOf(items)
    decreases |items|, 1
  {
    if items != [] && Prec(items[0].0) > prec {
      var (more, rest) := Climb(rhs, Prec(items[0].0), items);
      ClimbLeaves(rhs, Prec(items[0].0), items);
      ClimbRightLeaves(more, prec, rest);
    }
  }

  predicate IsTwig(e: Expr)
  {
    if e.Unary? then IsTwig(e.operand) else IsLeaf(e)
  }

  // Unary chains, joined as the precedence table joins them.
  predicate Shaped(e: Expr)
  {
    if e.Binary? then
      && Shaped(e.lhs) && Shaped(e.rhs)
      && Tightness(e.lhs) >= Prec(e.op) && Tightness(e.rhs) > Prec(e.op)
    else IsTwig(e)
  }

  predicate Twigs(items: Items)
  {
    forall i :: 0 <= i < |items| ==> IsTwig(items[i].1)
  }

  lemma {:induction false} SpineTwigs(lib: Library, e: Expr)
    requires Printable(e)
    ensures IsTwig(Spine(lib, e).0) && Twigs(Spine(lib, e).1)
    decreases Size(e)
  {
    match e
    case Unary(_, x) => SpineTwigs(lib, x);
    case Binary(op, l, r) =>
      if Fold(op, l, r).Some? {
        SpineTwigs(lib, Fold(op, l, r).value);
      } else {
        SpineTwigs(lib, l);
        SpineTwigs(lib, r);
      }
    case _ =>
  }

  lemma {:induction false} ClimbShaped(lhs: Expr, min: nat, items: Items)
    requires Shaped(lhs) && Twigs(items) && Loose(lhs, items)
    ensures var (r, rest) := Climb(lhs, min, items);
      && Shaped(r) && Twigs(rest) && Loose(r, rest)
      && (rest != [] ==> Prec(rest[0].0) < min)
      && (items != [] && Prec(items[0].0) >= min ==> Tightness(r) >= min)
      && (r == lhs || Tightness(r) >= min)
    decreases |items|, 0
  {
    if items != [] && Prec(items[0].0) >= min {
      var (op, next) := items[0];
      var (rhs, rest) := ClimbRight(next, Prec(op), items[1..]);
      ClimbRightShaped(next, Prec(op), items[1..]);
      ClimbShaped(Binary(op, lhs, rhs), min, rest);
    }
  }

  lemma {:induction false} ClimbRightShaped(rhs: Expr, prec: nat, items: Items)
    requires Shaped(rhs) && Twigs(items) && Loose(rhs, items) && prec < Tightness(rhs)
    ensures var (r, rest) := ClimbRight(rhs, prec, items);
      && Shaped(r) && Twigs(rest) && prec < Tightness(r)
      && (rest != [] ==> Prec(rest[0].0) <= prec)
    decreases |items|, 1
  {
    if items != [] && Prec(items[0].0) > prec {
      var (more, rest) := Climb(rhs, Prec(items[0].0), items);
      ClimbShaped(rhs, Prec(items[0].0), items);
      ClimbRightShaped(more, prec, rest);
    }
  }

  lemma {:induction false} PrintableLeaves(e: Expr)
    requires Printable(e)
    ensures forall i :: 0 <= i < |Leaves(e)| ==> Printable(Leaves(e)[i]) && IsLeaf(Leaves(e)[i])
  {
    match e
    case Binary(_, l, r) => PrintableLeaves(l); PrintableLeaves(r);
    case Unary(_, x) => PrintableLeaves(x);
    case _ =>
  }

  lemma ReadNumberIsNatural(n: nat)
    ensures var v := ReadNumber(n).value;
      if v.BigInt? then Minimal(v.digits) && FromSignedBytes(v.digits) >= TWO_64 else v.UInt64?
  {
    SignedBytesRoundTrip(n);
    ToSignedMinimal(n);
  }

  lemma FixedLeafIsAtom(lib: Library, e: Expr)
    requires Printable(e) && IsLeaf(e) && ReadLeaf(lib, e) == e
    ensures IsAtom(lib, e)
  {
    match e
    case Literal(Int64(i)) => ReadNumberIsNatural(if i < 0 then -i else i);
    case Literal(BigInt(b)) => ReadNumberIsNatural(Magnitude(b));
    case _ =>
  }

  lemma {:induction false} TwigIsChain(lib: Library, e: Expr)
    requires IsTwig(e) && IsAtom(lib, Leaves(e)[0])
    ensures IsChain(lib, e)
  {
    if e.Unary? { TwigIsChain(lib, e.operand); }
  }

  lemma {:induction false} ShapedIsNormal(lib: Library, e: Expr)
    requires Shaped(e) && Unfolded(e)
    requires forall i :: 0 <= i < |Leaves(e)| ==> IsAtom(lib, Leaves(e)[i])
    ensures Normal(lib, e)
  {
    if e.Binary? {
      var l, r := e.lhs, e.rhs;
      forall i | 0 <= i < |Leaves(l)| ensures IsAtom(lib, Leaves(l)[i]) { assert Leaves(e)[i] == Leaves(l)[i]; }
      forall i | 0 <= i < |Leaves(r)| ensures IsAtom(lib, Leaves(r)[i]) { assert Leaves(e)[|Leaves(l)| + i] == Leaves(r)[i]; }
      ShapedIsNormal(lib, l);
      ShapedIsNormal(lib, r);
    } else {
      TwigIsChain(lib, e);
    }
  }

  lemma OnlyNormalComesBack(lib: Library, e: Expr)
    requires Printable(e) && Reread(lib, e) == e
    ensures Normal(lib, e)
  {
    var (first, tail) := Spine(lib, e);
    SpineTwigs(lib, e);
    ClimbShaped(first, 0, tail);
    ClimbLeaves(first, 0, tail);
    assert Climb(first, 0, tail).1 == [];
    assert Leaves(e) == Leaves(first) + LeavesOf(tail);
    SpineLeaves(lib, e);
    PrintedIsAll(e);
    PrintableLeaves(e);
    forall i | 0 <= i < |Leaves(e)| ensures IsAtom(lib, Leaves(e)[i]) {
      FixedLeafIsAtom(lib, Leaves(e)[i]);
    }
    ShapedIsNormal(lib, e);
  }

  /** Printing then parsing is the identity exactly on the normal expressions. */
  lemma RoundTripIffNormal(lib: Library, e: Expr)
    requires Printable(e)
    ensures Parse(lib, Unparse(lib, e)) == Parsed(e) <==> Normal(lib, e)
  {
    PrintedIsReread(lib, e);
    if Normal(lib, e) { NormalRoundTrip(lib, e); }
    if Reread(lib, e) == e { OnlyNormalComesBack(lib, e); }
  }

  /** A negated comparison is not normal: its group is not printed, so the text negates one side instead. */
  lemma GroupIsLost(lib: Library, a: string, b: string)
    requires IsMember(a) && IsMember(b)
    ensures var e := Unary(Not, Binary(Eq, Token(a), Token(b)));
      !Normal(lib, e) && Parse(lib, Unparse(lib, e)) == Parsed(Binary(Eq, Unary(Not, Token(a)), Token(b)))
  {
    var e := Unary(Not, Binary(Eq, Token(a), Token(b)));
    var read := Binary(Eq, Unary(Not, Token(a)), Token(b));
    assert !IsChain(lib, e.operand);
    PrintedIsReread(lib, e);
    assert IsChain(lib, read.lhs.operand) && IsChain(lib, read.lhs);
    LeftOperand(lib, read, 0, []);
    assert Spine(lib, read).1 + [] == Spine(lib, read).1;
    assert Spine(lib, e) == Spine(lib, read) by {
      assert Spine(lib, e.operand) == Spine(lib, Binary(Eq, Token(a), Token(b)));
    }
  }

  // A number as filter text in one of the four radices.
  function NumberText(n: nat, radix: nat): string
    requires radix == 2 || radix == 8 || radix == 10 || radix == 16
  {
    (if radix == 16 then "0x" else if radix == 8 then "0o" else if radix == 2 then "0b" else "") + Digits(n, radix)
  }

  /** A number reads as the same literal, whichever radix it is written in. */
  lemma RadixDoesNotMatter(lib: Library, n: nat, radix: nat)
    requires radix == 2 || radix == 8 || radix == 10 || radix == 16
    ensures Parse(lib, NumberText(n, radix)) == Parsed(ReadNumber(n))
  {
    var text, p := NumberText(n, radix), Primary([], IntegerText(radix, Digits(n, radix)));
    assert MatchPrimary(text + []) == Match(p, []) by {
      if radix == 16 {
        HexIsPrimary(n, []);
      } else if radix == 10 {
        DecimalIsPrimary(n, []);
        assert "" + Digits(n, 10) == Digits(n, 10);
      } else {
        if radix == 8 { OctMatches(n, []); } else { BinMatches(n, []); }
        LiteralIsPrimary(text + [], p.operand, []);
      }
    }
    assert text + [] == text;
    assert MatchItems([]) == Match([], []);
    if radix == 10 { DigitClass(text[0]); }
    assert SkipBlanks(text) == text;
    NumberConsumes(lib, n, radix);
    OperandConsumes(lib, p.operand, []);
    assert ConsumeItems(lib, []) == Some([]);
  }
}
