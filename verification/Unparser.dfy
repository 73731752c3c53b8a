// From expressions back to filter text (genet-filter/src/unparser.rs and to_string in variant.rs).
module Unparser {
  import opened Base
  import opened Frames
  import opened Numerals
  import opened Variants
  import opened FilterAst
  import opened FilterParser
  import Json

  function Decimal(n: int): string
  {
    if n < 0 then "-" + Digits(-n, 10) else Digits(n, 10)
  }

  function ToText(lib: Library, v: Variant): string
  {
    match v
    case Nil => "nil"
    case Bool(b) => if b then "true" else "false"
    case Int64(i) => Decimal(i)
    case UInt64(u) => Decimal(u)
    case Float64(x) => lib.floats.show(x)
    case String(s) => Json.Write(s)
    case BigInt(b) => "0x" + Digits(Magnitude(b), 16)
    case Buffer(b) => "0x" + Digits(Magnitude(b), 16)
    case Slice(b) => "0x" + Digits(Magnitude(b), 16)
  }

  function UnparseAttr(lib: Library, typ: string, v: Variant): Expr
  {
    if typ == "@ipv4:addr" && v.Slice? && |v.bytes| == 4 then Macro(lib.showIpv4(v.bytes))
    else if typ == "@ipv6:addr" && v.Slice? && |v.bytes| == 16 then Macro(lib.showIpv6(v.bytes))
    else if typ == "@eth:mac" && v.Slice? && |v.bytes| == 6 then Macro(lib.showMac(v.bytes))
    else Literal(v)
  }

  function OpText(op: BinaryOp): string
  {
    match op
    case Eq => "=="
    case Ne => "!="
    case Lt => "<"
    case Gt => ">"
    case Lte => "<="
    case Gte => ">="
    case And => "&&"
    case Or => "||"
  }

  function UnaryText(op: UnaryOp): string
  {
    match op
    case Plus => "+"
    case Minus => "-"
    case Not => "!"
  }

  // What is printed for a comparison with a Boolean constant: the other side, maybe negated.
  function Fold(op: BinaryOp, lhs: Expr, rhs: Expr): Option<Expr>
  {
    match (op, lhs, rhs)
    case (Eq, _, Literal(Bool(true))) => Some(lhs)
    case (Eq, _, Literal(Bool(false))) => Some(Unary(Not, lhs))
    case (Eq, Literal(Bool(true)), _) => Some(rhs)
    case (Eq, Literal(Bool(false)), _) => Some(Unary(Not, rhs))
    case (Ne, _, Literal(Bool(false))) => Some(lhs)
    case (Ne, _, Literal(Bool(true))) => Some(Unary(Not, lhs))
    case (Ne, Literal(Bool(false)), _) => Some(rhs)
    case (Ne, Literal(Bool(true)), _) => Some(Unary(Not, rhs))
    case _ => None
  }

  function Size(e: Expr): (n: nat)
    ensures n > 0
  {
    match e
    case Binary(_, l, r) => 1 + Size(l) + Size(r)
    case Unary(_, x) => 1 + Size(x)
    case _ => 1
  }

  function Unparse(lib: Library, e: Expr): string
    decreases Size(e)
  {
    match e
    case Literal(v) => ToText(lib, v)
    case Token(id) => id
    case Macro(text) => "@" + text
    case Binary(op, l, r) =>
      if Fold(op, l, r).Some? then Unparse(lib, Fold(op, l, r).value)
      else Unparse(lib, l) + " " + OpText(op) + " " + Unparse(lib, r)
    case Unary(op, x) => UnaryText(op) + Unparse(lib, x)
  }

  // ---- What folding does to the meaning

  predicate IsBool(e: Expr)
  {
    e.Literal? && e.value.Bool?
  }

  function Constant(lhs: Expr, rhs: Expr): bool
    requires IsBool(lhs) || IsBool(rhs)
  {
    if IsBool(rhs) then rhs.value.b else lhs.value.b
  }

  function KeptSide(lhs: Expr, rhs: Expr): Expr
  {
    if IsBool(rhs) then lhs else rhs
  }

  lemma FoldIs(op: BinaryOp, lhs: Expr, rhs: Expr)
    ensures Fold(op, lhs, rhs).Some? <==> (op == Eq || op == Ne) && (IsBool(lhs) || IsBool(rhs))
    ensures Fold(op, lhs, rhs).Some? ==> var kept := KeptSide(lhs, rhs);
      Fold(op, lhs, rhs).value == if Constant(lhs, rhs) == (op == Eq) then kept else Unary(Not, kept)
  {
    match op
    case Eq =>
    case Ne =>
    case _ =>
  }

  lemma EqualsBool(f: Floats, x: Variant, y: Variant)
    requires x.Bool? || y.Bool?
    ensures OpEq(f, x, y) <==> x == y
  {
  }

  /** A comparison with a Boolean constant is printed as the truth of the other side. The two mean the same
      on a frame exactly when that side is a Boolean there, or nil under true, or another value under false. */
  lemma FoldMeaning(f: Floats, op: BinaryOp, lhs: Expr, rhs: Expr, layers: seq<Layer>)
    requires Fold(op, lhs, rhs).Some?
    ensures IsBool(lhs) || IsBool(rhs)
    ensures var v := Eval(f, KeptSide(lhs, rhs), layers);
      (Test(f, Fold(op, lhs, rhs).value, layers) <==> Test(f, Binary(op, lhs, rhs), layers)) <==>
      if Constant(lhs, rhs) then v.Bool? || v.Nil? else !v.Nil?
  {
    FoldIs(op, lhs, rhs);
    var kept := KeptSide(lhs, rhs);
    var x, y, v := Eval(f, lhs, layers), Eval(f, rhs, layers), Eval(f, kept, layers);
    assert Eval(f, Unary(Not, kept), layers) == Bool(!IsTruthy(v));
    assert Eval(f, Binary(op, lhs, rhs), layers) == Bool(EvalBinary(f, op, x, y));
    EqualsBool(f, x, y);
  }

  /** On a frame where an id reads as 5, the comparison with true fails, but what is printed for it holds. */
  lemma NumberIsNotTrue(f: Floats, id: string, layers: seq<Layer>)
    requires LookUp(id, layers) == UInt64(5)
    ensures var lhs, rhs := Token(id), Literal(Bool(true));
      Fold(Eq, lhs, rhs) == Some(lhs) && Test(f, lhs, layers) && !Test(f, Binary(Eq, lhs, rhs), layers)
  {
    var lhs, rhs := Token(id), Literal(Bool(true));
    assert Eval(f, lhs, layers) == UInt64(5);
    FoldMeaning(f, Eq, lhs, rhs, layers);
  }
}
