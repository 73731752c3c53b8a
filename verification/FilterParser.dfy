// From filter text to expressions (genet-filter/src/parser.rs), with the precedence climbing of pest.
module FilterParser {
  import opened Base
  import opened Frames
  import opened Numerals
  import opened Variants
  import opened FilterAst
  import opened FilterSyntax
  import Json

  // Library code: floats, and the text forms of addresses.
  datatype Library = Library(
    floats: Floats,
    readIpv4: string -> Option<seq<byte>>,
    readIpv6: string -> Option<seq<byte>>,
    readMac: string -> Option<seq<byte>>,
    showIpv4: seq<byte> -> string,
    showIpv6: seq<byte> -> string,
    showMac: seq<byte> -> string)

  function ParseMacro(lib: Library, text: string): Expr
  {
    if lib.readIpv4(text).Some? then Literal(Buffer(lib.readIpv4(text).value))
    else if lib.readIpv6(text).Some? then Literal(Buffer(lib.readIpv6(text).value))
    else if lib.readMac(text).Some? then Literal(Buffer(lib.readMac(text).value))
    else Macro(text)
  }

  // ---- Precedence climbing

  // The table as the code has it; an operator with a larger number binds tighter.
  function Prec(op: BinaryOp): (p: nat)
    ensures 1 <= p <= 4
  {
    match op
    case Lt => 1
    case Lte => 1
    case Gt => 1
    case Gte => 1
    case Eq => 2
    case Ne => 2
    case And => 3
    case Or => 4
  }

  type Items = seq<(BinaryOp, Expr)>

  // Extends lhs by the operators that bind at least as tight as min.
  function Climb(lhs: Expr, min: nat, items: Items): (r: (Expr, Items))
    ensures |r.1| <= |items|
    ensures items != [] && Prec(items[0].0) >= min ==> |r.1| < |items|
    decreases |items|, 0
  {
    if items == [] || Prec(items[0].0) < min then (lhs, items)
    else
      var (op, next) := items[0];
      var (rhs, rest) := ClimbRight(next, Prec(op), items[1..]);
      Climb(Binary(op, lhs, rhs), min, rest)
  }

  // Extends the right operand of an operator by the operators that bind tighter than it.
  function ClimbRight(rhs: Expr, prec: nat, items: Items): (r: (Expr, Items))
    ensures |r.1| <= |items|
    decreases |items|, 1
  {
    if items == [] || Prec(items[0].0) <= prec then (rhs, items)
    else
      var (more, rest) := Climb(rhs, Prec(items[0].0), items);
      ClimbRight(more, prec, rest)
  }

  // ---- Consuming the parse tree; None where the code panics

  function Wrap(ops: seq<UnaryOp>, e: Expr): Expr
  {
    if ops == [] then e else Unary(ops[0], Wrap(ops[1..], e))
  }

  function ConsumeOperand(lib: Library, o: Operand): Option<Expr>
    decreases o
  {
    match o
    case Group(tree) => ConsumeExpr(lib, tree)
    case NilText => Some(Literal(Nil))
    case BoolText(text) => Some(Literal(Bool(text == "true")))
    case FloatText(text) => Some(Literal(Float64(lib.floats.read(text))))
    case IntegerText(radix, digits) => Some(Literal(Shrink(BigInt(ToSignedBytes(FromDigits(digits, radix))))))
    case StringText(text) =>
      var s := Json.Read(text);
      if s.Some? then Some(Literal(String(s.value))) else None
    case MemberText(text) => Some(Token(text))
    case MacroText(text) => Some(ParseMacro(lib, text))
  }

  function ConsumePrimary(lib: Library, p: Primary): Option<Expr>
    decreases p
  {
    var e := ConsumeOperand(lib, p.operand);
    if e.Some? then Some(Wrap(p.ops, e.value)) else None
  }

  function ConsumeItem(lib: Library, item: Item): Option<Expr>
    decreases item
  {
    ConsumePrimary(lib, item.primary)
  }

  function ConsumeItems(lib: Library, items: seq<Item>): (r: Option<Items>)
    ensures r.Some? ==> |r.value| == |items|
    decreases items
  {
    if items == [] then Some([])
    else
      var e := ConsumeItem(lib, items[0]);
      var more := ConsumeItems(lib, items[1..]);
      if e.Some? && more.Some? then Some([(items[0].op, e.value)] + more.value) else None
  }

  function ConsumeExpr(lib: Library, tree: Tree): Option<Expr>
    decreases tree
  {
    var first := ConsumePrimary(lib, tree.first);
    var items := ConsumeItems(lib, tree.rest);
    if first.Some? && items.Some? then Some(Climb(first.value, 0, items.value).0) else None
  }

  // consume_primary walks over its parts from the last to the first.
  method WrapBackwards(ops: seq<UnaryOp>, operand: Expr) returns (result: Expr)
    ensures result == Wrap(ops, operand)
  {
    result := operand;
    var k := |ops|;
    assert ops[k..] == [];
    while k > 0
      invariant 0 <= k <= |ops| && result == Wrap(ops[k..], operand)
    {
      k := k - 1;
      assert ops[k..][0] == ops[k] && ops[k..][1..] == ops[k + 1..];
      result := Unary(ops[k], result);
    }
    assert ops[0..] == ops;
  }

  datatype Outcome = Parsed(expr: Expr) | SyntaxError | Panic

  function Parse(lib: Library, filter: string): Outcome
  {
    var tree := MatchFilter(filter);
    if tree.None? then SyntaxError
    else
      var e := ConsumeExpr(lib, tree.value);
      if e.Some? then Parsed(e.value) else Panic
  }
}
