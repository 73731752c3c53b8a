// Filter expressions and their evaluation on the layers of a frame (genet-filter/src/ast.rs).
module FilterAst {
  import opened Base
  import opened Frames
  import opened Variants

  datatype BinaryOp = Eq | Ne | Lt | Gt | Lte | Gte | And | Or

  datatype UnaryOp = Plus | Minus | Not

  datatype Expr =
    | Literal(value: Variant)
    | Token(id: string)
    | Macro(text: string)
    | Binary(op: BinaryOp, lhs: Expr, rhs: Expr)
    | Unary(uop: UnaryOp, operand: Expr)

  function Eval(f: Floats, e: Expr, layers: seq<Layer>): Variant
  {
    match e
    case Literal(v) => v
    case Binary(op, l, r) => Bool(EvalBinary(f, op, Eval(f, l, layers), Eval(f, r, layers)))
    case Unary(Not, x) => Bool(!IsTruthy(Eval(f, x, layers)))
    case Unary(Plus, x) => UnaryPlus(Eval(f, x, layers))
    case Unary(Minus, x) => UnaryNegation(f, Eval(f, x, layers))
    case Token(id) => LookUp(id, layers)
    case Macro(_) => Nil
  }

  predicate EvalBinary(f: Floats, op: BinaryOp, x: Variant, y: Variant)
  {
    match op
    case Eq => OpEq(f, x, y)
    case Ne => !OpEq(f, x, y)
    case Lt => OpLt(f, x, y)
    case Gt => OpGt(f, x, y)
    case Lte => OpLte(f, x, y)
    case Gte => OpGte(f, x, y)
    case And => IsTruthy(x) && IsTruthy(y)
    case Or => IsTruthy(x) || IsTruthy(y)
  }

  // What a layer says about an id: a layer's own id reads as true, an attribute as its value if it has one.
  function Answer(id: string, layer: Layer): Option<Variant>
  {
    if layer.id == id then Some(Bool(true))
    else
      var attr := FindAttr(id, layer.headers + layer.attrs);
      if attr.Some? then attr.value.value else None
  }

  function LookUp(id: string, layers: seq<Layer>): Variant
  {
    if layers == [] then Nil
    else
      var answer := Answer(id, layers[|layers| - 1]);
      if answer.Some? then answer.value else LookUp(id, layers[..|layers| - 1])
  }

  /** The topmost layer that says something about the id decides; without one the id is nil. */
  lemma {:induction false} TopmostDecides(id: string, layers: seq<Layer>, k: nat)
    requires k <= |layers| && forall j :: k <= j < |layers| ==> Answer(id, layers[j]).None?
    ensures k == 0 ==> LookUp(id, layers) == Nil
    ensures k > 0 && Answer(id, layers[k - 1]).Some? ==> LookUp(id, layers) == Answer(id, layers[k - 1]).value
    decreases |layers|
  {
    if k < |layers| { TopmostDecides(id, layers[..|layers| - 1], k); }
  }

  function FindAttr(id: string, attrs: seq<Attr>): Option<Attr>
  {
    if attrs == [] then None
    else if attrs[0].id == id then Some(attrs[0])
    else FindAttr(id, attrs[1..])
  }

  // Filter::test
  predicate Test(f: Floats, e: Expr, layers: seq<Layer>)
  {
    IsTruthy(Eval(f, e, layers))
  }

  // The searching loop of the Token case.
  method FindToken(id: string, layers: seq<Layer>) returns (v: Variant)
    ensures v == LookUp(id, layers)
  {
    var k := |layers|;
    assert layers[..k] == layers;
    while k > 0
      invariant 0 <= k <= |layers|
      invariant LookUp(id, layers[..k]) == LookUp(id, layers)
    {
      k := k - 1;
      assert layers[..k + 1][..k] == layers[..k];
      if layers[k].id == id {
        return Bool(true);
      }
      var attr := FindAttr(id, layers[k].headers + layers[k].attrs);
      if attr.Some? && attr.value.value.Some? {
        return attr.value.value.value;
      }
    }
    v := Nil;
  }
}
