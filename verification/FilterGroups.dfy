// Every expression over the parser's own atoms has a text: the one with a group around each binary operator.
module FilterGroups {
  import opened Base
  import opened FilterAst
  import opened FilterSyntax
  import opened FilterParser
  import opened Unparser
  import opened FilterText
  import opened FilterRoundTrip
  import FilterSelfMatch

  // Every leaf is an atom that the parser makes.
  predicate OverAtoms(lib: Library, e: Expr)
  {
    match e
    case Binary(_, l, r) => OverAtoms(lib, l) && OverAtoms(lib, r)
    case Unary(_, x) => OverAtoms(lib, x)
    case _ => IsAtom(lib, e)
  }

  function Grouped(lib: Library, e: Expr): string
  {
    match e
    case Binary(op, l, r) => "( " + (Grouped(lib, l) + (" " + OpText(op) + " " + Grouped(lib, r))) + " )"
    case Unary(op, x) => UnaryText(op) + Grouped(lib, x)
    case _ => Unparse(lib, e)
  }

  // The primary that the grammar reads.
  function AsPrimary(e: Expr): Primary
    requires Printable(e)
  {
    match e
    case Binary(op, l, r) => Primary([], Group(Tree(AsPrimary(l), [Item(op, AsPrimary(r))])))
    case Unary(op, x) => Primary([op] + AsPrimary(x).ops, AsPrimary(x).operand)
    case _ => Flat(e).first
  }

  lemma {:induction false} GroupedStarts(lib: Library, e: Expr)
    requires Printable(e)
    ensures Grouped(lib, e) != [] && !IsBlank(Grouped(lib, e)[0])
  {
    if IsLeaf(e) { StartsNonBlank(lib, e); }
  }

  // No operator begins with a closing bracket.
  lemma NoItemAtClose(rest: string)
    ensures MatchItems(" )" + rest) == Match([], " )" + rest)
    ensures SkipBlanks(" )" + rest) == ")" + rest
  {
    var s := ")" + rest;
    assert " )" + rest == " " + s;
    OneBlankSkipped(s);
    assert s[..1] == ")";
    if |s| >= 2 { assert s[..2][0] == ')'; }
    assert MatchInfix(s).NoMatch?;
  }

  // The inside of a group, up to the blank before its end.
  lemma InnerMatches(lib: Library, op: BinaryOp, l: Primary, left: string, r: Primary, right: string, rest: string)
    requires right != [] && !IsBlank(right[0])
    requires var tail := " )" + rest;
      && MatchPrimary(right + tail) == Match(r, tail)
      && MatchPrimary(left + (" " + OpText(op) + " " + (right + tail))) == Match(l, " " + OpText(op) + " " + (right + tail))
    ensures var tail := " )" + rest;
      MatchExpression(left + (" " + OpText(op) + " " + (right + tail))) == Match(Tree(l, [Item(op, r)]), tail)
  {
    var tail := " )" + rest;
    ItemMatches(op, right + tail, r, tail);
    NoItemAtClose(rest);
    assert [Item(op, r)] + [] == [Item(op, r)];
  }

  // The group from its bracket to its bracket.
  lemma GroupIsMatched(s: string, tree: Tree, rest: string)
    requires s != [] && !IsBlank(s[0]) && MatchExpression(s) == Match(tree, " )" + rest)
    ensures StartsWith("( " + s, "(") && MatchGroup("( " + s) == Match(Group(tree), rest)
  {
    var all := "( " + s;
    assert all[..1] == "(" && all[1..] == " " + s;
    OneBlankSkipped(s);
    NoItemAtClose(rest);
    assert (")" + rest)[1..] == rest && (")" + rest)[..1] == ")";
  }

  lemma GroupIsOperand(all: string, o: Operand, rest: string)
    requires StartsWith(all, "(") && MatchGroup(all) == Match(o, rest)
    ensures MatchPrimary(all) == Match(Primary([], o), rest)
  {
    assert all[0] == '(' by { assert all[..1][0] == all[0]; }
    assert all[..1] == [all[0]];
    assert MatchUnary(all).NoMatch?;
    assert SkipBlanks(all) == all;
    assert MatchOperand(all) == Match(o, rest);
  }

  lemma GroupCloses(s: string, tree: Tree, rest: string)
    requires s != [] && !IsBlank(s[0]) && MatchExpression(s) == Match(tree, " )" + rest)
    ensures MatchPrimary("( " + s) == Match(Primary([], Group(tree)), rest)
  {
    GroupIsMatched(s, tree, rest);
    GroupIsOperand("( " + s, Group(tree), rest);
  }

  lemma GroupJoins(left: string, mid: string, right: string, rest: string)
    ensures ("( " + (left + (mid + right)) + " )") + rest == "( " + (left + (mid + (right + (" )" + rest))))
  {
  }

  lemma {:induction false} GroupedMatches(lib: Library, e: Expr, rest: string)
    requires Printable(e) && Ends(rest)
    ensures MatchPrimary(Grouped(lib, e) + rest) == Match(AsPrimary(e), rest)
  {
    match e
    case Unary(op, x) =>
      GroupedMatches(lib, x, rest);
      GroupedStarts(lib, x);
      TextAssociates(UnaryText(op), Grouped(lib, x), rest);
      UnaryIsPrimary(op, Grouped(lib, x) + rest);
    case Binary(op, l, r) =>
      var tail := " )" + rest;
      var mid := " " + OpText(op) + " ";
      var right := Grouped(lib, r) + tail;
      GroupedMatches(lib, r, tail);
      GroupedMatches(lib, l, mid + right);
      GroupedStarts(lib, r);
      GroupedStarts(lib, l);
      InnerMatches(lib, op, AsPrimary(l), Grouped(lib, l), AsPrimary(r), Grouped(lib, r), rest);
      GroupCloses(Grouped(lib, l) + (mid + right), Tree(AsPrimary(l), [Item(op, AsPrimary(r))]), rest);
      GroupJoins(Grouped(lib, l), mid, Grouped(lib, r), rest);
    case _ => LeafMatches(lib, e, rest);
  }

  lemma {:induction false} GroupedConsumes(lib: Library, e: Expr)
    requires Printable(e) && OverAtoms(lib, e)
    ensures ConsumePrimary(lib, AsPrimary(e)) == Some(e)
  {
    match e
    case Unary(op, x) =>
      GroupedConsumes(lib, x);
      assert ([op] + AsPrimary(x).ops)[1..] == AsPrimary(x).ops;
    case Binary(op, l, r) =>
      GroupedConsumes(lib, l);
      GroupedConsumes(lib, r);
      OneItem(lib, op, AsPrimary(r));
      FilterSelfMatch.OneClimb(l, op, r);
      var tree := Tree(AsPrimary(l), [Item(op, AsPrimary(r))]);
      assert ConsumeExpr(lib, tree) == Some(e);
      OperandConsumes(lib, Group(tree), []);
    case _ =>
      AtomConsumes(lib, e);
      AtomIsReread(lib, e);
  }

  /** Written with groups, every expression over the parser's atoms is read back, whatever its shape. */
  lemma GroupedIsRead(lib: Library, e: Expr)
    requires Printable(e) && OverAtoms(lib, e)
    ensures Parse(lib, Grouped(lib, e)) == Parsed(e)
  {
    GroupedMatches(lib, e, []);
    GroupedConsumes(lib, e);
    GroupedStarts(lib, e);
    assert Grouped(lib, e) + [] == Grouped(lib, e);
    assert MatchItems([]) == Match([], []);
    assert ConsumeItems(lib, []) == Some([]);
  }
}
