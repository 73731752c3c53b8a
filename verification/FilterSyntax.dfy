// The filter grammar (genet-filter/src/syntax.pest): ordered choice, greedy repetition, and blanks
// allowed between the parts of the non-atomic rules.
module FilterSyntax {
  import opened Base
  import opened Numerals
  import opened FilterAst

  datatype CharClass = Dec | Hex | Oct | Bin | Name | NonBlank

  predicate IsBlank(c: char) { c == ' ' || c == '\t' || c == '\r' || c == '\n' }

  predicate IsAlpha(c: char) { 'a' <= c <= 'z' || 'A' <= c <= 'Z' }

  predicate IsIn(c: char, class_: CharClass)
  {
    match class_
    case Dec => '0' <= c <= '9'
    case Hex => '0' <= c <= '9' || 'a' <= c <= 'f' || 'A' <= c <= 'F'
    case Oct => '0' <= c <= '7'
    case Bin => '0' <= c <= '1'
    case Name => IsAlpha(c) || '0' <= c <= '9' || c == '_'
    case NonBlank => !IsBlank(c)
  }

  // How many characters of the class the text begins with.
  function Run(class_: CharClass, s: string): (n: nat)
    ensures n <= |s|
  {
    if s != [] && IsIn(s[0], class_) then 1 + Run(class_, s[1..]) else 0
  }

  function SkipBlanks(s: string): (r: string)
    ensures |r| <= |s|
  {
    if s != [] && IsBlank(s[0]) then SkipBlanks(s[1..]) else s
  }

  predicate StartsWith(s: string, prefix: string)
  {
    |prefix| <= |s| && s[..|prefix|] == prefix
  }

  // ---- Atomic rules: the length of the match, 0 when there is none

  function MacroLen(s: string): (n: nat)
    ensures n <= |s|
  {
    if StartsWith(s, "@") && Run(NonBlank, s[1..]) > 0 then 1 + Run(NonBlank, s[1..]) else 0
  }

  function StringTokenLen(s: string): (n: nat)
    ensures n <= |s|
  {
    if s == [] || s[0] == '"' then 0
    else if s[0] != '\\' then 1
    else if |s| > 1 && s[1] in "\"\\/bfnrt" then 2
    else if |s| > 5 && s[1] == 'u' && forall i :: 2 <= i < 6 ==> IsIn(s[i], Hex) then 6
    else 0
  }

  function StringTokensLen(s: string): (n: nat)
    ensures n <= |s|
  {
    var n := StringTokenLen(s);
    if n == 0 then 0 else n + StringTokensLen(s[n..])
  }

  function StringLen(s: string): (n: nat)
    ensures n <= |s| && (n > 0 ==> n >= 2)
  {
    if StartsWith(s, "\"") then
      var n := 1 + StringTokensLen(s[1..]);
      if n < |s| && s[n] == '"' then n + 1 else 0
    else 0
  }

  function PrefixedLen(s: string, prefix: string, class_: CharClass): (n: nat)
    ensures n <= |s| && (n > 0 ==> n > |prefix|)
  {
    if StartsWith(s, prefix) && Run(class_, s[|prefix|..]) > 0 then |prefix| + Run(class_, s[|prefix|..]) else 0
  }

  function UnsignedFloatLen(s: string): (n: nat)
    ensures n <= |s|
  {
    var n := Run(Dec, s);
    if 0 < n < |s| && s[n] == '.' && Run(Dec, s[n + 1..]) > 0 then n + 1 + Run(Dec, s[n + 1..]) else 0
  }

  function FloatLen(s: string): (n: nat)
    ensures n <= |s|
  {
    if StartsWith(s, "-") then
      var n := UnsignedFloatLen(s[1..]);
      if n > 0 then n + 1 else 0
    else UnsignedFloatLen(s)
  }

  // A keyword is not followed by a letter, an underscore or a dot.
  function KeywordLen(s: string, keyword: string): (n: nat)
    ensures n <= |s| && (n > 0 ==> n == |keyword|)
  {
    var n := |keyword|;
    if StartsWith(s, keyword) && (n == |s| || !(IsAlpha(s[n]) || s[n] == '_' || s[n] == '.')) then n else 0
  }

  function IdentifierLen(s: string): (n: nat)
    ensures n <= |s|
  {
    if s != [] && (IsAlpha(s[0]) || s[0] == '_') then 1 + Run(Name, s[1..]) else 0
  }

  function MemberLen(s: string): (n: nat)
    ensures n <= |s|
  {
    var n := IdentifierLen(s);
    if 0 < n < |s| && s[n] == '.' && IdentifierLen(s[n + 1..]) > 0 then n + 1 + MemberLen(s[n + 1..]) else n
  }

  // ---- The parse tree

  datatype Operand =
    | Group(tree: Tree)
    | NilText
    | BoolText(text: string)
    | FloatText(text: string)
    | IntegerText(radix: nat, digits: string)
    | StringText(text: string)
    | MemberText(text: string)
    | MacroText(text: string)

  datatype Primary = Primary(ops: seq<UnaryOp>, operand: Operand)

  datatype Item = Item(op: BinaryOp, primary: Primary)

  datatype Tree = Tree(first: Primary, rest: seq<Item>)

  datatype Match<T> = NoMatch | Match(value: T, rest: string)

  // literal: nil | boolean | float | integer | string
  function MatchLiteral(s: string): (m: Match<Operand>)
    ensures m.Match? ==> |m.rest| < |s|
  {
    if KeywordLen(s, "nil") > 0 then Match(NilText, s[3..])
    else if KeywordLen(s, "true") > 0 then Match(BoolText("true"), s[4..])
    else if KeywordLen(s, "false") > 0 then Match(BoolText("false"), s[5..])
    else if FloatLen(s) > 0 then Match(FloatText(s[..FloatLen(s)]), s[FloatLen(s)..])
    else if PrefixedLen(s, "0x", Hex) > 0 then MatchInteger(s, 16, 2, PrefixedLen(s, "0x", Hex))
    else if PrefixedLen(s, "0o", Oct) > 0 then MatchInteger(s, 8, 2, PrefixedLen(s, "0o", Oct))
    else if PrefixedLen(s, "0b", Bin) > 0 then MatchInteger(s, 2, 2, PrefixedLen(s, "0b", Bin))
    else if PrefixedLen(s, "", Dec) > 0 then MatchInteger(s, 10, 0, PrefixedLen(s, "", Dec))
    else if StringLen(s) > 0 then Match(StringText(s[..StringLen(s)]), s[StringLen(s)..])
    else NoMatch
  }

  function MatchInteger(s: string, radix: nat, from: nat, to: nat): (m: Match<Operand>)
    requires from < to <= |s|
    ensures m.Match? && |m.rest| < |s|
  {
    Match(IntegerText(radix, s[from..to]), s[to..])
  }

  // unary_operand: ( expression ) | literal | member | macro
  function MatchOperand(s: string): (m: Match<Operand>)
    ensures m.Match? ==> |m.rest| < |s|
    decreases |s|, 1
  {
    var group := if StartsWith(s, "(") then MatchGroup(s) else NoMatch;
    if group.Match? then group
    else if MatchLiteral(s).Match? then MatchLiteral(s)
    else if MemberLen(s) > 0 then Match(MemberText(s[..MemberLen(s)]), s[MemberLen(s)..])
    else if MacroLen(s) > 0 then Match(MacroText(s[1..MacroLen(s)]), s[MacroLen(s)..])
    else NoMatch
  }

  function MatchGroup(s: string): (m: Match<Operand>)
    requires StartsWith(s, "(")
    ensures m.Match? ==> |m.rest| < |s|
    decreases |s|, 0
  {
    var e := MatchExpression(SkipBlanks(s[1..]));
    if e.Match? && StartsWith(SkipBlanks(e.rest), ")") then Match(Group(e.value), SkipBlanks(e.rest)[1..])
    else NoMatch
  }

  function MatchUnary(s: string): (m: Match<UnaryOp>)
    ensures m.Match? ==> |m.rest| < |s|
  {
    if StartsWith(s, "+") then Match(Plus, s[1..])
    else if StartsWith(s, "-") then Match(Minus, s[1..])
    else if StartsWith(s, "!") then Match(Not, s[1..])
    else NoMatch
  }

  // primary: unary* unary_operand
  function MatchPrimary(s: string): (m: Match<Primary>)
    ensures m.Match? ==> |m.rest| < |s|
    decreases |s|, 2
  {
    var u := MatchUnary(s);
    if u.Match? then
      var p := MatchPrimary(SkipBlanks(u.rest));
      if p.Match? then Match(Primary([u.value] + p.value.ops, p.value.operand), p.rest) else NoMatch
    else
      var o := MatchOperand(SkipBlanks(s));
      if o.Match? then Match(Primary([], o.value), o.rest) else NoMatch
  }

  function MatchInfix(s: string): (m: Match<BinaryOp>)
    ensures m.Match? ==> |m.rest| < |s|
  {
    if StartsWith(s, "==") then Match(Eq, s[2..])
    else if StartsWith(s, "!=") then Match(Ne, s[2..])
    else if StartsWith(s, "<=") then Match(Lte, s[2..])
    else if StartsWith(s, ">=") then Match(Gte, s[2..])
    else if StartsWith(s, "<") then Match(Lt, s[1..])
    else if StartsWith(s, ">") then Match(Gt, s[1..])
    else if StartsWith(s, "&&") then Match(And, s[2..])
    else if StartsWith(s, "||") then Match(Or, s[2..])
    else NoMatch
  }

  // One repetition: infix_operator primary
  function MatchItem(s: string): (m: Match<Item>)
    ensures m.Match? ==> |m.rest| < |s|
    decreases |s|, 0
  {
    var op := MatchInfix(SkipBlanks(s));
    if op.NoMatch? then NoMatch
    else
      var p := MatchPrimary(SkipBlanks(op.rest));
      if p.Match? then Match(Item(op.value, p.value), p.rest) else NoMatch
  }

  function MatchItems(s: string): (m: Match<seq<Item>>)
    ensures m.Match? && |m.rest| <= |s|
    decreases |s|, 1
  {
    var item := MatchItem(s);
    if item.NoMatch? then Match([], s)
    else
      var more := MatchItems(item.rest);
      Match([item.value] + more.value, more.rest)
  }

  // expression: primary (infix_operator primary)*
  function MatchExpression(s: string): (m: Match<Tree>)
    ensures m.Match? ==> |m.rest| < |s|
    decreases |s|, 3
  {
    var p := MatchPrimary(s);
    if p.NoMatch? then NoMatch
    else
      var items := MatchItems(p.rest);
      Match(Tree(p.value, items.value), items.rest)
  }

  // filter: the whole text
  function MatchFilter(s: string): Option<Tree>
  {
    var e := MatchExpression(SkipBlanks(s));
    if e.Match? && SkipBlanks(e.rest) == [] then Some(e.value) else None
  }
}
