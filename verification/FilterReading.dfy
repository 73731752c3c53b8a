// What filter texts mean, symbol by symbol: which operator a symbol is, and how tight it binds.
module FilterReading {
  import opened Base
  import opened Frames
  import opened Numerals
  import opened Variants
  import opened Integers
  import opened FilterAst
  import opened FilterSyntax
  import opened FilterParser
  import opened Unparser
  import opened FilterText
  import opened FilterRoundTrip
  import opened FilterMeaning
  import FilterSelfMatch
  import FilterGroups
  import Json

  predicate AreMembers(a: string, b: string, c: string)
  {
    IsMember(a) && IsMember(b) && IsMember(c)
  }

  // ---- One operator

  lemma OneOperatorIsRead(lib: Library, op: BinaryOp, symbol: string, a: string, b: string)
    requires IsMember(a) && IsMember(b) && Spaced(op, symbol)
    ensures Parse(lib, a + symbol + b) == Parsed(Binary(op, Token(a), Token(b)))
  {
    BinaryText(lib, op, symbol, Token(a), Token(b), a, b);
    NormalRoundTrip(lib, Binary(op, Token(a), Token(b)));
  }

  lemma BinaryText(lib: Library, op: BinaryOp, symbol: string, l: Expr, r: Expr, left: string, right: string)
    requires Spaced(op, symbol) && Fold(op, l, r).None? && left == Unparse(lib, l) && right == Unparse(lib, r)
    ensures Unparse(lib, Binary(op, l, r)) == left + symbol + right
  {
    BlanksAround(left, OpText(op), right);
  }

  lemma BlanksAround(a: string, s: string, b: string)
    ensures a + " " + s + " " + b == a + (" " + s + " ") + b
  {
  }

  // A symbol with blanks around it.
  predicate Spaced(op: BinaryOp, s: string)
  {
    s == " " + OpText(op) + " "
  }

  lemma OnePrefixIsRead(lib: Library, op: UnaryOp, symbol: string, a: string)
    requires IsMember(a) && symbol == UnaryText(op)
    ensures Parse(lib, symbol + a) == Parsed(Unary(op, Token(a)))
  {
    NormalRoundTrip(lib, Unary(op, Token(a)));
  }

  /** Each symbol of a comparison is read as its operator. */
  lemma ComparisonsAreRead(lib: Library, a: string, b: string)
    requires IsMember(a) && IsMember(b)
    ensures Parse(lib, a + " < " + b) == Parsed(Binary(Lt, Token(a), Token(b)))
    ensures Parse(lib, a + " > " + b) == Parsed(Binary(Gt, Token(a), Token(b)))
    ensures Parse(lib, a + " <= " + b) == Parsed(Binary(Lte, Token(a), Token(b)))
    ensures Parse(lib, a + " >= " + b) == Parsed(Binary(Gte, Token(a), Token(b)))
  {
    OneOperatorIsRead(lib, Lt, " < ", a, b);
    OneOperatorIsRead(lib, Gt, " > ", a, b);
    OneOperatorIsRead(lib, Lte, " <= ", a, b);
    OneOperatorIsRead(lib, Gte, " >= ", a, b);
  }

  /** So is each of the other symbols. */
  lemma SymbolsAreRead(lib: Library, a: string, b: string)
    requires IsMember(a) && IsMember(b)
    ensures Parse(lib, a + " == " + b) == Parsed(Binary(Eq, Token(a), Token(b)))
    ensures Parse(lib, a + " != " + b) == Parsed(Binary(Ne, Token(a), Token(b)))
    ensures Parse(lib, a + " && " + b) == Parsed(Binary(And, Token(a), Token(b)))
    ensures Parse(lib, a + " || " + b) == Parsed(Binary(Or, Token(a), Token(b)))
  {
    OneOperatorIsRead(lib, Eq, " == ", a, b);
    OneOperatorIsRead(lib, Ne, " != ", a, b);
    OneOperatorIsRead(lib, And, " && ", a, b);
    OneOperatorIsRead(lib, Or, " || ", a, b);
  }

  /** Each prefix is read as its operator. */
  lemma PrefixesAreRead(lib: Library, a: string)
    requires IsMember(a)
    ensures Parse(lib, "!" + a) == Parsed(Unary(Not, Token(a)))
    ensures Parse(lib, "-" + a) == Parsed(Unary(Minus, Token(a)))
    ensures Parse(lib, "+" + a) == Parsed(Unary(Plus, Token(a)))
  {
    OnePrefixIsRead(lib, Not, "!", a);
    OnePrefixIsRead(lib, Minus, "-", a);
    OnePrefixIsRead(lib, Plus, "+", a);
  }

  lemma OneWordIsRead(lib: Library, v: Variant, word: string)
    requires (v.Nil? || v.Bool?) && word == ToText(lib, v)
    ensures Parse(lib, word) == Parsed(Literal(v))
  {
    NormalRoundTrip(lib, Literal(v));
  }

  /** Each keyword is read as its value, and an id as itself. */
  lemma WordsAreRead(lib: Library, id: string)
    requires IsMember(id)
    ensures Parse(lib, "nil") == Parsed(Literal(Nil))
    ensures Parse(lib, "true") == Parsed(Literal(Bool(true)))
    ensures Parse(lib, "false") == Parsed(Literal(Bool(false)))
    ensures Parse(lib, id) == Parsed(Token(id))
  {
    OneWordIsRead(lib, Nil, "nil");
    OneWordIsRead(lib, Bool(true), "true");
    OneWordIsRead(lib, Bool(false), "false");
    NormalRoundTrip(lib, Token(id));
  }

  // ---- Two operators

  // How three operands with two operators between them are read: the first two together, or the last two.
  predicate LeftFirst(lib: Library, p: BinaryOp, s: string, q: BinaryOp, t: string, a: string, b: string, c: string)
  {
    Parse(lib, a + s + b + t + c) == Parsed(Binary(q, Binary(p, Token(a), Token(b)), Token(c)))
  }

  predicate RightFirst(lib: Library, p: BinaryOp, s: string, q: BinaryOp, t: string, a: string, b: string, c: string)
  {
    Parse(lib, a + s + b + t + c) == Parsed(Binary(p, Token(a), Binary(q, Token(b), Token(c))))
  }

  lemma ThreeTexts(a: string, s: string, b: string, t: string, c: string)
    ensures a + s + (b + t + c) == a + s + b + t + c
  {
  }

  lemma LeftText(lib: Library, p: BinaryOp, s: string, q: BinaryOp, t: string, a: string, b: string, c: string)
    requires Spaced(p, s) && Spaced(q, t)
    ensures Unparse(lib, Binary(q, Binary(p, Token(a), Token(b)), Token(c))) == a + s + b + t + c
  {
    BinaryText(lib, p, s, Token(a), Token(b), a, b);
    BinaryText(lib, q, t, Binary(p, Token(a), Token(b)), Token(c), a + s + b, c);
  }

  lemma RightText(lib: Library, p: BinaryOp, s: string, q: BinaryOp, t: string, a: string, b: string, c: string)
    requires Spaced(p, s) && Spaced(q, t)
    ensures Unparse(lib, Binary(p, Token(a), Binary(q, Token(b), Token(c)))) == a + s + b + t + c
  {
    BinaryText(lib, q, t, Token(b), Token(c), b, c);
    BinaryText(lib, p, s, Token(a), Binary(q, Token(b), Token(c)), a, b + t + c);
    ThreeTexts(a, s, b, t, c);
  }

  lemma TighterLeft(lib: Library, p: BinaryOp, s: string, q: BinaryOp, t: string, a: string, b: string, c: string)
    requires AreMembers(a, b, c) && Spaced(p, s) && Spaced(q, t) && Prec(p) >= Prec(q)
    ensures LeftFirst(lib, p, s, q, t, a, b, c)
  {
    LeftText(lib, p, s, q, t, a, b, c);
    NormalRoundTrip(lib, Binary(q, Binary(p, Token(a), Token(b)), Token(c)));
  }

  lemma TighterRight(lib: Library, p: BinaryOp, s: string, q: BinaryOp, t: string, a: string, b: string, c: string)
    requires AreMembers(a, b, c) && Spaced(p, s) && Spaced(q, t) && Prec(p) < Prec(q)
    ensures RightFirst(lib, p, s, q, t, a, b, c)
  {
    RightText(lib, p, s, q, t, a, b, c);
    NormalRoundTrip(lib, Binary(p, Token(a), Binary(q, Token(b), Token(c))));
  }

  // The symbol s of p binds tighter than the symbol t of q, whichever comes first.
  ghost predicate Tighter(lib: Library, p: BinaryOp, s: string, q: BinaryOp, t: string, a: string, b: string, c: string)
  {
    LeftFirst(lib, p, s, q, t, a, b, c) && RightFirst(lib, q, t, p, s, a, b, c)
  }

  lemma BindsTighter(lib: Library, p: BinaryOp, s: string, q: BinaryOp, t: string, a: string, b: string, c: string)
    requires AreMembers(a, b, c) && Spaced(p, s) && Spaced(q, t) && Prec(p) > Prec(q)
    ensures Tighter(lib, p, s, q, t, a, b, c)
  {
    TighterLeft(lib, p, s, q, t, a, b, c);
    TighterRight(lib, q, t, p, s, a, b, c);
  }

  // Neither binds tighter.
  ghost predicate SameLevel(lib: Library, p: BinaryOp, s: string, q: BinaryOp, t: string, a: string, b: string, c: string)
  {
    LeftFirst(lib, p, s, q, t, a, b, c) && LeftFirst(lib, q, t, p, s, a, b, c)
  }

  lemma BindsAlike(lib: Library, p: BinaryOp, s: string, q: BinaryOp, t: string, a: string, b: string, c: string)
    requires AreMembers(a, b, c) && Spaced(p, s) && Spaced(q, t) && Prec(p) == Prec(q)
    ensures SameLevel(lib, p, s, q, t, a, b, c)
  {
    TighterLeft(lib, p, s, q, t, a, b, c);
    TighterLeft(lib, q, t, p, s, a, b, c);
  }

  /** || binds tighter than &&, and that tighter than == with !=. */
  lemma LevelsAreRead(lib: Library, a: string, b: string, c: string)
    requires AreMembers(a, b, c)
    ensures Tighter(lib, Or, " || ", And, " && ", a, b, c)
    ensures Tighter(lib, And, " && ", Eq, " == ", a, b, c)
  {
    BindsTighter(lib, Or, " || ", And, " && ", a, b, c);
    BindsTighter(lib, And, " && ", Eq, " == ", a, b, c);
  }

  /** The order comparisons bind loosest, looser than == too. */
  lemma ComparisonsAreLoosest(lib: Library, a: string, b: string, c: string)
    requires AreMembers(a, b, c)
    ensures Tighter(lib, Eq, " == ", Lt, " < ", a, b, c)
  {
    BindsTighter(lib, Eq, " == ", Lt, " < ", a, b, c);
  }

  /** Operators of one level are read from the left. */
  lemma SameLevelIsReadFromLeft(lib: Library, a: string, b: string, c: string)
    requires AreMembers(a, b, c)
    ensures SameLevel(lib, Or, " || ", Or, " || ", a, b, c)
    ensures SameLevel(lib, And, " && ", And, " && ", a, b, c)
    ensures SameLevel(lib, Eq, " == ", Ne, " != ", a, b, c)
  {
    BindsAlike(lib, Or, " || ", Or, " || ", a, b, c);
    BindsAlike(lib, And, " && ", And, " && ", a, b, c);
    BindsAlike(lib, Eq, " == ", Ne, " != ", a, b, c);
  }

  /** The order comparisons are one level. */
  lemma ComparisonsAreOneLevel(lib: Library, a: string, b: string, c: string)
    requires AreMembers(a, b, c)
    ensures SameLevel(lib, Lt, " < ", Lte, " <= ", a, b, c)
    ensures SameLevel(lib, Lt, " < ", Gt, " > ", a, b, c)
  {
    BindsAlike(lib, Lt, " < ", Lte, " <= ", a, b, c);
    BindsAlike(lib, Lt, " < ", Gt, " > ", a, b, c);
  }

  lemma AtLeastIsOfThatLevel(lib: Library, a: string, b: string, c: string)
    requires AreMembers(a, b, c)
    ensures SameLevel(lib, Lt, " < ", Gte, " >= ", a, b, c)
  {
    BindsAlike(lib, Lt, " < ", Gte, " >= ", a, b, c);
  }

  // ---- Operands

  // A name without dots, which does not begin like a keyword.
  predicate IsName(s: string)
  {
    && s != [] && (IsAlpha(s[0]) || s[0] == '_') && AllIn(s, Name)
    && !StartsWith(s, "nil") && !StartsWith(s, "true") && !StartsWith(s, "false")
  }

  lemma NameIsIdentifier(s: string, rest: string)
    requires IsName(s) && (rest == [] || !IsIn(rest[0], Name))
    ensures IdentifierLen(s + rest) == |s|
  {
    assert (s + rest)[1..] == s[1..] + rest;
    RunStops(Name, s[1..], rest);
  }

  /** A name is a member. */
  lemma NameIsMember(s: string)
    requires IsName(s)
    ensures IsMember(s)
  {
    NameIsIdentifier(s, []);
    assert s + [] == s;
  }

  /** So is a name, a dot and a member. */
  lemma DottedIsMember(s: string, id: string)
    requires IsName(s) && IsMember(id)
    ensures IsMember(s + "." + id)
  {
    DottedLength(s, id);
    NoKeywordAhead(s, id, "nil");
    NoKeywordAhead(s, id, "true");
    NoKeywordAhead(s, id, "false");
  }

  lemma DottedLength(s: string, id: string)
    requires IsName(s) && IsMember(id)
    ensures MemberLen(s + "." + id) == |s + "." + id|
  {
    var all := s + "." + id;
    assert all == s + ("." + id);
    NameIsIdentifier(s, "." + id);
    assert all[|s|] == '.' && all[|s| + 1..] == id;
  }

  lemma NoKeywordAhead(s: string, id: string, word: string)
    requires IsName(s) && !StartsWith(s, word) && AllIn(word, Name)
    ensures KeywordLen(s + "." + id, word) == 0
  {
    var all := s + "." + id;
    if |word| <= |s| {
      assert all[..|word|] == s[..|word|];
    } else if |word| <= |all| {
      assert all[..|word|][|s|] == '.';
    }
  }

  /** A group makes one operand of what it holds. */
  lemma GroupsAreRead(lib: Library, a: string, b: string)
    requires IsMember(a) && IsMember(b)
    ensures Parse(lib, "!( " + a + " == " + b + " )") == Parsed(Unary(Not, Binary(Eq, Token(a), Token(b))))
  {
    var inner := Binary(Eq, Token(a), Token(b));
    FilterGroups.GroupedIsRead(lib, Unary(Not, inner));
    GroupText(lib, a, b);
  }

  lemma GroupText(lib: Library, a: string, b: string)
    ensures FilterGroups.Grouped(lib, Unary(Not, Binary(Eq, Token(a), Token(b)))) == "!( " + a + " == " + b + " )"
  {
    var inner := a + (" == " + b);
    assert " " + OpText(Eq) + " " + b == " == " + b;
    assert FilterGroups.Grouped(lib, Binary(Eq, Token(a), Token(b))) == "( " + inner + " )";
    assert "!" + ("( " + inner + " )") == "!( " + a + " == " + b + " )";
  }

  /** A text of plain characters between quotes is read as that text. */
  lemma PlainTextIsRead(lib: Library, text: string)
    requires forall i :: 0 <= i < |text| ==> Json.Plain(text[i])
    ensures Parse(lib, "\"" + text + "\"") == Parsed(Literal(String(text)))
  {
    Json.PlainIsWritten(text);
    NormalRoundTrip(lib, Literal(String(text)));
  }

  /** After an at sign, the library reads an address: as IPv4, else as IPv6, else as a hardware address. */
  lemma AddressesAreRead(lib: Library, text: string, b: Bytes)
    requires IsMacro(text)
    ensures lib.readIpv4(text) == Some(b) ==> Parse(lib, "@" + text) == Parsed(Literal(Buffer(b)))
    ensures lib.readIpv4(text).None? && lib.readIpv6(text) == Some(b) ==>
      Parse(lib, "@" + text) == Parsed(Literal(Buffer(b)))
    ensures lib.readIpv4(text).None? && lib.readIpv6(text).None? && lib.readMac(text) == Some(b) ==>
      Parse(lib, "@" + text) == Parsed(Literal(Buffer(b)))
  {
    PrintedIsReread(lib, Macro(text));
    var read := ReadLeaf(lib, Macro(text));
    assert Spine(lib, Macro(text)) == (read, []) && Climb(read, 0, []) == (read, []);
  }

  lemma HexPrimary(d: string)
    requires d != [] && AllIn(d, Hex)
    ensures MatchPrimary("0x" + d) == Match(Primary([], IntegerText(16, d)), [])
  {
    var s := "0x" + d;
    PrefixedLength("0x", Hex, d, []);
    assert s + [] == s && s[0] == '0' && s[1] == 'x';
    SecondIsNoDigit(s);
    NoKeyword(s);
    IntegerIsMatched(s, 16, 2, 2 + |d|, d, []);
    LiteralIsPrimary(s, IntegerText(16, d), []);
  }

  lemma HexIsConsumed(lib: Library, d: string)
    requires d != [] && AllIn(d, Hex)
    ensures Parse(lib, "0x" + d) == Parsed(ReadNumber(FromDigits(d, 16)))
  {
    HexPrimary(d);
    assert SkipBlanks("0x" + d) == "0x" + d;
    assert MatchItems([]) == Match([], []);
    OperandConsumes(lib, IntegerText(16, d), []);
    assert ConsumeItems(lib, []) == Some([]);
  }

  /** Hexadecimal digits may be written in upper case. */
  lemma UpperCaseHexIsRead(lib: Library, n: nat)
    ensures Parse(lib, "0x" + InUpperCase(Digits(n, 16))) == Parsed(ReadNumber(n))
  {
    var d := InUpperCase(Digits(n, 16));
    UpperCaseReads(Digits(n, 16), 16);
    DigitsRoundTrip(n, 16);
    forall i | 0 <= i < |d| ensures IsIn(d[i], Hex) { DigitClass(d[i]); }
    HexIsConsumed(lib, d);
  }

  // ---- Whole filters

  /** The name of a protocol is a filter for the frames that have such a layer, if no layer above says anything
      about the name. */
  lemma ProtocolIsFound(lib: Library, id: string, layers: seq<Layer>, k: nat)
    requires IsMember(id) && k < |layers| && layers[k].id == id
    requires forall j :: k < j < |layers| ==> Answer(id, layers[j]).None?
    ensures var o := Parse(lib, id); o.Parsed? && Test(lib.floats, o.expr, layers)
  {
    NormalRoundTrip(lib, Token(id));
    NameTests(lib.floats, id, layers, k, k + 1);
  }

  lemma NameTests(f: Floats, id: string, layers: seq<Layer>, k: nat, above: nat)
    requires k < |layers| && layers[k].id == id && above == k + 1
    requires forall j :: above <= j < |layers| ==> Answer(id, layers[j]).None?
    ensures Test(f, Token(id), layers)
  {
    TopmostDecides(id, layers, above);
  }

  // A filter text that compares an id with a number.
  ghost predicate Holds(lib: Library, text: string, layers: seq<Layer>, truth: bool)
  {
    var o := Parse(lib, text);
    o.Parsed? && (Test(lib.floats, o.expr, layers) <==> truth)
  }

  lemma NumberComparisonIsRead(lib: Library, op: BinaryOp, symbol: string, id: string, n: nat)
    requires IsMember(id) && Spaced(op, symbol) && n < TWO_64
    ensures Parse(lib, id + symbol + Digits(n, 10)) == Parsed(Binary(op, Token(id), Literal(UInt64(n))))
  {
    BinaryText(lib, op, symbol, Token(id), Literal(UInt64(n)), id, Digits(n, 10));
    NormalRoundTrip(lib, Binary(op, Token(id), Literal(UInt64(n))));
  }

  lemma NumberComparison(lib: Library, op: BinaryOp, symbol: string, id: string, n: nat, layers: seq<Layer>, truth: bool)
    requires IsMember(id) && Spaced(op, symbol) && n < TWO_64
    requires Test(lib.floats, Binary(op, Token(id), Literal(UInt64(n))), layers) <==> truth
    ensures Holds(lib, id + symbol + Digits(n, 10), layers, truth)
  {
    NumberComparisonIsRead(lib, op, symbol, id, n);
  }

  lemma NumberTests(lib: Library, id: string, n: nat, layers: seq<Layer>, m: int)
    requires n < TWO_64 && IsInteger(LookUp(id, layers)) && OrderIsSafe(LookUp(id, layers), UInt64(n))
    requires m == IntegerOf(LookUp(id, layers))
    ensures OrderedAs(lib.floats, Token(id), Literal(UInt64(n)), layers, m, n)
  {
    IntegersCompare(lib.floats, Token(id), Literal(UInt64(n)), layers);
  }

  /** A filter such as "udp.length < 100" holds on exactly the frames where the id's number is so, unless it is a
      negative Int64 that the number turns round. */
  lemma LessFilter(lib: Library, id: string, n: nat, layers: seq<Layer>)
    requires IsMember(id) && n < TWO_64 && IsInteger(LookUp(id, layers)) && OrderIsSafe(LookUp(id, layers), UInt64(n))
    ensures Holds(lib, id + " < " + Digits(n, 10), layers, IntegerOf(LookUp(id, layers)) < n)
  {
    var m := IntegerOf(LookUp(id, layers));
    NumberTests(lib, id, n, layers, m);
    NumberComparison(lib, Lt, " < ", id, n, layers, m < n);
  }

  /** So do those with the other order comparisons. */
  lemma GreaterFilter(lib: Library, id: string, n: nat, layers: seq<Layer>)
    requires IsMember(id) && n < TWO_64 && IsInteger(LookUp(id, layers)) && OrderIsSafe(LookUp(id, layers), UInt64(n))
    ensures Holds(lib, id + " > " + Digits(n, 10), layers, IntegerOf(LookUp(id, layers)) > n)
  {
    var m := IntegerOf(LookUp(id, layers));
    NumberTests(lib, id, n, layers, m);
    NumberComparison(lib, Gt, " > ", id, n, layers, m > n);
  }

  lemma AtMostFilter(lib: Library, id: string, n: nat, layers: seq<Layer>)
    requires IsMember(id) && n < TWO_64 && IsInteger(LookUp(id, layers)) && OrderIsSafe(LookUp(id, layers), UInt64(n))
    ensures Holds(lib, id + " <= " + Digits(n, 10), layers, IntegerOf(LookUp(id, layers)) <= n)
  {
    var m := IntegerOf(LookUp(id, layers));
    NumberTests(lib, id, n, layers, m);
    NumberComparison(lib, Lte, " <= ", id, n, layers, m <= n);
  }

  lemma AtLeastFilter(lib: Library, id: string, n: nat, layers: seq<Layer>)
    requires IsMember(id) && n < TWO_64 && IsInteger(LookUp(id, layers)) && OrderIsSafe(LookUp(id, layers), UInt64(n))
    ensures Holds(lib, id + " >= " + Digits(n, 10), layers, IntegerOf(LookUp(id, layers)) >= n)
  {
    var m := IntegerOf(LookUp(id, layers));
    NumberTests(lib, id, n, layers, m);
    NumberComparison(lib, Gte, " >= ", id, n, layers, m >= n);
  }

  /** The filter written for a text holds on exactly the frames where the id is that text. */
  lemma TextFilter(lib: Library, id: string, typ: string, text: string, layers: seq<Layer>)
    requires IsMember(id) && FilterSelfMatch.AddressLaws(lib)
    ensures Holds(lib, Unparse(lib, FilterSelfMatch.SelfFilter(lib, id, typ, String(text))), layers,
      LookUp(id, layers) == String(text))
  {
    FilterSelfMatch.SelfFilterSelects(lib, id, typ, String(text), layers);
    OnlyTheSame(lib.floats, LookUp(id, layers), text);
  }

  lemma OnlyTheSame(f: Floats, w: Variant, text: string)
    ensures OpEq(f, w, String(text)) <==> w == String(text)
  {
    if w.String? { CompareTextOrder(w.text, text); }
  }
}
