// The grammar reads printed expressions: the parse tree of printed text is the expression written flat.
module FilterText {
  import opened Base
  import opened Frames
  import opened Numerals
  import opened Variants
  import opened FilterAst
  import opened FilterSyntax
  import opened FilterParser
  import opened Unparser
  import Json

  // An id that the grammar reads as a member.
  predicate IsMember(id: string)
  {
    && id != [] && MemberLen(id) == |id|
    && KeywordLen(id, "nil") == 0 && KeywordLen(id, "true") == 0 && KeywordLen(id, "false") == 0
  }

  predicate IsMacro(text: string)
  {
    text != [] && Run(NonBlank, text) == |text|
  }

  // No floats, members for ids and blank-free macros.
  predicate Printable(e: Expr)
  {
    match e
    case Literal(v) => !v.Float64? && InRange(v)
    case Token(id) => IsMember(id)
    case Macro(text) => IsMacro(text)
    case Binary(_, l, r) => Printable(l) && Printable(r)
    case Unary(_, x) => Printable(x)
  }

  // ---- The expression written flat

  function LiteralOperand(v: Variant): Operand
    requires !v.Float64?
  {
    match v
    case Nil => NilText
    case Bool(b) => BoolText(if b then "true" else "false")
    case Int64(i) => IntegerText(10, Digits(if i < 0 then -i else i, 10))
    case UInt64(u) => IntegerText(10, Digits(u, 10))
    case String(s) => StringText(Json.Write(s))
    case BigInt(b) => IntegerText(16, Digits(Magnitude(b), 16))
    case Buffer(b) => IntegerText(16, Digits(Magnitude(b), 16))
    case Slice(b) => IntegerText(16, Digits(Magnitude(b), 16))
  }

  function LiteralPrimary(v: Variant): Primary
    requires !v.Float64?
  {
    Primary(if v.Int64? && v.i < 0 then [Minus] else [], LiteralOperand(v))
  }

  function Flat(e: Expr): Tree
    requires Printable(e)
    decreases Size(e)
  {
    match e
    case Literal(v) => Tree(LiteralPrimary(v), [])
    case Token(id) => Tree(Primary([], MemberText(id)), [])
    case Macro(text) => Tree(Primary([], MacroText(text)), [])
    case Unary(op, x) =>
      var t := Flat(x);
      Tree(Primary([op] + t.first.ops, t.first.operand), t.rest)
    case Binary(op, l, r) =>
      if Fold(op, l, r).Some? then Flat(Fold(op, l, r).value)
      else Tree(Flat(l).first, Flat(l).rest + [Item(op, Flat(r).first)] + Flat(r).rest)
  }

  // ---- Lexing

  // What follows a printed primary: the end or a blank.
  predicate Ends(rest: string)
  {
    rest == [] || rest[0] == ' '
  }

  predicate AllIn(s: string, class_: CharClass)
  {
    forall i :: 0 <= i < |s| ==> IsIn(s[i], class_)
  }

  // A run stops at the first character outside the class.
  lemma {:induction false} RunStops(class_: CharClass, s: string, rest: string)
    requires AllIn(s, class_)
    requires rest == [] || !IsIn(rest[0], class_)
    ensures Run(class_, s + rest) == |s|
  {
    if s == [] {
      assert s + rest == rest;
    } else {
      RunStops(class_, s[1..], rest);
      assert (s + rest)[1..] == s[1..] + rest;
    }
  }

  lemma DigitClass(c: char)
    ensures IsDigit(c, 10) == IsIn(c, Dec)
    ensures IsDigit(c, 16) == IsIn(c, Hex)
  {
  }

  lemma DecRun(n: nat, rest: string)
    requires rest == [] || !IsIn(rest[0], Dec)
    ensures Run(Dec, Digits(n, 10) + rest) == |Digits(n, 10)|
  {
    var s := Digits(n, 10);
    forall i | 0 <= i < |s| ensures IsIn(s[i], Dec) { DigitClass(s[i]); }
    RunStops(Dec, s, rest);
  }

  lemma HexRun(n: nat, rest: string)
    requires Ends(rest)
    ensures Run(Hex, Digits(n, 16) + rest) == |Digits(n, 16)|
  {
    var s := Digits(n, 16);
    forall i | 0 <= i < |s| ensures IsIn(s[i], Hex) { DigitClass(s[i]); }
    RunStops(Hex, s, rest);
  }

  // No keyword starts where the first letter is another one.
  lemma NoKeyword(s: string)
    requires s != [] && !IsAlpha(s[0])
    ensures KeywordLen(s, "nil") == 0 && KeywordLen(s, "true") == 0 && KeywordLen(s, "false") == 0
  {
  }

  lemma NoNumber(s: string)
    requires s != [] && !IsIn(s[0], Dec) && s[0] != '-'
    ensures FloatLen(s) == 0
    ensures PrefixedLen(s, "0x", Hex) == 0 && PrefixedLen(s, "0o", Oct) == 0 && PrefixedLen(s, "0b", Bin) == 0
    ensures PrefixedLen(s, "", Dec) == 0
  {
    assert s[0..] == s;
    if |s| >= 2 { assert s[..2][0] == s[0]; }
  }

  lemma NilMatches(rest: string)
    requires Ends(rest)
    ensures MatchLiteral("nil" + rest) == Match(NilText, rest)
  {
    var s := "nil" + rest;
    assert s[..3] == "nil" && s[3..] == rest;
  }

  lemma KeywordIsRead(word: string, rest: string)
    requires word != [] && Ends(rest)
    ensures var s := word + rest; KeywordLen(s, word) == |word| && s[|word|..] == rest && s[0] == word[0]
  {
    var s := word + rest;
    assert s[..|word|] == word && s[|word|..] == rest;
  }

  lemma OtherKeyword(s: string, word: string)
    requires s != [] && word != [] && s[0] != word[0]
    ensures KeywordLen(s, word) == 0
  {
    if |s| >= |word| { assert s[..|word|][0] == s[0]; }
  }

  lemma TrueMatches(rest: string)
    requires Ends(rest)
    ensures MatchLiteral("true" + rest) == Match(BoolText("true"), rest)
  {
    KeywordIsRead("true", rest);
    OtherKeyword("true" + rest, "nil");
  }

  lemma FalseMatches(rest: string)
    requires Ends(rest)
    ensures MatchLiteral("false" + rest) == Match(BoolText("false"), rest)
  {
    KeywordIsRead("false", rest);
    OtherKeyword("false" + rest, "nil");
    OtherKeyword("false" + rest, "true");
  }

  lemma BoolMatches(b: bool, rest: string)
    requires Ends(rest)
    ensures var text := if b then "true" else "false"; MatchLiteral(text + rest) == Match(BoolText(text), rest)
  {
    if b { TrueMatches(rest); } else { FalseMatches(rest); }
  }

  lemma DecimalIsNoFloat(n: nat, rest: string)
    requires Ends(rest)
    ensures FloatLen(Digits(n, 10) + rest) == 0
  {
    var d := Digits(n, 10);
    var s := d + rest;
    DecRun(n, rest);
    DigitClass(d[0]);
    assert s[0] == d[0];
    assert |d| < |s| ==> s[|d|] == rest[0];
  }

  lemma DecimalHasNoPrefix(n: nat, rest: string)
    requires Ends(rest)
    ensures var s := Digits(n, 10) + rest;
      !StartsWith(s, "0x") && !StartsWith(s, "0o") && !StartsWith(s, "0b")
  {
    var d := Digits(n, 10);
    var s := d + rest;
    if |s| >= 2 {
      assert s[..2][1] == s[1];
      if |d| >= 2 { DigitClass(d[1]); assert s[1] == d[1]; } else { assert s[1] == rest[0]; }
    }
  }

  lemma DecimalMatches(n: nat, rest: string)
    requires Ends(rest)
    ensures MatchLiteral(Digits(n, 10) + rest) == Match(IntegerText(10, Digits(n, 10)), rest)
  {
    var d := Digits(n, 10);
    var s := d + rest;
    DigitClass(d[0]);
    assert s[0] == d[0];
    NoKeyword(s);
    DecimalIsNoFloat(n, rest);
    DecimalHasNoPrefix(n, rest);
    assert PrefixedLen(s, "", Dec) == |d| by {
      DecRun(n, rest);
      assert s[0..] == s;
    }
    IntegerIsMatched(s, 10, 0, |d|, d, rest);
  }

  lemma IntegerIsMatched(s: string, radix: nat, from: nat, to: nat, d: string, rest: string)
    requires from < to <= |s| && s[from..to] == d && s[to..] == rest
    ensures MatchInteger(s, radix, from, to) == Match(IntegerText(radix, d), rest)
  {
  }

  lemma HexIsPrefixed(n: nat, rest: string)
    requires Ends(rest)
    ensures PrefixedLen("0x" + Digits(n, 16) + rest, "0x", Hex) == 2 + |Digits(n, 16)|
  {
    var s := "0x" + Digits(n, 16) + rest;
    HexRun(n, rest);
    assert s[..2] == "0x" && s[2..] == Digits(n, 16) + rest;
  }

  lemma HexMatches(n: nat, rest: string)
    requires Ends(rest)
    ensures MatchLiteral("0x" + Digits(n, 16) + rest) == Match(IntegerText(16, Digits(n, 16)), rest)
  {
    var d := Digits(n, 16);
    var s := "0x" + d + rest;
    HexIsPrefixed(n, rest);
    assert s[0] == '0' && s[1] == 'x';
    SecondIsNoDigit(s);
    NoKeyword(s);
    IntegerIsMatched(s, 16, 2, 2 + |d|, d, rest);
  }

  lemma SecondIsNoDigit(s: string)
    requires |s| >= 2 && s[0] == '0' && !IsIn(s[1], Dec) && s[1] != '.'
    ensures FloatLen(s) == 0
  {
    assert Run(Dec, s[1..]) == 0;
    assert Run(Dec, s) == 1;
  }

  lemma PrefixedLength(prefix: string, class_: CharClass, d: string, rest: string)
    requires |prefix| == 2 && d != [] && AllIn(d, class_) && (rest == [] || !IsIn(rest[0], class_))
    ensures PrefixedLen(prefix + d + rest, prefix, class_) == 2 + |d|
  {
    var s := prefix + d + rest;
    assert s[..2] == prefix && s[2..] == d + rest;
    RunStops(class_, d, rest);
  }

  lemma OctMatches(n: nat, rest: string)
    requires Ends(rest)
    ensures MatchLiteral("0o" + Digits(n, 8) + rest) == Match(IntegerText(8, Digits(n, 8)), rest)
  {
    var d := Digits(n, 8);
    var s := "0o" + d + rest;
    PrefixedLength("0o", Oct, d, rest);
    assert s[0] == '0' && s[1] == 'o';
    StartsWithTwo(s, '0', 'x');
    NoKeyword(s);
    SecondIsNoDigit(s);
    IntegerIsMatched(s, 8, 2, 2 + |d|, d, rest);
  }

  lemma BinMatches(n: nat, rest: string)
    requires Ends(rest)
    ensures MatchLiteral("0b" + Digits(n, 2) + rest) == Match(IntegerText(2, Digits(n, 2)), rest)
  {
    var d := Digits(n, 2);
    var s := "0b" + d + rest;
    PrefixedLength("0b", Bin, d, rest);
    assert s[0] == '0' && s[1] == 'b';
    StartsWithTwo(s, '0', 'x');
    StartsWithTwo(s, '0', 'o');
    NoKeyword(s);
    SecondIsNoDigit(s);
    IntegerIsMatched(s, 2, 2, 2 + |d|, d, rest);
  }

  lemma TokenIsWritten(c: char, tail: string)
    ensures StringTokenLen(Json.WriteChar(c) + tail) == |Json.WriteChar(c)|
  {
    var s := Json.WriteChar(c) + tail;
    if Json.ShortEscape(c).Some? {
      assert s[1] == Json.ShortEscape(c).value;
    } else if c as int < 0x20 {
      var h, l := DigitChar(c as int / 16), DigitChar(c as int % 16);
      assert s[..6] == "\\u00" + [h, l];
      DigitClass(h);
      DigitClass(l);
      assert s[1] == 'u' && s[2] == '0' && s[3] == '0' && s[4] == h && s[5] == l;
    } else {
      assert s[0] == c;
    }
  }

  lemma {:induction false} TokensAreWritten(t: string, rest: string)
    ensures StringTokensLen(Json.WriteBody(t) + "\"" + rest) == |Json.WriteBody(t)|
  {
    if t == [] {
      assert Json.WriteBody(t) + "\"" + rest == "\"" + rest;
    } else {
      var c, more := Json.WriteChar(t[0]), Json.WriteBody(t[1..]) + "\"" + rest;
      assert Json.WriteBody(t) + "\"" + rest == c + more;
      TokenIsWritten(t[0], more);
      assert (c + more)[|c|..] == more;
      TokensAreWritten(t[1..], rest);
    }
  }

  lemma StringIsWritten(t: string, rest: string)
    ensures StringLen(Json.Write(t) + rest) == |Json.Write(t)|
  {
    var s := Json.Write(t) + rest;
    assert s[..1] == "\"";
    assert s[1..] == Json.WriteBody(t) + "\"" + rest;
    TokensAreWritten(t, rest);
  }

  lemma StringMatches(t: string, rest: string)
    ensures MatchLiteral(Json.Write(t) + rest) == Match(StringText(Json.Write(t)), rest)
  {
    var s := Json.Write(t) + rest;
    assert s[0] == '"';
    NoKeyword(s);
    NoNumber(s);
    StringIsWritten(t, rest);
    assert s[..|Json.Write(t)|] == Json.Write(t) && s[|Json.Write(t)|..] == rest;
  }

  // ---- Members and macros

  lemma {:induction false} RunContinues(class_: CharClass, s: string, rest: string)
    requires rest == [] || !IsIn(rest[0], class_)
    ensures Run(class_, s + rest) == Run(class_, s)
  {
    if s == [] {
      assert s + rest == rest;
    } else {
      RunContinues(class_, s[1..], rest);
      assert (s + rest)[1..] == s[1..] + rest;
    }
  }

  lemma IdentifierContinues(s: string, rest: string)
    requires Ends(rest)
    ensures IdentifierLen(s + rest) == IdentifierLen(s)
  {
    if s == [] {
      assert s + rest == rest;
    } else {
      RunContinues(Name, s[1..], rest);
      assert (s + rest)[1..] == s[1..] + rest;
    }
  }

  lemma {:induction false} MemberContinues(s: string, rest: string)
    requires Ends(rest)
    ensures MemberLen(s + rest) == MemberLen(s)
    decreases |s|
  {
    IdentifierContinues(s, rest);
    var n := IdentifierLen(s);
    if 0 < n < |s| && s[n] == '.' {
      assert (s + rest)[n + 1..] == s[n + 1..] + rest;
      IdentifierContinues(s[n + 1..], rest);
      MemberContinues(s[n + 1..], rest);
    }
  }

  lemma KeywordContinues(s: string, rest: string, keyword: string)
    requires Ends(rest) && KeywordLen(s, keyword) == 0
    requires forall i :: 0 <= i < |keyword| ==> keyword[i] != ' '
    ensures KeywordLen(s + rest, keyword) == 0
  {
    var n := |keyword|;
    if n <= |s| {
      assert (s + rest)[..n] == s[..n];
    } else if n <= |s + rest| {
      assert (s + rest)[..n][|s|] == rest[0] == ' ';
    }
  }

  lemma MemberMatches(id: string, rest: string)
    requires IsMember(id) && Ends(rest)
    ensures MatchLiteral(id + rest).NoMatch?
    ensures MemberLen(id + rest) == |id|
  {
    var s := id + rest;
    assert s[0] == id[0];
    KeywordContinues(id, rest, "nil");
    KeywordContinues(id, rest, "true");
    KeywordContinues(id, rest, "false");
    NoNumber(s);
    MemberContinues(id, rest);
  }

  lemma MacroMatches(text: string, rest: string)
    requires IsMacro(text) && Ends(rest)
    ensures var s := "@" + text + rest;
      MatchLiteral(s).NoMatch? && MemberLen(s) == 0 && MacroLen(s) == 1 + |text|
  {
    var s := "@" + text + rest;
    assert s[0] == '@';
    NoKeyword(s);
    NoNumber(s);
    RunContinues(NonBlank, text, rest);
    assert s[1..] == text + rest && s[..1] == "@";
  }

  // ---- Primaries

  predicate StartsOperand(s: string)
  {
    s != [] && !IsBlank(s[0]) && s[0] != '(' && s[0] != '+' && s[0] != '-' && s[0] != '!'
  }

  lemma OperandIsPrimary(s: string, o: Operand, rest: string)
    requires StartsOperand(s) && MatchOperand(s) == Match(o, rest)
    ensures MatchPrimary(s) == Match(Primary([], o), rest)
  {
    assert s[..1] == [s[0]];
    assert MatchUnary(s).NoMatch?;
    assert SkipBlanks(s) == s;
  }

  lemma UnaryIsPrimary(op: UnaryOp, s: string)
    requires s != [] && !IsBlank(s[0])
    ensures MatchPrimary(UnaryText(op) + s) ==
      var p := MatchPrimary(s);
      if p.Match? then Match(Primary([op] + p.value.ops, p.value.operand), p.rest) else NoMatch
  {
    var all := UnaryText(op) + s;
    assert all[..1] == UnaryText(op) && all[1..] == s;
    assert MatchUnary(all) == Match(op, s);
    assert SkipBlanks(s) == s;
  }

  lemma LiteralIsPrimary(s: string, o: Operand, rest: string)
    requires StartsOperand(s) && MatchLiteral(s) == Match(o, rest)
    ensures MatchPrimary(s) == Match(Primary([], o), rest)
  {
    assert s[..1] == [s[0]];
    OperandIsPrimary(s, o, rest);
  }

  lemma DecimalIsPrimary(n: nat, rest: string)
    requires Ends(rest)
    ensures MatchPrimary(Digits(n, 10) + rest) == Match(Primary([], IntegerText(10, Digits(n, 10))), rest)
  {
    DecimalMatches(n, rest);
    DigitClass(Digits(n, 10)[0]);
    assert (Digits(n, 10) + rest)[0] == Digits(n, 10)[0];
    LiteralIsPrimary(Digits(n, 10) + rest, IntegerText(10, Digits(n, 10)), rest);
  }

  lemma TextAssociates(a: string, b: string, c: string)
    ensures a + b + c == a + (b + c)
  {
  }

  lemma NegativeIsPrimary(n: nat, rest: string)
    requires Ends(rest)
    ensures MatchPrimary("-" + Digits(n, 10) + rest) == Match(Primary([Minus], IntegerText(10, Digits(n, 10))), rest)
  {
    var d := Digits(n, 10);
    TextAssociates("-", d, rest);
    DecimalIsPrimary(n, rest);
    DigitClass(d[0]);
    assert (d + rest)[0] == d[0];
    UnaryIsPrimary(Minus, d + rest);
    assert [Minus] + [] == [Minus];
  }

  lemma HexIsPrimary(n: nat, rest: string)
    requires Ends(rest)
    ensures MatchPrimary("0x" + Digits(n, 16) + rest) == Match(Primary([], IntegerText(16, Digits(n, 16))), rest)
  {
    HexMatches(n, rest);
    LiteralIsPrimary("0x" + Digits(n, 16) + rest, IntegerText(16, Digits(n, 16)), rest);
  }

  lemma WordStarts(lib: Library, v: Variant)
    requires v.Nil? || v.Bool? || v.String?
    ensures StartsOperand(ToText(lib, v))
  {
  }

  lemma WordMatches(lib: Library, v: Variant, rest: string)
    requires (v.Nil? || v.Bool? || v.String?) && Ends(rest)
    ensures MatchPrimary(ToText(lib, v) + rest) == Match(LiteralPrimary(v), rest)
  {
    var text := ToText(lib, v);
    assert MatchLiteral(text + rest) == Match(LiteralOperand(v), rest) by {
      if v.String? { StringMatches(v.text, rest); } else if v.Bool? { BoolMatches(v.b, rest); } else { NilMatches(rest); }
    }
    WordStarts(lib, v);
    assert (text + rest)[0] == text[0];
    LiteralIsPrimary(text + rest, LiteralOperand(v), rest);
  }

  lemma IntegerMatches(lib: Library, v: Variant, rest: string)
    requires (v.Int64? || v.UInt64?) && Ends(rest)
    ensures MatchPrimary(ToText(lib, v) + rest) == Match(LiteralPrimary(v), rest)
  {
    if v.Int64? && v.i < 0 {
      NegativeIsPrimary(-v.i, rest);
    } else {
      NaturalMatches(lib, v, if v.Int64? then v.i else v.u, rest);
    }
  }

  lemma NaturalMatches(lib: Library, v: Variant, n: nat, rest: string)
    requires (v == Int64(n) || v == UInt64(n)) && Ends(rest)
    ensures MatchPrimary(ToText(lib, v) + rest) == Match(LiteralPrimary(v), rest)
  {
    DecimalIsPrimary(n, rest);
    assert ToText(lib, v) == Digits(n, 10) && LiteralPrimary(v) == Primary([], IntegerText(10, Digits(n, 10)));
  }

  lemma BytesAreHex(lib: Library, v: Variant, n: nat)
    requires v.BigInt? || v.Buffer? || v.Slice?
    requires n == Magnitude(if v.BigInt? then v.digits else v.bytes)
    ensures ToText(lib, v) == "0x" + Digits(n, 16)
    ensures LiteralPrimary(v) == Primary([], IntegerText(16, Digits(n, 16)))
  {
  }

  lemma BytesMatch(lib: Library, v: Variant, rest: string)
    requires (v.BigInt? || v.Buffer? || v.Slice?) && Ends(rest)
    ensures MatchPrimary(ToText(lib, v) + rest) == Match(LiteralPrimary(v), rest)
  {
    var n := Magnitude(if v.BigInt? then v.digits else v.bytes);
    BytesAreHex(lib, v, n);
    HexIsPrimary(n, rest);
  }

  lemma LiteralMatches(lib: Library, v: Variant, rest: string)
    requires !v.Float64? && Ends(rest)
    ensures MatchPrimary(ToText(lib, v) + rest) == Match(LiteralPrimary(v), rest)
  {
    if v.Int64? || v.UInt64? {
      IntegerMatches(lib, v, rest);
    } else if v.BigInt? || v.Buffer? || v.Slice? {
      BytesMatch(lib, v, rest);
    } else {
      WordMatches(lib, v, rest);
    }
  }

  lemma TokenMatches(id: string, rest: string)
    requires IsMember(id) && Ends(rest)
    ensures MatchPrimary(id + rest) == Match(Primary([], MemberText(id)), rest)
  {
    var s := id + rest;
    MemberMatches(id, rest);
    assert s[..1] == [s[0]] && s[0] == id[0];
    assert s[..|id|] == id && s[|id|..] == rest;
    OperandIsPrimary(s, MemberText(id), rest);
  }

  lemma MacroIsPrimary(text: string, rest: string)
    requires IsMacro(text) && Ends(rest)
    ensures MatchPrimary("@" + text + rest) == Match(Primary([], MacroText(text)), rest)
  {
    var s := "@" + text + rest;
    MacroMatches(text, rest);
    assert s[..1] == [s[0]];
    assert s[1..1 + |text|] == text && s[1 + |text|..] == rest;
    OperandIsPrimary(s, MacroText(text), rest);
  }

  // ---- Expressions

  lemma LiteralStarts(lib: Library, v: Variant)
    requires !v.Float64?
    ensures ToText(lib, v) != [] && !IsBlank(ToText(lib, v)[0])
  {
    if v.Int64? && v.i >= 0 { DigitClass(Digits(v.i, 10)[0]); }
    if v.UInt64? { DigitClass(Digits(v.u, 10)[0]); }
  }

  lemma {:induction false} StartsNonBlank(lib: Library, e: Expr)
    requires Printable(e)
    ensures Unparse(lib, e) != [] && !IsBlank(Unparse(lib, e)[0])
    decreases Size(e)
  {
    match e
    case Literal(v) => LiteralStarts(lib, v);
    case Binary(op, l, r) =>
      if Fold(op, l, r).Some? { StartsNonBlank(lib, Fold(op, l, r).value); } else { StartsNonBlank(lib, l); }
    case _ =>
  }

  lemma StartsWithTwo(s: string, a: char, b: char)
    ensures StartsWith(s, [a, b]) <==> |s| >= 2 && s[0] == a && s[1] == b
  {
    if |s| >= 2 { assert s[..2] == [s[0], s[1]]; }
  }

  lemma StartsWithOne(s: string, a: char)
    ensures StartsWith(s, [a]) <==> |s| >= 1 && s[0] == a
  {
    if |s| >= 1 { assert s[..1] == [s[0]]; }
  }

  lemma InfixMatches(op: BinaryOp, s: string)
    requires s != [] && s[0] == ' '
    ensures MatchInfix(OpText(op) + s) == Match(op, s)
  {
    var all := OpText(op) + s;
    assert all[|OpText(op)|..] == s;
    StartsWithTwo(all, '=', '=');
    StartsWithTwo(all, '!', '=');
    StartsWithTwo(all, '<', '=');
    StartsWithTwo(all, '>', '=');
    StartsWithOne(all, '<');
    StartsWithOne(all, '>');
    StartsWithTwo(all, '&', '&');
    StartsWithTwo(all, '|', '|');
  }

  lemma OneBlankSkipped(s: string)
    requires s != [] && !IsBlank(s[0])
    ensures SkipBlanks(" " + s) == s
  {
    assert (" " + s)[1..] == s;
    assert SkipBlanks(s) == s;
  }

  // The text of an operator and its right operand is one item and what the operand goes on with.
  lemma ItemMatches(op: BinaryOp, text: string, p: Primary, rest: string)
    requires text != [] && !IsBlank(text[0]) && MatchPrimary(text) == Match(p, rest)
    ensures var m := MatchItems(rest);
      MatchItems(" " + OpText(op) + " " + text) == Match([Item(op, p)] + m.value, m.rest)
  {
    var tail := " " + text;
    var s := OpText(op) + tail;
    assert " " + OpText(op) + " " + text == " " + s;
    OneBlankSkipped(s);
    InfixMatches(op, tail);
    OneBlankSkipped(text);
    assert MatchItem(" " + s) == Match(Item(op, p), rest);
  }

  predicate IsLeaf(e: Expr)
  {
    e.Literal? || e.Token? || e.Macro?
  }

  lemma LeafMatches(lib: Library, e: Expr, rest: string)
    requires IsLeaf(e) && Printable(e) && Ends(rest)
    ensures MatchPrimary(Unparse(lib, e) + rest) == Match(Flat(e).first, rest)
  {
    match e
    case Literal(v) => LiteralMatches(lib, v, rest);
    case Token(id) => TokenMatches(id, rest);
    case Macro(text) => MacroIsPrimary(text, rest);
  }

  // Printed text followed by rest reads as the flat expression followed by the items of rest.
  lemma {:induction false} TextMatches(lib: Library, e: Expr, rest: string)
    requires Printable(e) && Ends(rest)
    ensures var t, more := Flat(e), MatchItems(rest);
      MatchExpression(Unparse(lib, e) + rest) == Match(Tree(t.first, t.rest + more.value), more.rest)
    decreases Size(e)
  {
    if IsLeaf(e) {
      LeafMatches(lib, e, rest);
      assert Flat(e).rest + MatchItems(rest).value == MatchItems(rest).value;
    } else if e.Unary? {
      TextMatches(lib, e.operand, rest);
      UnaryMatches(lib, e.uop, e.operand, rest);
    } else if Fold(e.op, e.lhs, e.rhs).Some? {
      TextMatches(lib, Fold(e.op, e.lhs, e.rhs).value, rest);
    } else {
      BinaryMatches(lib, e.op, e.lhs, e.rhs, rest);
    }
  }

  lemma UnaryMatches(lib: Library, op: UnaryOp, x: Expr, rest: string)
    requires Printable(x) && MatchPrimary(Unparse(lib, x) + rest).Match?
    ensures var s, p := Unparse(lib, Unary(op, x)) + rest, MatchPrimary(Unparse(lib, x) + rest);
      MatchPrimary(s) == Match(Primary([op] + p.value.ops, p.value.operand), p.rest)
  {
    StartsNonBlank(lib, x);
    UnaryIsPrimary(op, Unparse(lib, x) + rest);
    assert Unparse(lib, Unary(op, x)) + rest == UnaryText(op) + (Unparse(lib, x) + rest);
  }

  lemma {:induction false} BinaryMatches(lib: Library, op: BinaryOp, l: Expr, r: Expr, rest: string)
    requires Printable(l) && Printable(r) && Fold(op, l, r).None? && Ends(rest)
    ensures var t, more := Flat(Binary(op, l, r)), MatchItems(rest);
      MatchExpression(Unparse(lib, Binary(op, l, r)) + rest) == Match(Tree(t.first, t.rest + more.value), more.rest)
    decreases Size(l) + Size(r)
  {
    var more := MatchItems(rest);
    var right := Unparse(lib, r) + rest;
    var tail := " " + OpText(op) + " " + right;
    assert MatchItems(tail) == Match([Item(op, Flat(r).first)] + (Flat(r).rest + more.value), more.rest) by {
      TextMatches(lib, r, rest);
      StartsNonBlank(lib, r);
      ItemMatches(op, right, MatchPrimary(right).value, MatchPrimary(right).rest);
    }
    TextMatches(lib, l, tail);
    TextJoins(Unparse(lib, l), OpText(op), Unparse(lib, r), rest);
    ItemsJoin(Flat(l).rest, Item(op, Flat(r).first), Flat(r).rest, more.value);
  }

  lemma TextJoins(l: string, op: string, r: string, rest: string)
    ensures (l + " " + op + " " + r) + rest == l + (" " + op + " " + (r + rest))
  {
  }

  lemma ItemsJoin(l: seq<Item>, item: Item, r: seq<Item>, rest: seq<Item>)
    ensures l + ([item] + (r + rest)) == (l + [item] + r) + rest
  {
  }

  /** The grammar reads every printed expression as that expression written flat. */
  lemma PrintedIsFlat(lib: Library, e: Expr)
    requires Printable(e)
    ensures MatchFilter(Unparse(lib, e)) == Some(Flat(e))
  {
    TextMatches(lib, e, []);
    StartsNonBlank(lib, e);
    assert Unparse(lib, e) + [] == Unparse(lib, e);
    assert MatchItems([]) == Match([], []);
    assert Flat(e).rest + [] == Flat(e).rest;
  }
}
