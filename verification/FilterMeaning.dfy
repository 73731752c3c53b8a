// What a whole filter says about a frame, in terms of the values of its parts.
module FilterMeaning {
  import opened Base
  import opened Frames
  import opened Numerals
  import opened Variants
  import opened Integers
  import opened FilterAst

  // ---- Truth and connectives

  /** A value is true unless it is nil or false. */
  lemma ValueMeaning(f: Floats, e: Expr, layers: seq<Layer>)
    ensures Test(f, e, layers) <==>
      match Eval(f, e, layers)
      case Nil => false
      case Bool(b) => b
      case _ => true
  {
  }

  /** The connectives are those of the truth of their sides, and != is the opposite of ==. */
  lemma ConnectiveMeaning(f: Floats, a: Expr, b: Expr, layers: seq<Layer>)
    ensures Test(f, Binary(And, a, b), layers) <==> Test(f, a, layers) && Test(f, b, layers)
    ensures Test(f, Binary(Or, a, b), layers) <==> Test(f, a, layers) || Test(f, b, layers)
    ensures Test(f, Unary(Not, a), layers) <==> !Test(f, a, layers)
    ensures Test(f, Binary(Ne, a, b), layers) <==> !Test(f, Binary(Eq, a, b), layers)
  {
  }

  // ---- Integers

  // The four order comparisons of two expressions hold as those of two numbers.
  ghost predicate OrderedAs(f: Floats, a: Expr, b: Expr, layers: seq<Layer>, m: int, n: int)
  {
    && (Test(f, Binary(Lt, a, b), layers) <==> m < n)
    && (Test(f, Binary(Gt, a, b), layers) <==> m > n)
    && (Test(f, Binary(Lte, a, b), layers) <==> m <= n)
    && (Test(f, Binary(Gte, a, b), layers) <==> m >= n)
  }

  lemma OrderTests(f: Floats, a: Expr, b: Expr, layers: seq<Layer>)
    ensures var o := Ord(f, Eval(f, a, layers), Eval(f, b, layers));
      && (Test(f, Binary(Lt, a, b), layers) <==> o == Some(Less))
      && (Test(f, Binary(Gt, a, b), layers) <==> o == Some(Greater))
      && (Test(f, Binary(Lte, a, b), layers) <==> o == Some(Less) || o == Some(Equal))
      && (Test(f, Binary(Gte, a, b), layers) <==> o == Some(Greater) || o == Some(Equal))
  {
  }

  /** A comparison of two integers, whatever their representations, is that of the numbers exactly if the order of
      the two is safe. */
  lemma IntegersCompare(f: Floats, a: Expr, b: Expr, layers: seq<Layer>)
    requires IsInteger(Eval(f, a, layers)) && IsInteger(Eval(f, b, layers))
    ensures var x, y := Eval(f, a, layers), Eval(f, b, layers);
      OrderedAs(f, a, b, layers, IntegerOf(x), IntegerOf(y)) <==> OrderIsSafe(x, y)
  {
    var x, y := Eval(f, a, layers), Eval(f, b, layers);
    OrderTests(f, a, b, layers);
    IntegerOrder(f, x, y);
  }

  /** Two integers test equal exactly if they are the same number, in the same bytes if both are big, or the same 64
      bits with another sign. */
  lemma IntegersEqual(f: Floats, a: Expr, b: Expr, layers: seq<Layer>)
    requires IsInteger(Eval(f, a, layers)) && IsInteger(Eval(f, b, layers))
    ensures var x, y := Eval(f, a, layers), Eval(f, b, layers);
      Test(f, Binary(Eq, a, b), layers) <==>
        (IntegerOf(x) == IntegerOf(y) && (BothBig(x, y) ==> AsNumber(x) == AsNumber(y))) || SameBits(x, y)
  {
    IntegerEquality(f, Eval(f, a, layers), Eval(f, b, layers));
  }

  // A number of one of the three integer types; buffers are not.
  predicate IsNumber(v: Variant)
  {
    IsInteger(v) && (v.Int64? || v.UInt64? || v.BigInt?)
  }

  // The negated number is the right one exactly if it fits, or is big; anything but a number gives 0.
  lemma NegationMeaning(f: Floats, x: Variant)
    requires InRange(x) && !x.Float64?
    ensures var minus := UnaryNegation(f, x);
      && IsNumber(minus)
      && (IsNumber(x) ==> (IntegerOf(minus) == -IntegerOf(x) <==> x.BigInt? || -TWO_63 < IntegerOf(x) <= TWO_63))
      && (!IsNumber(x) ==> IntegerOf(minus) == 0)
  {
    match x
    case Int64(i) => NegatedFits(i);
    case UInt64(u) => CastsAre(u, 0); NegatedFits(AsI64(u));
    case BigInt(b) => SignedBytesRoundTrip(-FromSignedBytes(b));
    case _ =>
  }

  /** A plus sign keeps a number. A minus sign negates it exactly if the result fits in 64 bits with a sign, or it is
      big. Before anything but a number, both give 0. */
  lemma SignMeaning(f: Floats, a: Expr, layers: seq<Layer>)
    requires InRange(Eval(f, a, layers)) && !Eval(f, a, layers).Float64?
    ensures var x, plus, minus := Eval(f, a, layers), Eval(f, Unary(Plus, a), layers), Eval(f, Unary(Minus, a), layers);
      && IsNumber(plus) && IsNumber(minus)
      && (IsNumber(x) ==> IntegerOf(plus) == IntegerOf(x))
      && (IsNumber(x) ==> (IntegerOf(minus) == -IntegerOf(x) <==> x.BigInt? || -TWO_63 < IntegerOf(x) <= TWO_63))
      && (!IsNumber(x) ==> IntegerOf(plus) == IntegerOf(minus) == 0)
  {
    NegationMeaning(f, Eval(f, a, layers));
  }

  lemma NegatedFits(i: int)
    requires -TWO_63 <= i < TWO_63
    ensures AsI64(-i) == if i == -TWO_63 then i else -i
  {
  }

  // ---- Texts and unlike values

  // How far two texts agree.
  function CommonText(a: string, b: string): (n: nat)
    ensures n <= |a| && n <= |b| && a[..n] == b[..n] && (n < |a| && n < |b| ==> a[n] != b[n])
  {
    if a != [] && b != [] && a[0] == b[0] then
      var n := CommonText(a[1..], b[1..]);
      assert a[..n + 1] == [a[0]] + a[1..][..n] && b[..n + 1] == [b[0]] + b[1..][..n];
      1 + n
    else 0
  }

  lemma {:induction false} CompareTextOrder(a: string, b: string)
    ensures var n := CommonText(a, b);
      && (CompareText(a, b) == Less <==> n < |b| && (n == |a| || a[n] < b[n]))
      && (CompareText(a, b) == Greater <==> n < |a| && (n == |b| || a[n] > b[n]))
      && (CompareText(a, b) == Equal <==> a == b)
  {
    if a != [] && b != [] && a[0] == b[0] {
      CompareTextOrder(a[1..], b[1..]);
      assert a == [a[0]] + a[1..] && b == [b[0]] + b[1..];
    }
  }

  /** Two texts are equal only if they are the same; they are ordered by the first character that differs, and a
      beginning comes before what it begins. */
  lemma TextsCompare(f: Floats, a: Expr, b: Expr, layers: seq<Layer>)
    requires Eval(f, a, layers).String? && Eval(f, b, layers).String?
    ensures var s, t := Eval(f, a, layers).text, Eval(f, b, layers).text;
      var n := CommonText(s, t);
      && (Test(f, Binary(Eq, a, b), layers) <==> s == t)
      && (Test(f, Binary(Lt, a, b), layers) <==> n < |t| && (n == |s| || s[n] < t[n]))
      && (Test(f, Binary(Gt, a, b), layers) <==> n < |s| && (n == |t| || s[n] > t[n]))
      && (Test(f, Binary(Lte, a, b), layers) <==> Test(f, Binary(Lt, a, b), layers) || s == t)
      && (Test(f, Binary(Gte, a, b), layers) <==> Test(f, Binary(Gt, a, b), layers) || s == t)
  {
    OrderTests(f, a, b, layers);
    CompareTextOrder(Eval(f, a, layers).text, Eval(f, b, layers).text);
  }

  // Nil, truth values, texts, and everything that is compared as a number.
  function Kind(v: Variant): nat
  {
    match v
    case Nil => 0
    case Bool(_) => 1
    case String(_) => 2
    case _ => 3
  }

  /** Values of different kinds are neither equal nor ordered; nil and truth values are equal or not, but not ordered. */
  lemma UnlikeValues(f: Floats, a: Expr, b: Expr, layers: seq<Layer>)
    ensures var x, y := Eval(f, a, layers), Eval(f, b, layers);
      && (Kind(x) != Kind(y) ==> !Test(f, Binary(Eq, a, b), layers))
      && (Kind(x) == Kind(y) <= 1 ==> (Test(f, Binary(Eq, a, b), layers) <==> x == y))
      && (Kind(x) != Kind(y) || Kind(x) <= 1 ==>
          && !Test(f, Binary(Lt, a, b), layers) && !Test(f, Binary(Gt, a, b), layers)
          && !Test(f, Binary(Lte, a, b), layers) && !Test(f, Binary(Gte, a, b), layers))
  {
    OrderTests(f, a, b, layers);
  }

  // ---- What a layer says about an id

  // Attribute i is the first of its id.
  predicate FirstOf(attrs: seq<Attr>, i: nat, id: string)
  {
    i < |attrs| && attrs[i].id == id && forall j :: 0 <= j < i ==> attrs[j].id != id
  }

  lemma {:induction false} FindsFirst(id: string, attrs: seq<Attr>)
    ensures FindAttr(id, attrs).None? <==> forall j :: 0 <= j < |attrs| ==> attrs[j].id != id
    ensures forall i: nat :: FirstOf(attrs, i, id) ==> FindAttr(id, attrs) == Some(attrs[i])
  {
    if attrs != [] && attrs[0].id != id {
      var rest := attrs[1..];
      FindsFirst(id, rest);
      forall i: nat | FirstOf(attrs, i, id) ensures FindAttr(id, attrs) == Some(attrs[i]) {
        assert FirstOf(rest, i - 1, id) by {
          forall j | 0 <= j < i - 1 ensures rest[j].id != id { assert rest[j] == attrs[j + 1]; }
        }
      }
      assert forall j :: 0 < j < |attrs| ==> attrs[j] == rest[j - 1];
    }
  }

  /** A layer says of its own id that it is there; of another id it says the value of the first such header or, without
      one, attribute; and nothing if there is none, or its value cannot be read. */
  lemma LayerAnswers(id: string, layer: Layer)
    ensures layer.id == id ==> Answer(id, layer) == Some(Bool(true))
    ensures layer.id != id ==> forall i: nat ::
      FirstOf(layer.headers + layer.attrs, i, id) ==> Answer(id, layer) == (layer.headers + layer.attrs)[i].value
    ensures layer.id != id && (forall a :: a in layer.headers + layer.attrs ==> a.id != id) ==> Answer(id, layer).None?
  {
    var attrs := layer.headers + layer.attrs;
    FindsFirst(id, attrs);
    if layer.id != id {
      forall i: nat | FirstOf(attrs, i, id) ensures Answer(id, layer) == attrs[i].value {
        assert FindAttr(id, attrs) == Some(attrs[i]);
      }
    }
  }
}
