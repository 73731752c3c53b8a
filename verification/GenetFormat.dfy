// The records of a genet file (package/genet-file/format/src/lib.rs) and their bytes: fixed-width
// little-endian integers, four-byte variant tags, lengths in front of texts and lists.
module GenetFormat {
  import opened Base
  import opened Frames
  import opened Encoding
  import opened Variants

  datatype Value =
    | NilValue
    | BoolValue(b: bool)
    | Int64Value(i: int)
    | UInt64Value(u: nat)
    | Float64Value(bits: nat)
    | StringValue(text: string)
    | BufferValue(bytes: Bytes)

  datatype AttrClass = AttrClass(id: nat, typ: nat)

  datatype Header = Header(tokens: seq<string>, attrs: seq<AttrClass>, entries: nat)

  datatype AttrRecord = AttrRecord(index: nat, value: Value)

  datatype FrameRecord = FrameRecord(id: nat, len: nat, attrs: seq<AttrRecord>)

  datatype Entry = Entry(frame: FrameRecord, data: Bytes)

  // ---- Values

  function ToValue(v: Variant): Value
  {
    match v
    case Bool(x) => BoolValue(x)
    case Int64(x) => Int64Value(x)
    case UInt64(x) => UInt64Value(x)
    case Float64(x) => Float64Value(x)
    case String(x) => StringValue(x)
    case Buffer(x) => BufferValue(x)
    case _ => NilValue
  }

  function ToVariant(v: Value): Variant
  {
    match v
    case BoolValue(x) => Bool(x)
    case Int64Value(x) => Int64(x)
    case UInt64Value(x) => UInt64(x)
    case Float64Value(x) => Float64(x)
    case StringValue(x) => String(x)
    case BufferValue(x) => Buffer(x)
    case NilValue => Nil
  }

  /** Through a file, a value stays as it is, except that big integers and slices are lost. */
  lemma ThroughFile(v: Variant)
    ensures ToVariant(ToValue(v)) == if v.BigInt? || v.Slice? then Nil else v
  {
  }

  // ---- Encoders

  function Tag(n: nat): Bytes { Little(n, 4) }

  function ValueTag(v: Value): (n: nat)
    ensures n < 7
  {
    match v
    case NilValue => 0
    case BoolValue(_) => 1
    case Int64Value(_) => 2
    case UInt64Value(_) => 3
    case Float64Value(_) => 4
    case StringValue(_) => 5
    case BufferValue(_) => 6
  }

  function ValueBody(v: Value): Bytes
  {
    match v
    case NilValue => []
    case BoolValue(x) => [if x then 1 else 0]
    case Int64Value(x) => U64(AsU64(x))
    case UInt64Value(x) => U64(x)
    case Float64Value(x) => U64(x)
    case StringValue(x) => Text(x)
    case BufferValue(x) => Blob(x)
  }

  function ValueBytes(v: Value): Bytes
  {
    Tag(ValueTag(v)) + ValueBody(v)
  }

  function AttrBytes(a: AttrRecord): (b: Bytes)
    ensures b != []
  {
    U64(a.index) + ValueBytes(a.value)
  }

  function ClassBytes(c: AttrClass): (b: Bytes)
    ensures b != []
  {
    U64(c.id) + U64(c.typ)
  }

  function FrameBytes(f: FrameRecord): Bytes
  {
    U64(f.id) + U64(f.len) + List(AttrBytes, f.attrs)
  }

  function HeaderBytes(h: Header): Bytes
  {
    List(Text, h.tokens) + List(ClassBytes, h.attrs) + U64(h.entries)
  }

  // ---- Decoders

  function ReadBody(tag: nat, b: Bytes): Decoded<Value>
  {
    match tag
    case 0 => Got(NilValue, b)
    case 1 =>
      if b != [] && b[0] < 2 then Got(BoolValue(b[0] == 1), b[1..]) else Bad
    case 2 =>
      var d := ReadU64(b);
      if d.Got? then Got(Int64Value(AsI64(d.value)), d.rest) else Bad
    case 3 =>
      var d := ReadU64(b);
      if d.Got? then Got(UInt64Value(d.value), d.rest) else Bad
    case 4 =>
      var d := ReadU64(b);
      if d.Got? then Got(Float64Value(d.value), d.rest) else Bad
    case 5 =>
      var d := ReadText(b);
      if d.Got? then Got(StringValue(d.value), d.rest) else Bad
    case 6 =>
      var d := ReadBlob(b);
      if d.Got? then Got(BufferValue(d.value), d.rest) else Bad
    case _ => Bad
  }

  function ReadValue(b: Bytes): Decoded<Value>
  {
    var tag := Take(b, 4);
    if tag.Got? then ReadBody(FromLittle(tag.value), tag.rest) else Bad
  }

  function ReadAttr(b: Bytes): Decoded<AttrRecord>
  {
    var i := ReadU64(b);
    if i.Bad? then Bad
    else
      var v := ReadValue(i.rest);
      if v.Got? then Got(AttrRecord(i.value, v.value), v.rest) else Bad
  }

  function ReadClass(b: Bytes): Decoded<AttrClass>
  {
    var id := ReadU64(b);
    if id.Bad? then Bad
    else
      var typ := ReadU64(id.rest);
      if typ.Got? then Got(AttrClass(id.value, typ.value), typ.rest) else Bad
  }

  function ReadFrame(b: Bytes): Decoded<FrameRecord>
  {
    var id := ReadU64(b);
    if id.Bad? then Bad
    else
      var len := ReadU64(id.rest);
      if len.Bad? then Bad
      else
        var attrs := ReadList(ReadAttr, len.rest);
        if attrs.Got? then Got(FrameRecord(id.value, len.value, attrs.value), attrs.rest) else Bad
  }

  function ReadHeader(b: Bytes): Decoded<Header>
  {
    var tokens := ReadList(ReadText, b);
    if tokens.Bad? then Bad
    else
      var attrs := ReadList(ReadClass, tokens.rest);
      if attrs.Bad? then Bad
      else
        var entries := ReadU64(attrs.rest);
        if entries.Got? then Got(Header(tokens.value, attrs.value, entries.value), entries.rest) else Bad
  }

  // ---- Round trips

  // The integers fit their width; texts and lists do because their bytes are fewer than 2^64.
  predicate ValueFits(v: Value)
  {
    match v
    case Int64Value(i) => -TWO_63 <= i < TWO_63
    case UInt64Value(u) => u < TWO_64
    case Float64Value(bits) => bits < TWO_64
    case _ => true
  }

  predicate AttrFits(a: AttrRecord)
  {
    a.index < TWO_64 && ValueFits(a.value)
  }

  predicate ClassFits(c: AttrClass)
  {
    c.id < TWO_64 && c.typ < TWO_64
  }

  lemma SignedRoundTrip(i: int)
    requires -TWO_63 <= i < TWO_63
    ensures AsI64(AsU64(i)) == i
  {
  }

  lemma NumberRoundTrip(v: Value, rest: Bytes)
    requires ValueFits(v) && (v.Int64Value? || v.UInt64Value? || v.Float64Value?)
    ensures ReadBody(ValueTag(v), ValueBody(v) + rest) == Got(v, rest)
  {
    if v.Int64Value? {
      U64RoundTrip(AsU64(v.i), rest);
      SignedRoundTrip(v.i);
    } else if v.UInt64Value? {
      U64RoundTrip(v.u, rest);
    } else {
      U64RoundTrip(v.bits, rest);
    }
  }

  lemma BodyRoundTrip(v: Value, rest: Bytes)
    requires ValueFits(v) && |ValueBody(v)| < TWO_64
    ensures ReadBody(ValueTag(v), ValueBody(v) + rest) == Got(v, rest)
  {
    match v
    case NilValue => assert ValueBody(v) + rest == rest;
    case BoolValue(x) => assert (ValueBody(v) + rest)[1..] == rest;
    case StringValue(x) => TextRoundTrip(x, rest);
    case BufferValue(x) => BlobRoundTrip(x, rest);
    case _ => NumberRoundTrip(v, rest);
  }

  lemma TagIsRead(n: nat, body: Bytes)
    requires n < 7
    ensures Take(Tag(n) + body, 4) == Got(Tag(n), body) && FromLittle(Tag(n)) == n
  {
    TakeExactly(Tag(n), body);
    Widths();
    LittleRoundTrip(n, 4);
  }

  lemma ValueRoundTrip(v: Value, rest: Bytes)
    requires ValueFits(v) && |ValueBytes(v)| < TWO_64
    ensures ReadValue(ValueBytes(v) + rest) == Got(v, rest)
  {
    var tag, body := Tag(ValueTag(v)), ValueBody(v);
    Associates(tag, body, rest);
    TagIsRead(ValueTag(v), body + rest);
    BodyRoundTrip(v, rest);
  }

  lemma AttrRoundTrip(a: AttrRecord, rest: Bytes)
    requires AttrFits(a) && |AttrBytes(a)| < TWO_64
    ensures ReadAttr(AttrBytes(a) + rest) == Got(a, rest)
  {
    Associates(U64(a.index), ValueBytes(a.value), rest);
    U64RoundTrip(a.index, ValueBytes(a.value) + rest);
    ValueRoundTrip(a.value, rest);
  }

  lemma ClassRoundTrip(c: AttrClass, rest: Bytes)
    requires ClassFits(c)
    ensures ReadClass(ClassBytes(c) + rest) == Got(c, rest)
  {
    Associates(U64(c.id), U64(c.typ), rest);
    U64RoundTrip(c.id, U64(c.typ) + rest);
    U64RoundTrip(c.typ, rest);
  }

  lemma AttrsRoundTrip(attrs: seq<AttrRecord>, rest: Bytes)
    requires forall i :: 0 <= i < |attrs| ==> AttrFits(attrs[i])
    requires |List(AttrBytes, attrs)| < TWO_64
    ensures ReadList(ReadAttr, List(AttrBytes, attrs) + rest) == Got(attrs, rest)
  {
    forall i | 0 <= i < |attrs| ensures Undoes(AttrBytes, ReadAttr, attrs[i]) {
      ItemFits(AttrBytes, attrs, i);
      forall more: Bytes { AttrRoundTrip(attrs[i], more); }
    }
    CountFits(AttrBytes, attrs);
    ListRoundTrip(AttrBytes, ReadAttr, attrs, rest);
  }

  lemma TokensRoundTrip(tokens: seq<string>, rest: Bytes)
    requires |List(Text, tokens)| < TWO_64
    ensures ReadList(ReadText, List(Text, tokens) + rest) == Got(tokens, rest)
  {
    forall i | 0 <= i < |tokens| ensures Undoes(Text, ReadText, tokens[i]) {
      ItemFits(Text, tokens, i);
      forall more: Bytes { TextRoundTrip(tokens[i], more); }
    }
    CountFits(Text, tokens);
    ListRoundTrip(Text, ReadText, tokens, rest);
  }

  lemma ClassesRoundTrip(classes: seq<AttrClass>, rest: Bytes)
    requires forall i :: 0 <= i < |classes| ==> ClassFits(classes[i])
    requires |List(ClassBytes, classes)| < TWO_64
    ensures ReadList(ReadClass, List(ClassBytes, classes) + rest) == Got(classes, rest)
  {
    forall i | 0 <= i < |classes| ensures Undoes(ClassBytes, ReadClass, classes[i]) {
      forall more: Bytes { ClassRoundTrip(classes[i], more); }
    }
    CountFits(ClassBytes, classes);
    ListRoundTrip(ClassBytes, ReadClass, classes, rest);
  }

  lemma ThreeParts(a: Bytes, b: Bytes, c: Bytes, rest: Bytes)
    ensures (a + b + c) + rest == a + (b + (c + rest))
  {
  }

  predicate FrameFits(f: FrameRecord)
  {
    f.id < TWO_64 && f.len < TWO_64 && forall i :: 0 <= i < |f.attrs| ==> AttrFits(f.attrs[i])
  }

  /** A frame record is read back from its bytes, whatever follows them. */
  lemma FrameRoundTrip(f: FrameRecord, rest: Bytes)
    requires FrameFits(f) && |FrameBytes(f)| < TWO_64
    ensures ReadFrame(FrameBytes(f) + rest) == Got(f, rest)
  {
    var attrs := List(AttrBytes, f.attrs);
    ThreeParts(U64(f.id), U64(f.len), attrs, rest);
    U64RoundTrip(f.id, U64(f.len) + (attrs + rest));
    U64RoundTrip(f.len, attrs + rest);
    AttrsRoundTrip(f.attrs, rest);
  }

  predicate HeaderFits(h: Header)
  {
    h.entries < TWO_64 && forall i :: 0 <= i < |h.attrs| ==> ClassFits(h.attrs[i])
  }

  /** The header is read back from its bytes, whatever follows them. */
  lemma HeaderRoundTrip(h: Header, rest: Bytes)
    requires HeaderFits(h) && |HeaderBytes(h)| < TWO_64
    ensures ReadHeader(HeaderBytes(h) + rest) == Got(h, rest)
  {
    var tokens, attrs, entries := List(Text, h.tokens), List(ClassBytes, h.attrs), U64(h.entries);
    ThreeParts(tokens, attrs, entries, rest);
    TokensRoundTrip(h.tokens, attrs + (entries + rest));
    ClassesRoundTrip(h.attrs, entries + rest);
    U64RoundTrip(h.entries, rest);
  }
}
