// Packets as pcap files hold them: the file header (section 4) and the packet record (section 5) of
// draft-ietf-opsawg-pcap.
module PcapFormat {
  import opened Base
  import opened Frames
  import opened Variants
  import opened Encoding
  import FilterAst

  // The fields are 32 bits wide; time is seconds and a fraction in the unit of the file.
  datatype Packet = Packet(link: nat, sec: nat, usec: nat, orig: nat, data: Bytes)

  datatype Order = LittleEndian | BigEndian

  // The fields after the magic number. The reader only looks at the last.
  datatype FileHeader = FileHeader(major: nat, minor: nat, zone: nat, sigfigs: nat, snaplen: nat, network: nat)

  // ---- Bytes

  function UInt(order: Order, n: nat, k: nat): (b: Bytes)
    ensures |b| == k
  {
    if order == LittleEndian then Little(n, k) else Big(n, k)
  }

  function ReadUInt(order: Order, b: Bytes, k: nat): (d: Decoded<nat>)
    ensures d.Got? ==> |d.rest| == |b| - k
  {
    var d := Take(b, k);
    if d.Bad? then Bad
    else Got(if order == LittleEndian then FromLittle(d.value) else FromBig(d.value), d.rest)
  }

  lemma UIntRoundTrip(order: Order, n: nat, k: nat, rest: Bytes)
    requires n < Power256(k)
    ensures ReadUInt(order, UInt(order, n, k) + rest, k) == Got(n, rest)
  {
    LittleRoundTrip(n, k);
    BigRoundTrip(n, k);
    TakeExactly(UInt(order, n, k), rest);
  }

  // The magic number, as it reads with the most significant byte first.
  function Magic(order: Order, nsec: bool): nat
  {
    match (order, nsec)
    case (LittleEndian, false) => 0xd4c3_b2a1
    case (BigEndian, false) => 0xa1b2_c3d4
    case (LittleEndian, true) => 0x4d3c_b2a1
    case (BigEndian, true) => 0xa1b2_3c4d
  }

  function HeaderBytes(order: Order, h: FileHeader): Bytes
  {
    UInt(order, h.major, 2) + (UInt(order, h.minor, 2) + (UInt(order, h.zone, 4) + (UInt(order, h.sigfigs, 4)
      + (UInt(order, h.snaplen, 4) + UInt(order, h.network, 4)))))
  }

  function RecordBytes(order: Order, p: Packet): (b: Bytes)
    ensures b != []
  {
    UInt(order, p.sec, 4) + (UInt(order, p.usec, 4) + (UInt(order, |p.data|, 4) + (UInt(order, p.orig, 4) + p.data)))
  }

  function Records(order: Order, packets: seq<Packet>): Bytes
  {
    if packets == [] then [] else RecordBytes(order, packets[0]) + Records(order, packets[1..])
  }

  // A whole file.
  function FileBytes(order: Order, nsec: bool, h: FileHeader, packets: seq<Packet>): Bytes
  {
    Big(Magic(order, nsec), 4) + (HeaderBytes(order, h) + Records(order, packets))
  }

  // The fields fit their width.
  predicate Fits(p: Packet)
  {
    p.link < TWO_32 && p.sec < TWO_32 && p.usec < TWO_32 && p.orig < TWO_32 && |p.data| < TWO_32
  }

  predicate HeaderFits(h: FileHeader)
  {
    && h.major < 0x1_0000 && h.minor < 0x1_0000
    && h.zone < TWO_32 && h.sigfigs < TWO_32 && h.snaplen < TWO_32 && h.network < TWO_32
  }

  // ---- Packets as layers

  // An attribute value as 32 bits: through an i32, as the unannotated integers of the writer are.
  function Field(f: Floats, v: Variant): (n: Option<nat>)
    ensures n.Some? ==> n.value < TWO_32
  {
    match v
    case Nil => Some(0)
    case Bool(b) => Some(if b then 1 else 0)
    case Int64(i) => Some(i % TWO_32)
    case UInt64(u) => Some(u % TWO_32)
    case Float64(x) => Some(f.toI64(x) % TWO_32)
    case _ => None
  }

  // The field of a layer: 0 without the attribute, None when it cannot be read as a number.
  function FieldOf(f: Floats, l: Layer, id: string): (n: Option<nat>)
    ensures n.Some? ==> n.value < TWO_32
  {
    var a := FilterAst.FindAttr(id, l.attrs + l.headers);
    if a.None? then Some(0)
    else if a.value.value.None? then None
    else Field(f, a.value.value.value)
  }

  function PacketOf(f: Floats, l: Layer): Option<Packet>
  {
    var orig, link := FieldOf(f, l, "link.length"), FieldOf(f, l, "link.type");
    var sec, usec := FieldOf(f, l, "link.timestamp.sec"), FieldOf(f, l, "link.timestamp.usec");
    if orig.Some? && link.Some? && sec.Some? && usec.Some? then
      Some(Packet(link.value, sec.value, usec.value, orig.value, l.data))
    else None
  }

  function Constant(id: string, v: Variant): Attr
  {
    Attr(id, "", true, Some(v))
  }

  // The layer that the reader makes; stamp is the time as a float, link the text of the layer id.
  function LayerOf(stamp: (nat, nat) -> nat, link: nat -> string, p: Packet): Layer
  {
    Layer(link(p.link), [Constant("link.type", Int64(p.link))],
      [Constant("link.length", UInt64(p.orig)),
       Attr("link.timestamp", "@datetime:unix", true, Some(Float64(stamp(p.sec, p.usec)))),
       Constant("link.timestamp.sec", UInt64(p.sec)),
       Constant("link.timestamp.usec", UInt64(p.usec))], [], p.data)
  }

  lemma FirstIsFound(id: string, a: Attr, more: seq<Attr>)
    ensures FilterAst.FindAttr(id, [a] + more) == if a.id == id then Some(a) else FilterAst.FindAttr(id, more)
  {
    assert ([a] + more)[1..] == more;
  }

  /** The writer finds in a layer that was read what the reader put there. */
  lemma PacketOfLayer(f: Floats, stamp: (nat, nat) -> nat, link: nat -> string, p: Packet)
    requires Fits(p)
    ensures PacketOf(f, LayerOf(stamp, link, p)) == Some(p)
  {
    var l := LayerOf(stamp, link, p);
    var a, t := l.attrs, l.headers[0];
    assert a + l.headers == [a[0]] + ([a[1]] + ([a[2]] + ([a[3]] + ([t] + []))));
    forall id: string
      ensures FilterAst.FindAttr(id, a + l.headers) ==
        if id == "link.length" then Some(a[0]) else if id == "link.timestamp" then Some(a[1])
        else if id == "link.timestamp.sec" then Some(a[2]) else if id == "link.timestamp.usec" then Some(a[3])
        else if id == "link.type" then Some(t) else None
    {
      FirstIsFound(id, a[0], [a[1]] + ([a[2]] + ([a[3]] + ([t] + []))));
      FirstIsFound(id, a[1], [a[2]] + ([a[3]] + ([t] + [])));
      FirstIsFound(id, a[2], [a[3]] + ([t] + []));
      FirstIsFound(id, a[3], [t] + []);
      FirstIsFound(id, t, []);
    }
  }
}
