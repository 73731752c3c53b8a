// The writer of pcap files (package/pcap-file/writer/src/lib.rs).
module PcapWriter {
  import opened Base
  import opened Frames
  import opened Variants
  import opened Encoding
  import opened PcapFormat

  datatype State = State(header: bool, out: Bytes)

  const MAGIC: Bytes := [0x4d, 0x3c, 0xb2, 0xa1]

  const NEW := State(false, MAGIC)

  // The header that the first frame brings along.
  function FirstHeader(network: nat): FileHeader
  {
    FileHeader(2, 4, 0, 0, 0, network)
  }

  // One write: the first layer, if there is one; nothing at all when a field cannot be read.
  function WriteSpec(f: Floats, s: State, layers: seq<Layer>): (State, bool)
  {
    if layers == [] then (s, true)
    else
      var p := PacketOf(f, layers[0]);
      if p.None? then (s, false)
      else
        var header := if s.header then [] else HeaderBytes(LittleEndian, FirstHeader(p.value.link));
        (State(true, s.out + header + RecordBytes(LittleEndian, p.value)), true)
  }

  class Worker {
    var header: bool
    var out: Bytes

    ghost function Value(): State
      reads this
    {
      State(header, out)
    }

    constructor ()
      ensures Value() == NEW
    {
      header, out := false, MAGIC;
    }

    method WriteUInt(n: nat, k: nat)
      modifies this`out
      ensures out == old(out) + UInt(LittleEndian, n, k)
    {
      out := out + UInt(LittleEndian, n, k);
    }

    method WriteHeader(snaplen: nat, network: nat)
      modifies this
      ensures header
      ensures out == old(out) +
        if old(header) then [] else HeaderBytes(LittleEndian, FileHeader(2, 4, 0, 0, snaplen, network))
    {
      if !header {
        header := true;
        var major, minor, zone, sigfigs := 2, 4, 0, 0;
        WriteUInt(major, 2);
        WriteUInt(minor, 2);
        WriteUInt(zone, 4);
        WriteUInt(sigfigs, 4);
        WriteUInt(snaplen, 4);
        WriteUInt(network, 4);
        SixParts(old(out), UInt(LittleEndian, major, 2), UInt(LittleEndian, minor, 2), UInt(LittleEndian, zone, 4),
          UInt(LittleEndian, sigfigs, 4), UInt(LittleEndian, snaplen, 4), UInt(LittleEndian, network, 4));
      }
    }

    method WriteRecord(p: Packet)
      modifies this`out
      ensures out == old(out) + RecordBytes(LittleEndian, p)
    {
      WriteUInt(p.sec, 4);
      WriteUInt(p.usec, 4);
      WriteUInt(|p.data|, 4);
      WriteUInt(p.orig, 4);
      out := out + p.data;
      SixParts(old(out), UInt(LittleEndian, p.sec, 4), UInt(LittleEndian, p.usec, 4), UInt(LittleEndian, |p.data|, 4),
        UInt(LittleEndian, p.orig, 4), p.data, []);
      assert p.data + [] == p.data;
    }

    method Write(f: Floats, layers: seq<Layer>) returns (ok: bool)
      modifies this
      ensures (Value(), ok) == WriteSpec(f, old(Value()), layers)
    {
      if layers == [] {
        return true;
      }
      var layer := layers[0];
      var orig := FieldOf(f, layer, "link.length");
      if orig.None? {
        return false;
      }
      var link := FieldOf(f, layer, "link.type");
      if link.None? {
        return false;
      }
      var sec := FieldOf(f, layer, "link.timestamp.sec");
      if sec.None? {
        return false;
      }
      var usec := FieldOf(f, layer, "link.timestamp.usec");
      if usec.None? {
        return false;
      }
      WriteHeader(0, link.value);
      WriteRecord(Packet(link.value, sec.value, usec.value, orig.value, layer.data));
      ok := true;
    }
  }

  lemma SixParts(all: Bytes, a: Bytes, b: Bytes, c: Bytes, d: Bytes, e: Bytes, g: Bytes)
    ensures all + a + b + c + d + e + g == all + (a + (b + (c + (d + (e + g)))))
  {
    Associates(all + a + b + c + d, e, g);
    Associates(all + a + b + c, d, e + g);
    Associates(all + a + b, c, d + (e + g));
    Associates(all + a, b, c + (d + (e + g)));
    Associates(all, a, b + (c + (d + (e + g))));
  }

  // ---- Many writes

  // The state after one write for each stack of layers.
  function WriteAll(f: Floats, stacks: seq<seq<Layer>>): State
  {
    if stacks == [] then NEW else WriteSpec(f, WriteAll(f, stacks[..|stacks| - 1]), stacks[|stacks| - 1]).0
  }

  predicate IsWritten(f: Floats, stack: seq<Layer>)
  {
    stack != [] && PacketOf(f, stack[0]).Some?
  }

  // The packets of the writes that succeed and have a layer.
  function Written(f: Floats, stacks: seq<seq<Layer>>): seq<Packet>
  {
    if stacks == [] then []
    else
      var stack := stacks[|stacks| - 1];
      Written(f, stacks[..|stacks| - 1]) + if IsWritten(f, stack) then [PacketOf(f, stack[0]).value] else []
  }

  lemma {:induction false} RecordsSnoc(order: Order, packets: seq<Packet>, p: Packet)
    ensures Records(order, packets + [p]) == Records(order, packets) + RecordBytes(order, p)
  {
    if packets == [] {
      assert ([] + [p])[1..] == [];
      assert Records(order, [p]) == RecordBytes(order, p) + Records(order, []);
      assert [] + [p] == [p];
    } else {
      RecordsSnoc(order, packets[1..], p);
      assert (packets + [p])[1..] == packets[1..] + [p];
      Associates(RecordBytes(order, packets[0]), Records(order, packets[1..]), RecordBytes(order, p));
    }
  }

  // The file after some packets: the magic number alone while there is none.
  function FileOf(packets: seq<Packet>): Bytes
  {
    if packets == [] then MAGIC else FileBytes(LittleEndian, true, FirstHeader(packets[0].link), packets)
  }

  lemma MagicBytes()
    ensures Big(Magic(LittleEndian, true), 4) == MAGIC
  {
    var n := 0x4d3c_b2a1;
    assert n / 0x100 == 0x4d3cb2 && n % 0x100 == 0xa1;
    assert 0x4d3cb2 / 0x100 == 0x4d3c && 0x4d3cb2 % 0x100 == 0xb2;
    assert 0x4d3c / 0x100 == 0x4d && 0x4d3c % 0x100 == 0x3c;
    assert Big(0x4d, 1) == [0x4d];
    assert Big(0x4d3c, 2) == [0x4d, 0x3c];
    assert Big(0x4d3cb2, 3) == [0x4d, 0x3c, 0xb2];
  }

  lemma OneMoreRecord(packets: seq<Packet>, p: Packet)
    ensures FileOf(packets + [p]) == FileOf(packets)
      + (if packets == [] then HeaderBytes(LittleEndian, FirstHeader(p.link)) else [])
      + RecordBytes(LittleEndian, p)
  {
    MagicBytes();
    RecordsSnoc(LittleEndian, packets, p);
    var record := RecordBytes(LittleEndian, p);
    var h := HeaderBytes(LittleEndian, FirstHeader((packets + [p])[0].link));
    if packets == [] {
      assert [] + record == record;
      Associates(MAGIC, h, record);
    } else {
      var records := Records(LittleEndian, packets);
      Associates(h, records, record);
      Associates(MAGIC, h + records, record);
      assert FileOf(packets) + [] == FileOf(packets);
    }
  }

  /** After any writes the file holds exactly the packets of the successful ones, behind one header
      with the link type of the first. */
  lemma {:induction false} WritesFile(f: Floats, stacks: seq<seq<Layer>>)
    ensures WriteAll(f, stacks) == State(Written(f, stacks) != [], FileOf(Written(f, stacks)))
  {
    if stacks != [] {
      var init, stack := stacks[..|stacks| - 1], stacks[|stacks| - 1];
      WritesFile(f, init);
      if IsWritten(f, stack) {
        OneMoreRecord(Written(f, init), PacketOf(f, stack[0]).value);
      } else {
        assert Written(f, init) + [] == Written(f, init);
      }
    }
  }
}
