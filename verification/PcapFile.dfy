// A pcap file read back, under any of the four magic numbers.
module PcapFile {
  import opened Base
  import opened Frames
  import opened Variants
  import opened Encoding
  import opened PcapFormat
  import W = PcapWriter
  import R = PcapReader

  ghost predicate AllFit(packets: seq<Packet>)
  {
    forall i :: 0 <= i < |packets| ==> Fits(packets[i])
  }

  // A packet as it is read: the file has one link type, and may scale the fraction of a second.
  function SeenOne(network: nat, nsec: bool, p: Packet): Packet
  {
    Packet(network, p.sec, R.Scaled(nsec, p.usec), p.orig, p.data)
  }

  function Seen(network: nat, nsec: bool, packets: seq<Packet>): (s: seq<Packet>)
    ensures |s| == |packets| && forall i :: 0 <= i < |s| ==> s[i] == SeenOne(network, nsec, packets[i])
  {
    seq(|packets|, i requires 0 <= i < |packets| => SeenOne(network, nsec, packets[i]))
  }

  // ---- Reading records

  lemma RecordIsRead(s: R.State, p: Packet, rest: Bytes)
    requires Fits(p) && s.input == RecordBytes(s.order, p) + rest
    ensures R.ReadOne(s) == (Some(SeenOne(s.network, s.nsec, p)), rest)
  {
    Widths();
    var order := s.order;
    var sec, usec, len, orig := UInt(order, p.sec, 4), UInt(order, p.usec, 4), UInt(order, |p.data|, 4), UInt(order, p.orig, 4);
    FiveParts(sec, usec, len, orig, p.data, rest);
    UIntRoundTrip(order, p.sec, 4, usec + (len + (orig + (p.data + rest))));
    UIntRoundTrip(order, p.usec, 4, len + (orig + (p.data + rest)));
    UIntRoundTrip(order, |p.data|, 4, orig + (p.data + rest));
    UIntRoundTrip(order, p.orig, 4, p.data + rest);
    TakeExactly(p.data, rest);
  }

  lemma FiveParts(a: Bytes, b: Bytes, c: Bytes, d: Bytes, e: Bytes, rest: Bytes)
    ensures (a + (b + (c + (d + e)))) + rest == a + (b + (c + (d + (e + rest))))
  {
    Associates(a, b + (c + (d + e)), rest);
    Associates(b, c + (d + e), rest);
    Associates(c, d + e, rest);
    Associates(d, e, rest);
  }

  // Reading finds no whole record in these bytes, and swallows them.
  ghost predicate NoRecord(s: R.State, tail: Bytes)
  {
    R.ReadOne(s.(input := tail)) == (None, [])
  }

  // The reader stands before the records of some packets, and then no whole record.
  ghost predicate At(s: R.State, packets: seq<Packet>, tail: Bytes)
  {
    s.input == Records(s.order, packets) + tail && AllFit(packets) && NoRecord(s, tail)
  }

  lemma ReadsFirst(s: R.State, packets: seq<Packet>, tail: Bytes)
    requires At(s, packets, tail) && packets != []
    ensures var rest := Records(s.order, packets[1..]) + tail;
      && R.ReadOne(s) == (Some(SeenOne(s.network, s.nsec, packets[0])), rest)
      && At(s.(input := rest), packets[1..], tail)
  {
    Associates(RecordBytes(s.order, packets[0]), Records(s.order, packets[1..]), tail);
    RecordIsRead(s, packets[0], Records(s.order, packets[1..]) + tail);
  }

  lemma SeenFirst(network: nat, nsec: bool, done: seq<Packet>, packets: seq<Packet>)
    requires packets != []
    ensures done + Seen(network, nsec, packets)
      == (done + [SeenOne(network, nsec, packets[0])]) + Seen(network, nsec, packets[1..])
  {
  }

  lemma FirstAndRest(now: seq<Packet>, later: seq<Packet>)
    requires now != []
    ensures (now + later)[0] == now[0] && (now + later)[1..] == now[1..] + later
  {
  }

  // One turn for the first packet.
  lemma TakesFirst(s: R.State, done: seq<Packet>, packets: seq<Packet>, rest: seq<Packet>, tail: Bytes, k: nat, left: nat)
    requires At(s, packets, tail) && packets != [] && rest == packets[1..] && k > 0 && left == OneLess(k)
    ensures var next := s.(input := Records(s.order, rest) + tail);
      && At(next, rest, tail)
      && R.Gather(s, done, k) == R.Gather(next, done + [SeenOne(s.network, s.nsec, packets[0])], left)
  {
    ReadsFirst(s, packets, tail);
    R.GatherTakes(s, done, k, left, SeenOne(s.network, s.nsec, packets[0]), Records(s.order, rest) + tail);
  }

  // Enough packets for all the turns that are left.
  lemma {:induction false} GathersFull(s: R.State, done: seq<Packet>, now: seq<Packet>, later: seq<Packet>, tail: Bytes,
                                       k: nat)
    requires At(s, now + later, tail) && k == |now|
    ensures R.Gather(s, done, k) ==
      (Some(done + Seen(s.network, s.nsec, now)), s.(input := Records(s.order, later) + tail))
    decreases k
  {
    if now == [] {
      assert now + later == later && done + [] == done;
    } else {
      var left := OneLess(k);
      FirstAndRest(now, later);
      TakesFirst(s, done, now + later, now[1..] + later, tail, k, left);
      var next := s.(input := Records(s.order, now[1..] + later) + tail);
      GathersFull(next, done + [SeenOne(s.network, s.nsec, now[0])], now[1..], later, tail, left);
      SeenFirst(s.network, s.nsec, done, now);
    }
  }

  lemma NothingHasNoRecord(s: R.State)
    ensures NoRecord(s, [])
  {
  }

  // The turns after the last packet.
  lemma {:induction false} GathersNothing(s: R.State, done: seq<Packet>, k: nat)
    requires NoRecord(s, s.input)
    ensures done != [] && k > 0 ==> R.Gather(s, done, k) == (Some(done), s.(input := []))
    ensures done == [] && k > 0 ==> R.Gather(s, done, k) == (None, s.(input := []))
    decreases k
  {
    if k > 0 && done != [] {
      var next, left := s.(input := []), OneLess(k);
      R.GatherFails(s, done, k, left, []);
      NothingHasNoRecord(next);
      GathersNothing(next, done, left);
    }
  }

  lemma {:induction false} GathersRest(s: R.State, done: seq<Packet>, packets: seq<Packet>, tail: Bytes, k: nat)
    requires At(s, packets, tail) && |packets| < k && done + packets != []
    ensures R.Gather(s, done, k) == (Some(done + Seen(s.network, s.nsec, packets)), s.(input := []))
    decreases k
  {
    if packets == [] {
      assert [] + tail == tail;
      GathersNothing(s, done, k);
      assert done + [] == done;
    } else {
      var first, rest, left: nat := SeenOne(s.network, s.nsec, packets[0]), packets[1..], OneLess(k);
      var next := s.(input := Records(s.order, rest) + tail);
      TakesFirst(s, done, packets, rest, tail, k, left);
      GathersRest(next, done + [first], rest, tail, left);
      SeenFirst(s.network, s.nsec, done, packets);
    }
  }

  // ---- Reading blocks

  // Every block but the last is full, and none is empty.
  predicate Full(blocks: seq<seq<Packet>>)
  {
    forall i :: 0 <= i < |blocks| ==>
      0 < |blocks[i]| <= R.BLOCK_SIZE && (i < |blocks| - 1 ==> |blocks[i]| == R.BLOCK_SIZE)
  }

  lemma NoBlock(s: R.State)
    requires NoRecord(s, s.input)
    ensures R.Blocks(s) == []
  {
    GathersNothing(s, [], R.BLOCK_SIZE);
  }

  lemma ShortBlock(s: R.State, packets: seq<Packet>, tail: Bytes)
    requires At(s, packets, tail) && 0 < |packets| < R.BLOCK_SIZE
    ensures R.Blocks(s) == [Seen(s.network, s.nsec, packets)]
  {
    var all, next := Seen(s.network, s.nsec, packets), s.(input := []);
    GathersRest(s, [], packets, tail, R.BLOCK_SIZE);
    NothingHasNoRecord(next);
    NoBlock(next);
    assert [] + all == all;
    assert [all] + [] == [all];
  }

  lemma FullBlock(s: R.State, packets: seq<Packet>, tail: Bytes)
    requires At(s, packets, tail) && R.BLOCK_SIZE <= |packets|
    ensures R.Blocks(s) == [Seen(s.network, s.nsec, packets[..R.BLOCK_SIZE])]
      + R.Blocks(s.(input := Records(s.order, packets[R.BLOCK_SIZE..]) + tail))
  {
    var block := Seen(s.network, s.nsec, packets[..R.BLOCK_SIZE]);
    assert packets[..R.BLOCK_SIZE] + packets[R.BLOCK_SIZE..] == packets;
    GathersFull(s, [], packets[..R.BLOCK_SIZE], packets[R.BLOCK_SIZE..], tail, R.BLOCK_SIZE);
    assert [] + block == block;
  }

  lemma FullCons(block: seq<Packet>, more: seq<seq<Packet>>)
    requires |block| == R.BLOCK_SIZE && Full(more)
    ensures Full([block] + more)
  {
    var all := [block] + more;
    forall i | 0 <= i < |all|
      ensures 0 < |all[i]| <= R.BLOCK_SIZE && (i < |all| - 1 ==> |all[i]| == R.BLOCK_SIZE)
    {
      if i > 0 { assert all[i] == more[i - 1]; }
    }
  }

  lemma SeenJoins(network: nat, nsec: bool, packets: seq<Packet>, n: nat)
    requires n <= |packets|
    ensures Seen(network, nsec, packets[..n]) + Seen(network, nsec, packets[n..]) == Seen(network, nsec, packets)
  {
  }

  lemma {:induction false} BlocksAreSeen(s: R.State, packets: seq<Packet>, tail: Bytes)
    requires At(s, packets, tail)
    ensures Flatten(R.Blocks(s)) == Seen(s.network, s.nsec, packets) && Full(R.Blocks(s))
    decreases |packets|
  {
    if packets == [] {
      assert [] + tail == tail;
      NoBlock(s);
    } else if |packets| < R.BLOCK_SIZE {
      ShortBlock(s, packets, tail);
      OneBlock(Seen(s.network, s.nsec, packets));
    } else {
      var block, more := Seen(s.network, s.nsec, packets[..R.BLOCK_SIZE]), packets[R.BLOCK_SIZE..];
      var next := s.(input := Records(s.order, more) + tail);
      FullBlock(s, packets, tail);
      BlocksAreSeen(next, more, tail);
      FlattenAppend([block], R.Blocks(next));
      OneBlock(block);
      FullCons(block, R.Blocks(next));
      SeenJoins(s.network, s.nsec, packets, R.BLOCK_SIZE);
    }
  }

  lemma OneBlock(block: seq<Packet>)
    ensures Flatten([block]) == block
  {
    FlattenSnoc([], block);
    assert [] + [block] == [block] && [] + block == block;
  }

  // ---- Opening

  lemma KindOfMagic(order: Order, nsec: bool)
    ensures R.Kind(Magic(order, nsec)) == Some((order, nsec)) && Magic(order, nsec) < TWO_32
  {
  }

  lemma HeaderIsRead(order: Order, h: FileHeader, rest: Bytes)
    requires HeaderFits(h)
    ensures R.ReadHeader(order, HeaderBytes(order, h) + rest) == Got(h, rest)
  {
    Widths();
    var a, b, c := UInt(order, h.major, 2), UInt(order, h.minor, 2), UInt(order, h.zone, 4);
    var d, e, g := UInt(order, h.sigfigs, 4), UInt(order, h.snaplen, 4), UInt(order, h.network, 4);
    Associates(a, b + (c + (d + (e + g))), rest);
    FiveParts(b, c, d, e, g, rest);
    UIntRoundTrip(order, h.major, 2, b + (c + (d + (e + (g + rest)))));
    UIntRoundTrip(order, h.minor, 2, c + (d + (e + (g + rest))));
    UIntRoundTrip(order, h.zone, 4, d + (e + (g + rest)));
    UIntRoundTrip(order, h.sigfigs, 4, e + (g + rest));
    UIntRoundTrip(order, h.snaplen, 4, g + rest);
    UIntRoundTrip(order, h.network, 4, rest);
  }

  lemma Opens(order: Order, nsec: bool, h: FileHeader, packets: seq<Packet>, tail: Bytes)
    requires HeaderFits(h)
    ensures R.Open(FileBytes(order, nsec, h, packets) + tail)
      == Some(R.State(order, nsec, h.network, Records(order, packets) + tail))
  {
    var magic, header, records := Big(Magic(order, nsec), 4), HeaderBytes(order, h), Records(order, packets);
    Widths();
    KindOfMagic(order, nsec);
    Associates(magic, header + records, tail);
    Associates(header, records, tail);
    UIntRoundTrip(BigEndian, Magic(order, nsec), 4, header + (records + tail));
    HeaderIsRead(order, h, records + tail);
  }

  // The packets of a file, block by block; none when it cannot be opened.
  function PacketsOf(file: Bytes): seq<Packet>
  {
    if R.Open(file).None? then [] else Flatten(R.Blocks(R.Open(file).value))
  }

  /** Under each of the four magic numbers, reading gives the packets in order, with the link type of
      the file and the fraction of a second scaled to nanoseconds. */
  lemma AnyMagicReads(order: Order, nsec: bool, h: FileHeader, packets: seq<Packet>)
    requires HeaderFits(h) && AllFit(packets)
    ensures var file := FileBytes(order, nsec, h, packets);
      R.Open(file).Some? && Full(R.Blocks(R.Open(file).value)) && PacketsOf(file) == Seen(h.network, nsec, packets)
  {
    var file := FileBytes(order, nsec, h, packets);
    assert file + [] == file;
    NothingHasNoRecord(R.State(order, nsec, h.network, Records(order, packets) + []));
    TailIsIgnored(order, nsec, h, packets, []);
  }

  // Behind the packets there is no whole record.
  lemma TailIsIgnored(order: Order, nsec: bool, h: FileHeader, packets: seq<Packet>, tail: Bytes)
    requires HeaderFits(h) && AllFit(packets)
    requires NoRecord(R.State(order, nsec, h.network, Records(order, packets) + tail), tail)
    ensures var file := FileBytes(order, nsec, h, packets) + tail;
      R.Open(file).Some? && Full(R.Blocks(R.Open(file).value)) && PacketsOf(file) == Seen(h.network, nsec, packets)
  {
    Opens(order, nsec, h, packets, tail);
    BlocksAreSeen(R.State(order, nsec, h.network, Records(order, packets) + tail), packets, tail);
  }

  // ---- A file that is cut

  // A number and what follows it, cut.
  lemma CutField(order: Order, n: nat, rest: Bytes, m: nat)
    requires n < TWO_32 && m <= 4 + |rest|
    ensures |UInt(order, n, 4)| == 4
    ensures m < 4 ==> ReadUInt(order, (UInt(order, n, 4) + rest)[..m], 4).Bad?
    ensures m >= 4 ==> ReadUInt(order, (UInt(order, n, 4) + rest)[..m], 4) == Got(n, rest[..m - 4])
  {
    Widths();
    var b := UInt(order, n, 4);
    UIntRoundTrip(order, n, 4, []);
    if m >= 4 {
      assert (b + rest)[..m] == b + rest[..m - 4];
      UIntRoundTrip(order, n, 4, rest[..m - 4]);
    }
  }

  /** A record that is cut anywhere is no record, and the rest of the input is swallowed. */
  lemma CutRecordIsNone(s: R.State, p: Packet, m: nat)
    requires Fits(p) && m < |RecordBytes(s.order, p)|
    ensures NoRecord(s, RecordBytes(s.order, p)[..m])
  {
    var usec, len, orig := UInt(s.order, p.usec, 4), UInt(s.order, |p.data|, 4), UInt(s.order, p.orig, 4);
    CutField(s.order, p.orig, p.data, 0);
    CutField(s.order, |p.data|, orig + p.data, 0);
    CutField(s.order, p.usec, len + (orig + p.data), 0);
    CutField(s.order, p.sec, usec + (len + (orig + p.data)), m);
    if m >= 4 { CutField(s.order, p.usec, len + (orig + p.data), m - 4); }
    if m >= 8 { CutField(s.order, |p.data|, orig + p.data, m - 8); }
    if m >= 12 { CutField(s.order, p.orig, p.data, m - 12); }
  }

  lemma CutTail(a: Bytes, b: Bytes, n: nat)
    requires |a| <= n <= |a + b|
    ensures (a + b)[..n] == a + b[..n - |a|]
  {
  }

  lemma FileGrows(order: Order, nsec: bool, h: FileHeader, packets: seq<Packet>, p: Packet)
    ensures FileBytes(order, nsec, h, packets + [p]) == FileBytes(order, nsec, h, packets) + RecordBytes(order, p)
  {
    var magic, header, records := Big(Magic(order, nsec), 4), HeaderBytes(order, h), Records(order, packets);
    W.RecordsSnoc(order, packets, p);
    Associates(header, records, RecordBytes(order, p));
    Associates(magic, header + records, RecordBytes(order, p));
  }

  /** A file cut inside its last record reads as the packets before it, and then ends. */
  lemma CutFileReads(order: Order, nsec: bool, h: FileHeader, packets: seq<Packet>, p: Packet, n: nat)
    requires HeaderFits(h) && AllFit(packets) && Fits(p)
    requires |FileBytes(order, nsec, h, packets)| <= n < |FileBytes(order, nsec, h, packets + [p])|
    ensures var file := FileBytes(order, nsec, h, packets + [p])[..n];
      R.Open(file).Some? && Full(R.Blocks(R.Open(file).value)) && PacketsOf(file) == Seen(h.network, nsec, packets)
  {
    var tail := CutIsTail(order, nsec, h, packets, p, n);
    TailIsIgnored(order, nsec, h, packets, tail);
  }

  // What is left of the last record.
  lemma CutIsTail(order: Order, nsec: bool, h: FileHeader, packets: seq<Packet>, p: Packet, n: nat) returns (tail: Bytes)
    requires Fits(p)
    requires |FileBytes(order, nsec, h, packets)| <= n < |FileBytes(order, nsec, h, packets + [p])|
    ensures FileBytes(order, nsec, h, packets + [p])[..n] == FileBytes(order, nsec, h, packets) + tail
    ensures NoRecord(R.State(order, nsec, h.network, Records(order, packets) + tail), tail)
  {
    var m: nat := n - |FileBytes(order, nsec, h, packets)|;
    FileGrows(order, nsec, h, packets, p);
    CutTail(FileBytes(order, nsec, h, packets), RecordBytes(order, p), n);
    tail := RecordBytes(order, p)[..m];
    CutRecordIsNone(R.State(order, nsec, h.network, Records(order, packets) + tail), p, m);
  }

  // The packets in nanoseconds.
  function InNanoseconds(packets: seq<Packet>): (s: seq<Packet>)
    ensures |s| == |packets|
    ensures forall i :: 0 <= i < |s| ==> s[i] == packets[i].(usec := packets[i].usec * 1000)
  {
    seq(|packets|, i requires 0 <= i < |packets| => packets[i].(usec := packets[i].usec * 1000))
  }

  lemma NanosecondsAreSeen(network: nat, packets: seq<Packet>)
    requires forall i :: 0 <= i < |packets| ==> packets[i].usec * 1000 < TWO_32
    ensures Seen(network, true, InNanoseconds(packets)) == Seen(network, false, packets)
  {
  }

  lemma NanosecondsFit(packets: seq<Packet>)
    requires AllFit(packets)
    requires forall i :: 0 <= i < |packets| ==> packets[i].usec * 1000 < TWO_32
    ensures AllFit(InNanoseconds(packets))
  {
  }

  /** The same records read alike under all four magic numbers, if the microseconds fit in 32 bits as nanoseconds:
      Seen does not depend on the byte order. */
  lemma MagicsReadAlike(h: FileHeader, packets: seq<Packet>, order: Order, other: Order)
    requires HeaderFits(h) && AllFit(packets)
    requires forall i :: 0 <= i < |packets| ==> packets[i].usec * 1000 < TWO_32
    ensures PacketsOf(FileBytes(order, false, h, packets)) == PacketsOf(FileBytes(other, true, h, InNanoseconds(packets)))
    ensures PacketsOf(FileBytes(order, false, h, packets)) == PacketsOf(FileBytes(other, false, h, packets))
  {
    NanosecondsFit(packets);
    NanosecondsAreSeen(h.network, packets);
    AnyMagicReads(order, false, h, packets);
    AnyMagicReads(other, false, h, packets);
    AnyMagicReads(other, true, h, InNanoseconds(packets));
  }

  // ---- The writer's file

  function OneLink(packets: seq<Packet>): seq<Packet>
    requires packets != []
  {
    Seen(packets[0].link, true, packets)
  }

  lemma MagicAlone()
    ensures R.Open(W.MAGIC).None?
  {
    W.MagicBytes();
    Widths();
    UIntRoundTrip(BigEndian, Magic(LittleEndian, true), 4, []);
    assert W.MAGIC + [] == W.MAGIC;
  }

  /** What was written is read back, and then the end of the file; a file opens exactly if it holds a
      packet, and the link types come back exactly if they are all the same. */
  lemma PcapRoundTrip(f: Floats, stacks: seq<seq<Layer>>)
    requires AllFit(W.Written(f, stacks))
    ensures var file, packets := W.WriteAll(f, stacks).out, W.Written(f, stacks);
      && (R.Open(file).Some? <==> packets != [])
      && (packets != [] ==>
          && Full(R.Blocks(R.Open(file).value))
          && PacketsOf(file) == OneLink(packets)
          && (PacketsOf(file) == packets <==> forall i :: 0 <= i < |packets| ==> packets[i].link == packets[0].link))
  {
    var packets := W.Written(f, stacks);
    W.WritesFile(f, stacks);
    if packets == [] {
      MagicAlone();
    } else {
      AnyMagicReads(LittleEndian, true, W.FirstHeader(packets[0].link), packets);
      LinksDecide(packets);
    }
  }

  lemma LinksDecide(packets: seq<Packet>)
    requires packets != []
    ensures OneLink(packets) == packets <==> forall i :: 0 <= i < |packets| ==> packets[i].link == packets[0].link
  {
    var one := OneLink(packets);
    if one == packets {
      forall i | 0 <= i < |packets| ensures packets[i].link == packets[0].link { assert one[i].link == packets[0].link; }
    }
  }

  // Each packet as a frame of one layer, as the reader hands it on.
  function Stacks(stamp: (nat, nat) -> nat, link: nat -> string, packets: seq<Packet>): (s: seq<seq<Layer>>)
    ensures |s| == |packets|
  {
    if packets == [] then []
    else Stacks(stamp, link, packets[..|packets| - 1]) + [[LayerOf(stamp, link, packets[|packets| - 1])]]
  }

  lemma WritesOneMore(f: Floats, stacks: seq<seq<Layer>>, l: Layer, p: Packet)
    requires PacketOf(f, l) == Some(p)
    ensures W.Written(f, stacks + [[l]]) == W.Written(f, stacks) + [p]
  {
    assert (stacks + [[l]])[..|stacks|] == stacks;
  }

  /** Writing what was read gives the packets that were read. */
  lemma {:induction false} RewritesPackets(f: Floats, stamp: (nat, nat) -> nat, link: nat -> string, packets: seq<Packet>)
    requires AllFit(packets)
    ensures W.Written(f, Stacks(stamp, link, packets)) == packets
  {
    if packets != [] {
      var init, p := packets[..|packets| - 1], packets[|packets| - 1];
      RewritesPackets(f, stamp, link, init);
      PacketOfLayer(f, stamp, link, p);
      WritesOneMore(f, Stacks(stamp, link, init), LayerOf(stamp, link, p), p);
      assert init + [p] == packets;
    }
  }

  /** A file that was read and written again is the same file. */
  lemma CopyIsTheFile(f: Floats, stamp: (nat, nat) -> nat, link: nat -> string, stacks: seq<seq<Layer>>)
    requires AllFit(W.Written(f, stacks)) && W.Written(f, stacks) != []
    requires forall i :: 0 <= i < |W.Written(f, stacks)| ==> W.Written(f, stacks)[i].link == W.Written(f, stacks)[0].link
    ensures var file := W.WriteAll(f, stacks).out; W.WriteAll(f, Stacks(stamp, link, PacketsOf(file))).out == file
  {
    PcapRoundTrip(f, stacks);
    var packets := W.Written(f, stacks);
    RewritesPackets(f, stamp, link, packets);
    W.WritesFile(f, stacks);
    W.WritesFile(f, Stacks(stamp, link, packets));
  }

  /** Two frames with different link types: the second comes back with the type of the first. */
  lemma SecondLinkIsLost(f: Floats, stamp: (nat, nat) -> nat, link: nat -> string)
    ensures var p, q := Packet(1, 0, 0, 0, []), Packet(105, 0, 0, 0, []);
      var stacks := [[LayerOf(stamp, link, p)], [LayerOf(stamp, link, q)]];
      PacketsOf(W.WriteAll(f, stacks).out) == [p, q.(link := 1)]
  {
    var p, q := Packet(1, 0, 0, 0, []), Packet(105, 0, 0, 0, []);
    var packets := [p, q];
    var stacks := [[LayerOf(stamp, link, p)], [LayerOf(stamp, link, q)]];
    assert packets[..1] == [p] && [p][..0] == [];
    assert Stacks(stamp, link, []) == [];
    assert Stacks(stamp, link, [p]) == [] + [[LayerOf(stamp, link, p)]];
    assert Stacks(stamp, link, packets) == stacks;
    RewritesPackets(f, stamp, link, packets);
    PcapRoundTrip(f, stacks);
    assert OneLink(packets) == [p, q.(link := 1)];
  }
}
