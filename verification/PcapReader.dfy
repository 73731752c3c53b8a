// The reader of pcap files (package/pcap-file/reader/src/lib.rs).
module PcapReader {
  import opened Base
  import opened Frames
  import opened Encoding
  import opened PcapFormat

  const BLOCK_SIZE: nat := 65535

  datatype State = State(order: Order, nsec: bool, network: nat, input: Bytes)

  // ---- Opening

  function Kind(magic: nat): Option<(Order, bool)>
  {
    if magic == 0xd4c3_b2a1 then Some((LittleEndian, false))
    else if magic == 0xa1b2_c3d4 then Some((BigEndian, false))
    else if magic == 0x4d3c_b2a1 then Some((LittleEndian, true))
    else if magic == 0xa1b2_3c4d then Some((BigEndian, true))
    else None
  }

  function ReadHeader(order: Order, b: Bytes): Decoded<FileHeader>
  {
    var major := ReadUInt(order, b, 2);
    if major.Bad? then Bad else
    var minor := ReadUInt(order, major.rest, 2);
    if minor.Bad? then Bad else
    var zone := ReadUInt(order, minor.rest, 4);
    if zone.Bad? then Bad else
    var sigfigs := ReadUInt(order, zone.rest, 4);
    if sigfigs.Bad? then Bad else
    var snaplen := ReadUInt(order, sigfigs.rest, 4);
    if snaplen.Bad? then Bad else
    var network := ReadUInt(order, snaplen.rest, 4);
    if network.Bad? then Bad else
    Got(FileHeader(major.value, minor.value, zone.value, sigfigs.value, snaplen.value, network.value), network.rest)
  }

  // None is an error: too few bytes or a wrong magic number.
  function Open(file: Bytes): Option<State>
  {
    var magic := ReadUInt(BigEndian, file, 4);
    if magic.Bad? then None
    else
      var kind := Kind(magic.value);
      if kind.None? then None
      else
        var h := ReadHeader(kind.value.0, magic.rest);
        if h.Bad? then None
        else Some(State(kind.value.0, kind.value.1, h.value.network, h.rest))
  }

  // ---- One record

  // The scaled fraction wraps around at 32 bits.
  function Scaled(nsec: bool, usec: nat): nat
  {
    if nsec then usec else usec * 1000 % TWO_32
  }

  // A read that finds too little swallows what is left.
  function ReadOne(s: State): (r: (Option<Packet>, Bytes))
    ensures |r.1| <= |s.input| && (r.0.Some? ==> |r.1| < |s.input|)
  {
    var sec := ReadUInt(s.order, s.input, 4);
    if sec.Bad? then (None, []) else
    var usec := ReadUInt(s.order, sec.rest, 4);
    if usec.Bad? then (None, []) else
    var len := ReadUInt(s.order, usec.rest, 4);
    if len.Bad? then (None, []) else
    var orig := ReadUInt(s.order, len.rest, 4);
    if orig.Bad? then (None, []) else
    var data := Take(orig.rest, len.value);
    if data.Bad? then (None, []) else
    (Some(Packet(s.network, sec.value, Scaled(s.nsec, usec.value), orig.value, data.value)), data.rest)
  }

  // ---- A block

  // The rest of the loop: k more turns after the packets so far. An error counts only while there are none.
  function Gather(s: State, packets: seq<Packet>, k: nat): (r: (Option<seq<Packet>>, State))
    ensures |r.1.input| <= |s.input|
    ensures r.0.Some? && |r.0.value| > |packets| ==> |r.1.input| < |s.input|
    ensures r.0.Some? ==> |packets| <= |r.0.value| && (k > 0 ==> r.0.value != [])
    decreases k, s.input
  {
    if k == 0 then (Some(packets), s)
    else
      var (p, rest) := ReadOne(s);
      var next := s.(input := rest);
      if p.Some? then Gather(next, packets + [p.value], OneLess(k))
      else if packets == [] then (None, next)
      else Gather(next, packets, OneLess(k))
  }

  lemma GatherTakes(s: State, packets: seq<Packet>, k: nat, left: nat, p: Packet, rest: Bytes)
    requires k > 0 && left == OneLess(k) && ReadOne(s) == (Some(p), rest)
    ensures Gather(s, packets, k) == Gather(s.(input := rest), packets + [p], left)
  {
  }

  lemma GatherFails(s: State, packets: seq<Packet>, k: nat, left: nat, rest: Bytes)
    requires k > 0 && left == OneLess(k) && ReadOne(s) == (None, rest)
    ensures Gather(s, packets, k) ==
      if packets == [] then (None, s.(input := rest)) else Gather(s.(input := rest), packets, left)
  {
  }

  class Worker {
    var state: State

    constructor (s: State)
      ensures state == s
    {
      state := s;
    }

    // None is the error at the end of the file.
    method Read() returns (block: Option<seq<Packet>>)
      modifies this
      ensures (block, state) == Gather(old(state), [], BLOCK_SIZE)
    {
      var packets, k := [], 0;
      ghost var whole := Gather(state, [], BLOCK_SIZE);
      Gathered(state, [], BLOCK_SIZE, whole);
      while k < BLOCK_SIZE
        invariant 0 <= k <= BLOCK_SIZE
        invariant Gathers(state, packets, BLOCK_SIZE - k, whole)
      {
        GatherStep(state, packets, BLOCK_SIZE - k, whole);
        var (p, rest) := ReadOne(state);
        state := state.(input := rest);
        if p.Some? {
          packets := packets + [p.value];
        } else if packets == [] {
          return None;
        }
        k := k + 1;
      }
      Gathered(state, packets, 0, whole);
      block := Some(packets);
    }
  }

  // The result of the loop is that of k more turns. It is stated behind a quantifier, so that the prover does not
  // unfold the recursion in every turn of the loop; Gathered opens it.
  ghost predicate Gathers(s: State, packets: seq<Packet>, k: nat, whole: (Option<seq<Packet>>, State))
  {
    forall n: nat {:trigger Turns(n)} :: Turns(n) && n == k ==> whole == Gather(s, packets, n)
  }

  // Always true: the trigger that opens Gathers.
  predicate Turns(n: nat) { true }

  lemma Gathered(s: State, packets: seq<Packet>, k: nat, whole: (Option<seq<Packet>>, State))
    ensures Gathers(s, packets, k, whole) <==> whole == Gather(s, packets, k)
  {
    assert Turns(k);
  }

  lemma GatherStep(s: State, packets: seq<Packet>, k: nat, whole: (Option<seq<Packet>>, State))
    requires k > 0 && Gathers(s, packets, k, whole)
    ensures var (p, rest) := ReadOne(s);
      var next := s.(input := rest);
      if p.Some? then Gathers(next, packets + [p.value], k - 1, whole)
      else if packets == [] then whole == (None, next)
      else Gathers(next, packets, k - 1, whole)
  {
    var (p, rest) := ReadOne(s);
    if p.Some? { PacketGathered(s, packets, k, OneLess(k), whole, p.value, rest); }
    else { FailureGathered(s, packets, k, OneLess(k), whole, rest); }
  }

  lemma PacketGathered(s: State, packets: seq<Packet>, k: nat, left: nat, whole: (Option<seq<Packet>>, State),
                       p: Packet, rest: Bytes)
    requires k > 0 && left == OneLess(k) && Gathers(s, packets, k, whole) && ReadOne(s) == (Some(p), rest)
    ensures Gathers(s.(input := rest), packets + [p], left, whole)
  {
    Gathered(s, packets, k, whole);
    GatherTakes(s, packets, k, left, p, rest);
    Gathered(s.(input := rest), packets + [p], left, whole);
  }

  lemma FailureGathered(s: State, packets: seq<Packet>, k: nat, left: nat, whole: (Option<seq<Packet>>, State),
                        rest: Bytes)
    requires k > 0 && left == OneLess(k) && Gathers(s, packets, k, whole) && ReadOne(s) == (None, rest)
    ensures var next := s.(input := rest);
      if packets == [] then whole == (None, next) else Gathers(next, packets, left, whole)
  {
    Gathered(s, packets, k, whole);
    GatherFails(s, packets, k, left, rest);
    Gathered(s.(input := rest), packets, left, whole);
  }

  // What read returns, again and again until it fails.
  function Blocks(s: State): seq<seq<Packet>>
    decreases |s.input|
  {
    var (block, next) := Gather(s, [], BLOCK_SIZE);
    if block.None? then [] else [block.value] + Blocks(next)
  }
}
