// The reassembly buffer of the TCP stream decoder (package/tcp/tcp-stream/src/lib.rs).
module TcpStream {
  import opened Base

  // The value of a Stream: how many bytes were handed out, and the segments still waiting by position.
  datatype Buffer = Buffer(offset: nat, slices: map<nat, Bytes>)

  const EMPTY := Buffer(0, map[])

  function PutSpec(b: Buffer, start: nat, data: Bytes): Buffer
  {
    if |data| > 0 then b.(slices := b.slices[start := data]) else b
  }

  // Takes the leading segment for as long as it starts at the offset.
  function FetchSpec(b: Buffer): (Buffer, seq<Bytes>)
    decreases |b.slices|
  {
    if b.slices == map[] || MinKey(b.slices) != b.offset then (b, [])
    else
      var data := b.slices[b.offset];
      assert |b.slices - {b.offset}| < |b.slices| by { Shrinks(b.slices, b.offset); }
      var (last, more) := FetchSpec(Buffer(b.offset + |data|, b.slices - {b.offset}));
      (last, [data] + more)
  }

  lemma Shrinks<V>(m: map<nat, V>, k: nat)
    requires k in m
    ensures |m - {k}| < |m|
  {
    assert (m - {k}).Keys == m.Keys - {k};
    assert m.Keys == (m - {k}).Keys + {k};
    assert |(m - {k}).Keys| == |m - {k}| && |m.Keys| == |m|;
  }

  // The buffer after one turn of the fetch loop that takes a segment.
  function Taken(b: Buffer): Buffer
    requires b.offset in b.slices
  {
    Buffer(b.offset + |b.slices[b.offset]|, b.slices - {b.offset})
  }

  predicate CanTake(b: Buffer)
  {
    b.slices != map[] && MinKey(b.slices) == b.offset
  }

  lemma FetchStep(b: Buffer)
    requires CanTake(b)
    ensures FetchSpec(b) == (FetchSpec(Taken(b)).0, [b.slices[b.offset]] + FetchSpec(Taken(b)).1)
  {
  }

  class Stream {
    var offset: nat
    var slices: map<nat, Bytes>

    ghost function Value(): Buffer
      reads this
    {
      Buffer(offset, slices)
    }

    constructor ()
      ensures Value() == EMPTY
    {
      offset, slices := 0, map[];
    }

    // The scan after the insertion in the source has an empty body and no effect.
    method Put(start: nat, data: Bytes)
      modifies this
      ensures Value() == PutSpec(old(Value()), start, data)
    {
      if |data| > 0 {
        slices := slices[start := data];
      }
    }

    method Fetch() returns (fetched: seq<Bytes>)
      modifies this
      ensures (Value(), fetched) == FetchSpec(old(Value()))
    {
      fetched := [];
      ghost var start, b := Value(), Value();
      while slices != map[]
        invariant b == Value()
        invariant FetchSpec(start).0 == FetchSpec(b).0
        invariant FetchSpec(start).1 == fetched + FetchSpec(b).1
        decreases |slices|
      {
        var pos := MinKey(slices);
        if pos != offset {
          break;
        }
        Shrinks(slices, pos);
        FetchStep(b);
        offset, fetched := offset + |slices[pos]|, fetched + [slices[pos]];
        slices := slices - {pos};
        b := Taken(b);
      }
      assert FetchSpec(b) == (b, []) && fetched + [] == fetched;
    }
  }

  // What a worker does to a stream over its life: puts in any order, fetches anywhere between them.
  datatype Op = Put(start: nat, data: Bytes) | Fetch

  function Apply(b: Buffer, op: Op): (Buffer, Bytes)
  {
    match op
    case Put(start, data) => (PutSpec(b, start, data), [])
    case Fetch => var (last, fetched) := FetchSpec(b); (last, Flatten(fetched))
  }

  // The buffer after some operations, and all bytes fetched so far, in order.
  function Play(ops: seq<Op>): (Buffer, Bytes)
  {
    if ops == [] then (EMPTY, [])
    else
      var (b, delivered) := Play(ops[..|ops| - 1]);
      var (b', more) := Apply(b, ops[|ops| - 1]);
      (b', delivered + more)
  }

  // The operation carries a non-empty piece of the byte stream at its own position.
  predicate PieceOf(op: Op, stream: Bytes)
  {
    op.Put? ==>
      0 < |op.data| && op.start + |op.data| <= |stream| && op.data == stream[op.start..op.start + |op.data|]
  }

  predicate Apart(p: Op, q: Op)
  {
    p.Put? && q.Put? ==> p.start + |p.data| <= q.start || q.start + |q.data| <= p.start
  }

  // All puts carry pieces of one stream and no byte is put twice.
  predicate Segments(ops: seq<Op>, stream: Bytes)
  {
    && (forall i :: 0 <= i < |ops| ==> PieceOf(ops[i], stream))
    && (forall i, j :: 0 <= i < j < |ops| ==> Apart(ops[i], ops[j]))
  }

  predicate Carries(op: Op, x: nat)
  {
    op.Put? && op.start <= x < op.start + |op.data|
  }

  // Some put carried the byte at position x.
  ghost predicate Received(ops: seq<Op>, x: nat)
  {
    exists i :: 0 <= i < |ops| && Carries(ops[i], x)
  }

  // A put was either delivered completely or waits, unchanged, under its own position.
  predicate Accounted(op: Op, b: Buffer)
  {
    op.Put? ==>
      if op.start < b.offset then op.start + |op.data| <= b.offset
      else op.start in b.slices && b.slices[op.start] == op.data
  }

  // The delivered bytes are the stream up to the offset, no pending key lies below
  // it, and the buffer holds exactly the puts that are not delivered.
  ghost predicate Reassembled(ops: seq<Op>, stream: Bytes, b: Buffer, delivered: Bytes)
  {
    && b.offset <= |stream|
    && delivered == stream[..b.offset]
    && (forall k :: k in b.slices ==> b.offset <= k && Op.Put(k, b.slices[k]) in ops)
    && (forall i :: 0 <= i < |ops| ==> Accounted(ops[i], b))
    && (forall x: nat :: x < b.offset ==> Received(ops, x))
  }

  lemma FetchUnfolds(b: Buffer, delivered: Bytes)
    requires CanTake(b)
    ensures FetchSpec(b).0 == FetchSpec(Taken(b)).0
    ensures delivered + Flatten(FetchSpec(b).1) == delivered + b.slices[b.offset] + Flatten(FetchSpec(Taken(b)).1)
  {
    FlattenCons(b.slices[b.offset], FetchSpec(Taken(b)).1);
  }

  lemma {:induction false} FetchReassembles(ops: seq<Op>, stream: Bytes, b: Buffer, delivered: Bytes)
    requires Segments(ops, stream) && Reassembled(ops, stream, b, delivered)
    ensures Reassembled(ops, stream, FetchSpec(b).0, delivered + Flatten(FetchSpec(b).1))
    ensures FetchSpec(b).0.offset !in FetchSpec(b).0.slices
    decreases |b.slices|
  {
    if CanTake(b) {
      Shrinks(b.slices, b.offset);
      TakeReassembles(ops, stream, b, delivered);
      FetchReassembles(ops, stream, Taken(b), delivered + b.slices[b.offset]);
      FetchUnfolds(b, delivered);
    } else {
      assert FetchSpec(b) == (b, []);
      assert delivered + Flatten<byte>([]) == delivered;
    }
  }

  lemma TakeReassembles(ops: seq<Op>, stream: Bytes, b: Buffer, delivered: Bytes)
    requires Segments(ops, stream) && Reassembled(ops, stream, b, delivered)
    requires b.offset in b.slices
    ensures Reassembled(ops, stream, Taken(b), delivered + b.slices[b.offset])
  {
    var data := b.slices[b.offset];
    var next := Buffer(b.offset + |data|, b.slices - {b.offset});
    var h :| 0 <= h < |ops| && ops[h] == Op.Put(b.offset, data);
    assert PieceOf(ops[h], stream);
    forall i | 0 <= i < |ops| ensures Accounted(ops[i], next) {
      TakeAccounts(ops, stream, b, h, i);
    }
    forall k | k in next.slices ensures next.offset <= k {
      var i :| 0 <= i < |ops| && ops[i] == Op.Put(k, b.slices[k]);
      AboveTaken(ops, stream, b, h, i);
    }
    forall x: nat | x < next.offset ensures Received(ops, x) {
      if x >= b.offset {
        assert Carries(ops[h], x);
      }
    }
    assert stream[..b.offset] + data == stream[..next.offset];
  }

  // Taking the segment at the offset, which is operation h, accounts for every operation.
  lemma TakeAccounts(ops: seq<Op>, stream: Bytes, b: Buffer, h: nat, i: nat)
    requires Segments(ops, stream) && b.offset in b.slices && h < |ops| && i < |ops|
    requires ops[h] == Op.Put(b.offset, b.slices[b.offset]) && Accounted(ops[i], b)
    ensures Accounted(ops[i], Taken(b))
  {
    assert PieceOf(ops[i], stream);
    if i != h {
      assert Apart(ops[Min(i, h)], ops[Max(i, h)]);
    }
  }

  // Whatever else waits above the offset lies beyond the segment at the offset.
  lemma AboveTaken(ops: seq<Op>, stream: Bytes, b: Buffer, h: nat, i: nat)
    requires Segments(ops, stream) && b.offset in b.slices && h < |ops| && i < |ops|
    requires ops[h] == Op.Put(b.offset, b.slices[b.offset])
    requires ops[i].Put? && ops[i].start > b.offset
    ensures Taken(b).offset <= ops[i].start
  {
    assert PieceOf(ops[i], stream) && Apart(ops[Min(i, h)], ops[Max(i, h)]);
  }

  lemma FlattenCons<T>(s: seq<T>, ss: seq<seq<T>>)
    ensures Flatten([s] + ss) == s + Flatten(ss)
  {
    FlattenAppend([s], ss);
    assert [s][..0] == [] && Flatten([s]) == s;
  }

  lemma PlayOneMore(init: seq<Op>, op: Op)
    ensures var (b, delivered) := Play(init);
      Play(init + [op]) == (Apply(b, op).0, delivered + Apply(b, op).1)
  {
    assert (init + [op])[..|init|] == init;
  }

  lemma OneMoreReassembles(init: seq<Op>, op: Op, stream: Bytes)
    requires Segments(init + [op], stream) && Reassembled(init, stream, Play(init).0, Play(init).1)
    ensures Reassembled(init + [op], stream, Play(init + [op]).0, Play(init + [op]).1)
    ensures op.Fetch? ==> Play(init + [op]).0.offset !in Play(init + [op]).0.slices
  {
    var (b, delivered) := Play(init);
    PlayOneMore(init, op);
    StepReassembles(init, op, stream, b, delivered);
    if op.Fetch? {
      FetchReassembles(init + [op], stream, b, delivered);
    } else {
      assert delivered + [] == delivered;
    }
  }

  /** In any order of puts, with fetches anywhere between them, the fetched bytes are the stream up to
      the offset, and what is pending is exactly what was put beyond it. */
  lemma {:induction false} PlayReassembles(ops: seq<Op>, stream: Bytes)
    requires Segments(ops, stream)
    ensures Reassembled(ops, stream, Play(ops).0, Play(ops).1)
    ensures ops != [] && ops[|ops| - 1].Fetch? ==> Play(ops).0.offset !in Play(ops).0.slices
  {
    if ops != [] {
      var init, op := ops[..|ops| - 1], ops[|ops| - 1];
      PrefixSegments(ops, stream);
      PlayReassembles(init, stream);
      assert ops == init + [op];
      OneMoreReassembles(init, op, stream);
    }
  }

  lemma PrefixSegments(ops: seq<Op>, stream: Bytes)
    requires ops != [] && Segments(ops, stream)
    ensures Segments(ops[..|ops| - 1], stream)
  {
    var init := ops[..|ops| - 1];
    assert forall i :: 0 <= i < |init| ==> init[i] == ops[i];
  }

  // Recording one more operation, a put being added to the pending segments.
  lemma StepReassembles(init: seq<Op>, op: Op, stream: Bytes, b: Buffer, delivered: Bytes)
    requires Segments(init + [op], stream) && Reassembled(init, stream, b, delivered)
    ensures var b' := if op.Put? then PutSpec(b, op.start, op.data) else b;
      Reassembled(init + [op], stream, b', delivered)
  {
    var ops := init + [op];
    var b' := if op.Put? then PutSpec(b, op.start, op.data) else b;
    assert ops[|init|] == op && PieceOf(ops[|init|], stream);
    forall i | 0 <= i < |init|
      ensures Apart(init[i], op) && PieceOf(init[i], stream) && Accounted(init[i], b)
    {
      assert ops[i] == init[i] && Apart(ops[i], ops[|init|]) && PieceOf(ops[i], stream);
    }
    if op.Put? {
      PutIsNew(init, op, b);
    }
    forall i | 0 <= i < |ops| ensures Accounted(ops[i], b') {
      if i < |init| {
        assert ops[i] == init[i] && Accounted(init[i], b);
      }
    }
    forall x: nat | x < b.offset ensures Received(ops, x) {
      assert Received(init, x);
      var i :| 0 <= i < |init| && Carries(init[i], x);
      assert Carries(ops[i], x);
    }
    assert forall p :: p in init ==> p in ops;
    assert op in ops;
  }

  lemma PutIsNew(init: seq<Op>, op: Op, b: Buffer)
    requires op.Put? && |op.data| > 0
    requires forall i :: 0 <= i < |init| ==> Apart(init[i], op) && (init[i].Put? ==> |init[i].data| > 0)
    requires forall k :: k in b.slices ==> Op.Put(k, b.slices[k]) in init
    requires forall x: nat :: x < b.offset ==> Received(init, x)
    ensures b.offset <= op.start && op.start !in b.slices
    ensures forall i :: 0 <= i < |init| && init[i].Put? ==> init[i].start != op.start
  {
    forall i | 0 <= i < |init| ensures !Carries(init[i], op.start) {
      assert Apart(init[i], op);
    }
    assert !Received(init, op.start);
  }

  /** A fetch stops only at a real gap: right after it, the next byte of the stream was never put. */
  lemma FetchStopsAtGap(ops: seq<Op>, stream: Bytes)
    requires Segments(ops, stream)
    requires ops != [] && ops[|ops| - 1].Fetch?
    ensures !Received(ops, Play(ops).0.offset)
  {
    PlayReassembles(ops, stream);
    var end := Play(ops).0;
    forall i | 0 <= i < |ops| ensures !Carries(ops[i], end.offset) {
      assert Accounted(ops[i], end);
    }
  }

  /** Once every byte was put, a final fetch has delivered the whole stream and nothing is pending. */
  lemma CoveredStreamIsDelivered(ops: seq<Op>, stream: Bytes)
    requires Segments(ops, stream)
    requires ops != [] && ops[|ops| - 1].Fetch?
    requires forall x: nat :: x < |stream| ==> Received(ops, x)
    ensures Play(ops) == (Buffer(|stream|, map[]), stream)
  {
    PlayReassembles(ops, stream);
    FetchStopsAtGap(ops, stream);
    var b := Play(ops).0;
    assert b.offset == |stream|;
    assert stream[..|stream|] == stream;
    assert b.slices == map[];
  }

  // A pending segment starts below the offset: inside what was already delivered.
  ghost predicate Stale(b: Buffer)
  {
    exists k :: k in b.slices && k < b.offset
  }

  /** A fetch hands out bytes exactly when a segment waits at the offset and nothing waits below it. */
  lemma FetchDeliversIff(b: Buffer)
    ensures FetchSpec(b).1 != [] <==> b.offset in b.slices && !Stale(b)
  {
    if b.slices != map[] && MinKey(b.slices) < b.offset {
      assert Stale(b);
    }
  }

  /** A stale segment is never removed: from then on nothing is delivered, whatever else is put. */
  lemma {:induction false} StaleBlocksForever(ops: seq<Op>, more: seq<Op>)
    requires Stale(Play(ops).0)
    ensures Stale(Play(ops + more).0) && Play(ops + more).1 == Play(ops).1
  {
    if more == [] {
      assert ops + more == ops;
    } else {
      var init, op := more[..|more| - 1], more[|more| - 1];
      StaleBlocksForever(ops, init);
      assert (ops + more)[..|ops + more| - 1] == ops + init;
      var (b, delivered) := Play(ops + init);
      assert Play(ops + more) == (Apply(b, op).0, delivered + Apply(b, op).1);
      var k :| k in b.slices && k < b.offset;
      if op.Put? {
        assert k in PutSpec(b, op.start, op.data).slices;
      } else {
        FetchDeliversIff(b);
        assert FetchSpec(b).0 == b;
      }
    }
  }
}
