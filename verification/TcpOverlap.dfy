// Overlapping and repeated segments: exactly when they block a stream, and what is delivered nevertheless.
module TcpOverlap {
  import opened Base
  import opened TcpStream

  // ---- One operation

  /** A put below the offset, and no other, makes a buffer stale. */
  lemma PutGoesStaleIff(b: Buffer, start: nat, data: Bytes)
    requires !Stale(b)
    ensures Stale(PutSpec(b, start, data)) <==> data != [] && start < b.offset
  {
    var after := PutSpec(b, start, data);
    if data != [] && start < b.offset {
      assert start in after.slices;
    }
    if Stale(after) {
      var k :| k in after.slices && k < after.offset;
      assert k == start || k in b.slices;
    }
  }

  // No empty segment is ever filed.
  predicate Solid(slices: map<nat, Bytes>)
  {
    forall k :: k in slices ==> slices[k] != []
  }

  // Segments follow each other without a gap from one position to the start of another.
  predicate Chained(slices: map<nat, Bytes>, from: nat, k: nat)
    decreases if from < k then k - from else 0
  {
    from in slices && (from == k || (from < k && slices[from] != [] && Chained(slices, from + |slices[from]|, k)))
  }

  // A pending segment begins strictly inside the segment at k.
  predicate Cut(slices: map<nat, Bytes>, k: nat, inside: nat)
  {
    k in slices && inside in slices && k < inside < k + |slices[k]|
  }

  // A segment that a fetch reaches is cut: what a caller can see before the fetch.
  ghost predicate CutAhead(b: Buffer)
  {
    exists k: nat, inside: nat :: Chained(b.slices, b.offset, k) && Cut(b.slices, k, inside)
  }

  // Taking a segment that is not cut leaves the other chains as they are.
  lemma {:induction false} ChainedAfter(slices: map<nat, Bytes>, gone: nat, from: nat, k: nat)
    requires gone < from
    ensures Chained(slices - {gone}, from, k) <==> Chained(slices, from, k)
    decreases if from < k then k - from else 0
  {
    if from in slices && from < k && slices[from] != [] {
      ChainedAfter(slices, gone, from + |slices[from]|, k);
    }
  }

  // A segment at the offset that is cut: the fetch takes it and then finds itself past a pending one.
  lemma TakenIsStale(b: Buffer, inside: nat)
    requires CanTake(b) && Cut(b.slices, b.offset, inside)
    ensures Stale(Taken(b)) && FetchSpec(b).0 == Taken(b)
  {
    var after := Taken(b);
    assert inside in after.slices && inside < after.offset;
    FetchDeliversIff(after);
    assert FetchSpec(after) == (after, []);
    FetchStep(b);
  }

  // Otherwise nothing waits below the new offset, and the same cuts lie ahead.
  lemma TakenIsFine(b: Buffer)
    requires CanTake(b) && Solid(b.slices) && forall inside: nat :: !Cut(b.slices, b.offset, inside)
    ensures !Stale(Taken(b)) && Solid(Taken(b).slices) && (CutAhead(Taken(b)) <==> CutAhead(b))
  {
    var after, data := Taken(b), b.slices[b.offset];
    forall k | k in after.slices ensures k >= after.offset {
      assert b.offset <= k;
      assert !Cut(b.slices, b.offset, k);
    }
    forall k: nat, inside: nat
      ensures Chained(after.slices, after.offset, k) && Cut(after.slices, k, inside)
        <==> Chained(b.slices, b.offset, k) && Cut(b.slices, k, inside)
    {
      ChainedAfter(b.slices, b.offset, after.offset, k);
    }
  }

  /** A fetch makes a buffer stale exactly if a pending segment begins strictly inside one that the fetch
      reaches and hands out. */
  lemma {:induction false} FetchGoesStaleIff(b: Buffer)
    requires !Stale(b) && Solid(b.slices)
    ensures Stale(FetchSpec(b).0) <==> CutAhead(b)
    decreases |b.slices|
  {
    if !CanTake(b) {
      if b.offset in b.slices {
        assert false;
      }
    } else if inside: nat :| Cut(b.slices, b.offset, inside) {
      TakenIsStale(b, inside);
      assert Chained(b.slices, b.offset, b.offset);
    } else {
      TakenIsFine(b);
      Shrinks(b.slices, b.offset);
      FetchStep(b);
      FetchGoesStaleIff(Taken(b));
    }
  }

  // ---- Whole runs

  // The call leaves something below the offset; the caller can tell from the buffer.
  ghost predicate Breaks(b: Buffer, op: Op)
  {
    match op
    case Put(start, data) => data != [] && start < b.offset
    case Fetch => CutAhead(b)
  }

  lemma {:induction false} FetchKeepsSolid(b: Buffer)
    requires Solid(b.slices)
    ensures Solid(FetchSpec(b).0.slices)
    decreases |b.slices|
  {
    if CanTake(b) {
      Shrinks(b.slices, b.offset);
      FetchStep(b);
      FetchKeepsSolid(Taken(b));
    }
  }

  lemma {:induction false} PlayIsSolid(ops: seq<Op>)
    ensures Solid(Play(ops).0.slices)
  {
    if ops != [] {
      PlayIsSolid(ops[..|ops| - 1]);
      FetchKeepsSolid(Play(ops[..|ops| - 1]).0);
    }
  }

  lemma StaleStep(ops: seq<Op>)
    requires ops != []
    ensures var init := ops[..|ops| - 1];
      Stale(Play(ops).0) <==> Stale(Play(init).0) || Breaks(Play(init).0, ops[|ops| - 1])
  {
    var init, op := ops[..|ops| - 1], ops[|ops| - 1];
    var b := Play(init).0;
    if Stale(b) {
      StaleBlocksForever(init, [op]);
      assert init + [op] == ops;
    } else if op.Put? {
      PutGoesStaleIff(b, op.start, op.data);
    } else {
      PlayIsSolid(init);
      FetchGoesStaleIff(b);
    }
  }

  // Call i of the run breaks the buffer as it stood before that call.
  ghost predicate BreaksAt(ops: seq<Op>, i: nat)
    requires i < |ops|
  {
    Breaks(Play(ops[..i]).0, ops[i])
  }

  lemma BreaksEarlier(ops: seq<Op>, n: nat, i: nat)
    requires i < n <= |ops|
    ensures BreaksAt(ops[..n], i) <==> BreaksAt(ops, i)
  {
    assert ops[..n][..i] == ops[..i];
  }

  /** After any puts and fetches the stream is blocked exactly if one of the calls was a put below the offset or
      a fetch with a cut segment ahead, as the buffer stood before that call. */
  lemma {:induction false} BlockedIff(ops: seq<Op>)
    ensures Stale(Play(ops).0) <==> exists i: nat :: i < |ops| && BreaksAt(ops, i)
  {
    if ops != [] {
      var n: nat := |ops| - 1;
      BlockedIff(ops[..n]);
      StaleStep(ops);
      assert BreaksAt(ops, n) <==> Breaks(Play(ops[..n]).0, ops[n]);
      if i: nat :| i < n && BreaksAt(ops[..n], i) { BreaksEarlier(ops, n, i); }
      if i: nat :| i < |ops| && BreaksAt(ops, i) {
        if i < n { BreaksEarlier(ops, n, i); }
      }
    }
  }

  // ---- Pieces of one stream

  // All puts carry pieces of the stream; they may overlap and repeat each other.
  predicate Pieces(ops: seq<Op>, stream: Bytes)
  {
    forall i :: 0 <= i < |ops| ==> PieceOf(ops[i], stream)
  }

  // Only pieces of the stream wait, and what was delivered is its beginning.
  predicate Delivers(stream: Bytes, b: Buffer, delivered: Bytes)
  {
    && b.offset <= |stream| && delivered == stream[..b.offset]
    && forall k :: k in b.slices ==> PieceOf(Op.Put(k, b.slices[k]), stream)
  }

  lemma {:induction false} FetchDelivers(stream: Bytes, b: Buffer, delivered: Bytes)
    requires Delivers(stream, b, delivered)
    ensures Delivers(stream, FetchSpec(b).0, delivered + Flatten(FetchSpec(b).1))
    decreases |b.slices|
  {
    if CanTake(b) {
      var data := b.slices[b.offset];
      assert PieceOf(Op.Put(b.offset, data), stream);
      assert stream[..b.offset] + data == stream[..b.offset + |data|];
      Shrinks(b.slices, b.offset);
      FetchDelivers(stream, Taken(b), delivered + data);
      FetchUnfolds(b, delivered);
    } else {
      assert delivered + Flatten<byte>([]) == delivered;
    }
  }

  /** Whatever overlaps, the bytes handed out are the beginning of the stream, up to the offset. */
  lemma {:induction false} PiecesDeliverPrefix(ops: seq<Op>, stream: Bytes)
    requires Pieces(ops, stream)
    ensures Delivers(stream, Play(ops).0, Play(ops).1)
  {
    if ops != [] {
      var init, op := ops[..|ops| - 1], ops[|ops| - 1];
      PiecesDeliverPrefix(init, stream);
      assert PieceOf(op, stream);
      var (b, delivered) := Play(init);
      if op.Fetch? {
        FetchDelivers(stream, b, delivered);
      } else {
        assert delivered + [] == delivered;
      }
    }
  }

  /** Two overlapping pieces, neither put below the offset, block their stream: of its four bytes three are
      handed out, and the fourth never is. */
  lemma OverlapBlocks(more: seq<Op>)
    ensures var ops := [Op.Put(0, [1, 2, 3]), Op.Put(2, [3, 4]), Fetch];
      && Pieces(ops, [1, 2, 3, 4])
      && !Breaks(Play(ops[..0]).0, ops[0]) && !Breaks(Play(ops[..1]).0, ops[1]) && Breaks(Play(ops[..2]).0, ops[2])
      && Play(ops + more).1 == [1, 2, 3]
  {
    var first: Bytes := [1, 2, 3];
    var second: Bytes := [3, 4];
    var p, q := Op.Put(0, first), Op.Put(2, second);
    var ops := [p, q, Fetch];
    var b := Buffer(0, map[0 := first, 2 := second]);
    assert ops[..0] == [] && ops[..1] == [p] && ops[..2] == [p, q];
    assert [p][..0] == [] && [p, q][..1] == [p];
    assert Play([]) == (EMPTY, []);
    assert PutSpec(EMPTY, 0, first) == Buffer(0, map[0 := first]);
    assert Play([p]).0 == Buffer(0, map[0 := first]) && Play([p]).1 == [];
    assert Play([p, q]).0 == b && Play([p, q]).1 == [];
    assert Chained(b.slices, 0, 0) && Cut(b.slices, 0, 2);
    assert MinKey(b.slices) == 0;
    TakenIsStale(b, 2);
    FetchStep(b);
    FetchDeliversIff(Taken(b));
    assert FetchSpec(b).1 == [first] + [];
    FlattenCons(first, []);
    assert Flatten(FetchSpec(b).1) == first;
    assert Play(ops) == (Taken(b), [] + first);
    StaleBlocksForever(ops, more);
  }
}
