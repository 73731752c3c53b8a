// When a stream that is not blocked is delivered: which segments last, and which are replaced while they wait.
module TcpCoverage {
  import opened Base
  import opened TcpStream
  import opened TcpOverlap

  lemma PlayOneMore(ops: seq<Op>, op: Op)
    ensures var (b, delivered) := Play(ops);
      Play(ops + [op]) == (Apply(b, op).0, delivered + Apply(b, op).1)
  {
    assert (ops + [op])[..|ops|] == ops;
  }

  // ---- Blocked for good

  /** As long as nothing waits below the offset, a put at the offset and a fetch deliver its bytes. */
  lemma LiveDelivers(ops: seq<Op>, data: Bytes)
    requires !Stale(Play(ops).0) && data != []
    ensures var b := Play(ops).0;
      |Play(ops + [Op.Put(b.offset, data), Fetch]).1| > |Play(ops).1|
  {
    var (b, delivered) := Play(ops);
    var put := Op.Put(b.offset, data);
    var after := PutSpec(b, b.offset, data);
    PlayOneMore(ops, put);
    PlayOneMore(ops + [put], Fetch);
    assert ops + [put] + [Fetch] == ops + [put, Fetch];
    PutGoesStaleIff(b, b.offset, data);
    FetchDeliversIff(after);
    FetchStep(after);
    FlattenCons(data, FetchSpec(Taken(after)).1);
  }

  // The calls that follow hand nothing out.
  ghost predicate NothingMore(ops: seq<Op>, more: seq<Op>)
  {
    Play(ops + more).1 == Play(ops).1
  }

  /** A stream is blocked for good exactly while something waits below its offset. */
  lemma BlockedForGoodIff(ops: seq<Op>)
    ensures Stale(Play(ops).0) <==> forall more :: NothingMore(ops, more)
  {
    if Stale(Play(ops).0) {
      forall more ensures NothingMore(ops, more) {
        StaleBlocksForever(ops, more);
      }
    } else {
      LiveDelivers(ops, [0]);
      assert !NothingMore(ops, [Op.Put(Play(ops).0.offset, [0]), Fetch]);
    }
  }

  // ---- Segments that last

  // Put j files another segment at the position of put i, which was not handed out yet.
  ghost predicate Replaces(ops: seq<Op>, i: nat, j: nat)
    requires i < j < |ops|
  {
    ops[i].Put? && ops[j].Put? && ops[j].start == ops[i].start && Play(ops[..j]).0.offset <= ops[i].start
  }

  // No later put replaces put i.
  ghost predicate Lasts(ops: seq<Op>, i: nat)
  {
    i < |ops| && ops[i].Put? && forall j: nat :: i < j < |ops| ==> !Replaces(ops, i, j)
  }

  // A put that lasts carries the byte at position x.
  ghost predicate Kept(ops: seq<Op>, x: nat)
  {
    exists i: nat :: Lasts(ops, i) && Carries(ops[i], x)
  }

  lemma LastsOneMore(ops: seq<Op>, op: Op, i: nat)
    requires i < |ops|
    ensures Lasts(ops + [op], i) <==>
      Lasts(ops, i) && !(op.Put? && op.start == ops[i].start && Play(ops).0.offset <= op.start)
  {
    var all := ops + [op];
    assert all[..|ops|] == ops;
    forall j: nat | i < j < |ops| ensures Replaces(all, i, j) <==> Replaces(ops, i, j) {
      assert all[..j] == ops[..j];
    }
    if Lasts(all, i) && ops[i].Put? { assert !Replaces(all, i, |ops|); }
  }

  // The segment waits at k as put i brought it.
  ghost predicate Brought(ops: seq<Op>, i: nat, k: nat, data: Bytes)
  {
    Lasts(ops, i) && ops[i] == Op.Put(k, data)
  }

  // Puts that last are delivered whole or still wait; nothing else waits or was delivered.
  ghost predicate Settled(ops: seq<Op>, b: Buffer)
  {
    && (forall i: nat :: Lasts(ops, i) ==> Accounted(ops[i], b))
    && (forall x: nat :: x < b.offset ==> Kept(ops, x))
    && (forall k: nat :: k in b.slices ==> exists i: nat :: Brought(ops, i, k, b.slices[k]))
  }

  lemma KeptOneMore(ops: seq<Op>, op: Op, x: nat)
    requires Kept(ops, x) && (op.Put? ==> x < op.start)
    ensures Kept(ops + [op], x)
  {
    var i: nat :| Lasts(ops, i) && Carries(ops[i], x);
    LastsOneMore(ops, op, i);
    assert Carries((ops + [op])[i], x);
  }

  lemma PutSettles(ops: seq<Op>, op: Op)
    requires op.Put? && op.data != [] && Settled(ops, Play(ops).0) && Play(ops).0.offset <= op.start
    ensures Settled(ops + [op], PutSpec(Play(ops).0, op.start, op.data))
  {
    var b, all := Play(ops).0, ops + [op];
    var after := PutSpec(b, op.start, op.data);
    assert Brought(all, |ops|, op.start, op.data);
    forall i: nat | Lasts(all, i) ensures Accounted(all[i], after) {
      if i < |ops| { LastsOneMore(ops, op, i); }
    }
    forall x: nat | x < after.offset ensures Kept(all, x) {
      KeptOneMore(ops, op, x);
    }
    forall k: nat | k in after.slices && k != op.start ensures exists i: nat :: Brought(all, i, k, after.slices[k]) {
      var i: nat :| Brought(ops, i, k, b.slices[k]);
      LastsOneMore(ops, op, i);
      assert Brought(all, i, k, after.slices[k]);
    }
  }

  lemma FetchIsNoPut(ops: seq<Op>, b: Buffer)
    requires Settled(ops, b)
    ensures Settled(ops + [Fetch], b)
  {
    var all := ops + [Fetch];
    forall i: nat | Lasts(all, i) ensures Accounted(all[i], b) {
      if i < |ops| { LastsOneMore(ops, Fetch, i); }
    }
    forall x: nat | x < b.offset ensures Kept(all, x) {
      KeptOneMore(ops, Fetch, x);
    }
    forall k: nat | k in b.slices ensures exists i: nat :: Brought(all, i, k, b.slices[k]) {
      var i: nat :| Brought(ops, i, k, b.slices[k]);
      LastsOneMore(ops, Fetch, i);
      assert Brought(all, i, k, b.slices[k]);
    }
  }

  lemma TakeSettles(ops: seq<Op>, stream: Bytes, b: Buffer)
    requires Pieces(ops, stream) && Settled(ops, b) && b.offset in b.slices && !Stale(Taken(b))
    ensures Settled(ops, Taken(b))
  {
    var data, after := b.slices[b.offset], Taken(b);
    forall i: nat | Lasts(ops, i) ensures Accounted(ops[i], after) {
      assert Accounted(ops[i], b) && PieceOf(ops[i], stream);
      assert ops[i].start in after.slices ==> after.offset <= ops[i].start;
    }
    var h: nat :| Brought(ops, h, b.offset, data);
    forall x: nat | x < after.offset ensures Kept(ops, x) {
      if x >= b.offset { assert Carries(ops[h], x); }
    }
    forall k: nat | k in after.slices ensures exists i: nat :: Brought(ops, i, k, after.slices[k]) {
      assert k in b.slices && after.slices[k] == b.slices[k];
    }
  }

  lemma {:induction false} FetchSettles(ops: seq<Op>, stream: Bytes, b: Buffer)
    requires Pieces(ops, stream) && Settled(ops, b) && !Stale(FetchSpec(b).0)
    ensures var after := FetchSpec(b).0; Settled(ops, after) && after.offset !in after.slices
    decreases |b.slices|
  {
    FetchDeliversIff(b);
    if CanTake(b) {
      FetchStep(b);
      FetchDeliversIff(Taken(b));
      TakeSettles(ops, stream, b);
      Shrinks(b.slices, b.offset);
      FetchSettles(ops, stream, Taken(b));
    }
  }

  // One more call, after which the stream is not blocked.
  lemma SettlesOneMore(ops: seq<Op>, op: Op, stream: Bytes)
    requires Pieces(ops + [op], stream) && Settled(ops, Play(ops).0) && !Stale(Play(ops + [op]).0)
    ensures var b := Play(ops + [op]).0; Settled(ops + [op], b) && (op.Fetch? ==> b.offset !in b.slices)
  {
    var all, b := ops + [op], Play(ops).0;
    assert all[|ops|] == op && PieceOf(all[|ops|], stream);
    PlayOneMore(ops, op);
    LiveBefore(ops, op);
    if op.Put? {
      PutGoesStaleIff(b, op.start, op.data);
      PutSettles(ops, op);
    } else {
      FetchIsNoPut(ops, b);
      FetchSettles(all, stream, b);
    }
  }

  lemma LiveBefore(ops: seq<Op>, op: Op)
    requires !Stale(Play(ops + [op]).0)
    ensures !Stale(Play(ops).0)
  {
    if Stale(Play(ops).0) { StaleBlocksForever(ops, [op]); }
  }

  lemma {:induction false} PlaySettles(ops: seq<Op>, stream: Bytes)
    requires Pieces(ops, stream) && !Stale(Play(ops).0)
    ensures Settled(ops, Play(ops).0)
    ensures ops != [] && ops[|ops| - 1].Fetch? ==> Play(ops).0.offset !in Play(ops).0.slices
  {
    if ops != [] {
      var init, op := ops[..|ops| - 1], ops[|ops| - 1];
      assert ops == init + [op];
      LiveBefore(init, op);
      PlaySettles(init, stream);
      SettlesOneMore(init, op, stream);
    }
  }

  lemma NextIsLost(ops: seq<Op>, b: Buffer)
    requires Settled(ops, b) && b.offset !in b.slices
    ensures !Kept(ops, b.offset)
  {
    forall i: nat | Lasts(ops, i) ensures !Carries(ops[i], b.offset) {
      assert Accounted(ops[i], b);
    }
  }

  /** For pieces of one stream that may overlap and repeat, as long as the stream is not blocked: after a fetch all
      of it is delivered exactly if each of its bytes is in a put that no later one replaced while it waited. */
  lemma DeliveredIff(ops: seq<Op>, stream: Bytes)
    requires Pieces(ops, stream) && !Stale(Play(ops).0)
    requires ops != [] && ops[|ops| - 1].Fetch?
    ensures Play(ops).1 == stream <==> forall x: nat :: x < |stream| ==> Kept(ops, x)
  {
    var b := Play(ops).0;
    PlaySettles(ops, stream);
    PiecesDeliverPrefix(ops, stream);
    NextIsLost(ops, b);
    assert stream[..|stream|] == stream;
  }

  lemma OneSegment(data: Bytes)
    requires data != []
    ensures var (b, fetched) := FetchSpec(Buffer(0, map[0 := data]));
      b == Buffer(|data|, map[]) && Flatten(fetched) == data
  {
    var b := Buffer(0, map[0 := data]);
    assert 0 in b.slices;
    FetchDeliversIff(b);
    FetchStep(b);
    assert Taken(b) == Buffer(|data|, map[]);
    FlattenCons(data, []);
  }

  lemma LastOfTwo(p: Op, q: Op)
    requires p.Put? && q.Put? && p.start == q.start == 0 && p.data != [] && q.data != []
    ensures Play([p, q, Fetch]) == (Buffer(|q.data|, map[]), q.data)
    ensures Replaces([p, q, Fetch], 0, 1)
  {
    PlayOneMore([], p);
    PlayOneMore([p], q);
    PlayOneMore([p, q], Fetch);
    assert [] + [p] == [p] && [p] + [q] == [p, q] && [p, q] + [Fetch] == [p, q, Fetch];
    assert Play([p, q]).0 == Buffer(0, map[0 := q.data]);
    OneSegment(q.data);
    assert [p, q, Fetch][..1] == [p];
  }

  /** A shorter piece at the position of a waiting one: two bytes are lost, though the stream is not blocked. */
  lemma ShorterReplaces()
    ensures var ops := [Op.Put(0, [1, 2, 3]), Op.Put(0, [1]), Fetch];
      && Pieces(ops, [1, 2, 3]) && !Stale(Play(ops).0) && Play(ops).1 == [1]
      && Received(ops, 1) && !Kept(ops, 1)
  {
    var p, q := Op.Put(0, [1, 2, 3]), Op.Put(0, [1]);
    LastOfTwo(p, q);
    assert Carries([p, q, Fetch][0], 1);
  }
}
