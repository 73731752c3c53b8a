// The event loop's own code: numbering input, keeping filter results in chunks, exporting in blocks
// (genet-kernel/src/store.rs).
module StoreThread {
  import opened Base
  import opened Frames
  import opened EventLoop
  import ArrayVec

  const OUTPUT_BLOCK_SIZE: nat := 65536
  const MAX_FILTER_SIZE: nat := 16384

  // The frames that pass; no filter passes everything.
  function Exported(filter: Option<Filter>, frames: seq<Frame>): seq<Frame>
  {
    if frames == [] then []
    else
      var last := frames[|frames| - 1];
      Exported(filter, frames[..|frames| - 1])
      + if filter.None? || filter.value.matches(last.body.layers) then [last] else []
  }

  lemma {:induction false} ExportedAppend(filter: Option<Filter>, a: seq<Frame>, b: seq<Frame>)
    ensures Exported(filter, a + b) == Exported(filter, a) + Exported(filter, b)
  {
    if b == [] {
      assert a + b == a;
    } else {
      ExportedAppend(filter, a, b[..|b| - 1]);
      assert (a + b)[..|a + b| - 1] == a + b[..|b| - 1];
    }
  }

  // Some positions of a store, increasing, and exactly those of the frames that the filter lets through.
  ghost predicate Picks(filter: Option<Filter>, store: seq<Frame>, p: seq<nat>)
  {
    && (forall j, k :: 0 <= j < k < |p| ==> p[j] < p[k])
    && (forall i: nat :: i in p <==>
        i < |store| && (filter == None || (filter.Some? && filter.value.matches(store[i].body.layers))))
  }

  // These frames are those of the store at such positions.
  ghost predicate IsExport(filter: Option<Filter>, store: seq<Frame>, frames: seq<Frame>)
  {
    exists p :: Picks(filter, store, p) && At(store, p, frames)
  }

  predicate At(store: seq<Frame>, p: seq<nat>, frames: seq<Frame>)
  {
    |frames| == |p| && forall k :: 0 <= k < |p| ==> p[k] < |store| && frames[k] == store[p[k]]
  }

  lemma PicksOneMore(filter: Option<Filter>, store: seq<Frame>, n: nat, q: seq<nat>, p: seq<nat>)
    requires |store| == n + 1 && Picks(filter, store[..n], q)
    requires p == q + if filter == None || filter.value.matches(store[n].body.layers) then [n] else []
    ensures Picks(filter, store, p)
  {
    forall k | 0 <= k < |q| ensures q[k] < n {
      assert q[k] in q;
    }
    assert forall i: nat :: i in p <==> i in q || (i == n && n in p);
  }

  lemma AtOneMore(store: seq<Frame>, n: nat, q: seq<nat>, frames: seq<Frame>)
    requires |store| == n + 1 && At(store[..n], q, frames)
    ensures At(store, q, frames) && At(store, q + [n], frames + [store[n]])
  {
  }

  lemma {:induction false} ExportedPicks(filter: Option<Filter>, store: seq<Frame>) returns (p: seq<nat>)
    ensures Picks(filter, store, p) && At(store, p, Exported(filter, store))
  {
    p := [];
    if store != [] {
      var n: nat := |store| - 1;
      var q := ExportedPicks(filter, store[..n]);
      p := q + if filter.None? || filter.value.matches(store[n].body.layers) then [n] else [];
      PicksOneMore(filter, store, n, q, p);
      AtOneMore(store, n, q, Exported(filter, store[..n]));
    }
  }

  lemma ExportedIsExport(filter: Option<Filter>, store: seq<Frame>)
    ensures IsExport(filter, store, Exported(filter, store))
  {
    var p := ExportedPicks(filter, store);
  }

  // Block k of a store.
  function Block(store: seq<Frame>, k: nat): seq<Frame>
  {
    store[Min(k * OUTPUT_BLOCK_SIZE, |store|)..Min((k + 1) * OUTPUT_BLOCK_SIZE, |store|)]
  }

  // Each write is the export of its block.
  ghost predicate BlockByBlock(filter: Option<Filter>, store: seq<Frame>, writes: seq<seq<Frame>>)
  {
    forall k: nat :: k < |writes| ==> IsExport(filter, Block(store, k), writes[k])
  }

  // None of the first n writes is refused.
  ghost predicate Accepts(refusesWrite: nat -> bool, n: int)
  {
    forall k: nat :: k < n ==> !refusesWrite(k)
  }

  lemma AcceptsOneMore(refusesWrite: nat -> bool, n: nat)
    requires Accepts(refusesWrite, n) && !refusesWrite(n)
    ensures Accepts(refusesWrite, n + 1)
  {
  }

  // A writer: it may refuse any write, and it may refuse to end.
  class Output {
    const refusesWrite: nat -> bool
    const refusesEnd: bool
    var writes: seq<seq<Frame>>
    var ends: nat

    constructor (refusesWrite: nat -> bool, refusesEnd: bool)
      ensures this.refusesWrite == refusesWrite && this.refusesEnd == refusesEnd
      ensures writes == [] && ends == 0
    {
      this.refusesWrite, this.refusesEnd := refusesWrite, refusesEnd;
      writes, ends := [], 0;
    }

    method Write(frames: seq<Frame>) returns (ok: bool)
      modifies this`writes
      ensures writes == old(writes) + [frames] && ok == !refusesWrite(|old(writes)|)
    {
      ok := !refusesWrite(|writes|);
      writes := writes + [frames];
    }

    method End() returns (ok: bool)
      modifies this`ends
      ensures ends == old(ends) + 1 && ok == !refusesEnd
    {
      ok := !refusesEnd;
      ends := ends + 1;
    }
  }

  // A list as on_filtered_frames_updated finds it when it is called.
  datatype Update = Update(id: nat, list: seq<nat>)

  ghost function Lookup<V>(m: map<nat, V>, id: nat): Option<V>
  {
    if id in m then Some(m[id]) else None
  }

  ghost predicate AgreeAt(r: Results, q: Results, id: nat)
  {
    && Lookup(r.filters, id) == Lookup(q.filters, id)
    && Lookup(r.filtered, id) == Lookup(q.filtered, id)
    && Lookup(r.reported, id) == Lookup(q.reported, id)
  }

  lemma SameMaps<V>(m: map<nat, V>, n: map<nat, V>)
    requires forall id: nat :: Lookup(m, id) == Lookup(n, id)
    ensures m == n
  {
    forall id: nat ensures id in m <==> id in n {
      assert Lookup(m, id) == Lookup(n, id);
    }
    forall id | id in m ensures m[id] == n[id] {
      assert Lookup(m, id) == Lookup(n, id);
    }
  }

  lemma AgreeEverywhere(r: Results, q: Results)
    requires forall id: nat :: AgreeAt(r, q, id)
    ensures r == q
  {
    forall id: nat
      ensures Lookup(r.filters, id) == Lookup(q.filters, id)
      ensures Lookup(r.filtered, id) == Lookup(q.filtered, id)
      ensures Lookup(r.reported, id) == Lookup(q.reported, id)
    {
      assert AgreeAt(r, q, id);
    }
    SameMaps(r.filters, q.filters);
    SameMaps(r.filtered, q.filtered);
    SameMaps(r.reported, q.reported);
  }

  // Filter id's results when its scan of the store has come to position `at`.
  function ScannedTo(r: Results, id: nat, store: seq<Frame>, at: nat): Results
    requires id in r.filters && r.filters[id].offset <= at <= |store|
  {
    var ctx := r.filters[id];
    var more := Passing(ctx.filter, store[ctx.offset..at]);
    var seen := r.filters[id := ctx.(offset := at)];
    if more == [] then r.(filters := seen)
    else
      var list := Listed(r.filtered, id) + more;
      Results(seen, r.filtered[id := list], r.reported[id := |list|])
  }

  lemma ScannedAll(r: Results, q: Results, id: nat, store: seq<Frame>)
    requires id in q.filters && q.filters[id].offset <= |store| && id in q.reported && AgreeAt(r, q, id)
    ensures AgreeAt(ScannedTo(r, id, store, |store|), CatchUp(q, store), id)
  {
    CatchUpAt(q, store, id);
    assert Lookup(r.filters, id) == Some(q.filters[id]) && Lookup(r.reported, id) == Some(q.reported[id]);
    assert Listed(r.filtered, id) == Listed(q.filtered, id) by {
      assert Lookup(r.filtered, id) == Lookup(q.filtered, id);
    }
    assert store[q.filters[id].offset..|store|] == store[q.filters[id].offset..];
    assert Listed(q.filtered, id) + [] == Listed(q.filtered, id);
  }

  // What a scan adds, in two parts.
  lemma ScanJoins(store: seq<Frame>, from: nat, at: nat, to: nat)
    requires from <= at <= to <= |store|
    ensures store[from..to] == store[from..at] + store[at..to]
  {
  }

  lemma ListJoins(list: seq<nat>, p: seq<nat>, q: seq<nat>)
    ensures list + (p + q) == list + p + q
    ensures (p == [] ==> p + q == q) && (q == [] ==> p + q == p)
  {
  }

  lemma ScanParts(r: Results, id: nat, store: seq<Frame>, at: nat, to: nat)
    requires id in r.filters && r.filters[id].offset <= at <= to <= |store|
    ensures var ctx, list := r.filters[id], Listed(r.filtered, id);
      var p, q := Passing(ctx.filter, store[ctx.offset..at]), Passing(ctx.filter, store[at..to]);
      && Passing(ctx.filter, store[ctx.offset..to]) == p + q
      && list + (p + q) == list + p + q
      && (p == [] ==> p + q == q) && (q == [] ==> p + q == p)
  {
    var ctx := r.filters[id];
    var p, q := Passing(ctx.filter, store[ctx.offset..at]), Passing(ctx.filter, store[at..to]);
    PassingAppend(ctx.filter, store[ctx.offset..at], store[at..to]);
    ScanJoins(store, ctx.offset, at, to);
    ListJoins(Listed(r.filtered, id), p, q);
  }

  lemma Overwrite<V>(m: map<nat, V>, k: nat, v: V, w: V)
    ensures m[k := v][k := w] == m[k := w]
  {
  }

  lemma ScanStep(r: Results, id: nat, store: seq<Frame>, at: nat, to: nat)
    requires id in r.filters && r.filters[id].offset <= at <= to <= |store|
    ensures ScannedTo(r, id, store, to) == ScannedTo(ScannedTo(r, id, store, at), id, store, to)
  {
    var ctx, list := r.filters[id], Listed(r.filtered, id);
    var p, q := Passing(ctx.filter, store[ctx.offset..at]), Passing(ctx.filter, store[at..to]);
    ScanParts(r, id, store, at, to);
    Overwrite(r.filters, id, ctx.(offset := at), ctx.(offset := to));
    if p != [] && q != [] {
      Overwrite(r.filtered, id, list + p, list + p + q);
      Overwrite(r.reported, id, |list + p|, |list + p + q|);
    }
  }

  // A filter was scanned up to at.
  ghost predicate Scanned(r: Results, v: Results, id: nat, store: seq<Frame>, at: nat)
    requires id in r.filters
  {
    r.filters[id].offset <= at <= |store| && v == ScannedTo(r, id, store, at)
  }

  // All lists that are published are beginnings of the whole one.
  predicate Publishes(updates: seq<Update>, id: nat, whole: seq<nat>)
  {
    forall u :: u in updates ==> u.id == id && u.list <= whole
  }

  lemma PublishesMore(updates: seq<Update>, more: seq<Update>, id: nat, whole: seq<nat>)
    requires Publishes(updates, id, whole) && Publishes(more, id, whole)
    ensures Publishes(updates + more, id, whole)
  {
  }

  lemma ScanProgress(r: Results, v: Results, id: nat, store: seq<Frame>, at: nat, to: nat)
    requires id in r.filters && Behind(r, id, store) && at <= to <= |store| && Scanned(r, v, id, store, at)
    ensures id in v.filters && v.filters[id].offset == at
    ensures ScannedTo(v, id, store, to) == ScannedTo(r, id, store, to)
    ensures Listed(ScannedTo(r, id, store, to).filtered, id) <= Passing(r.filters[id].filter, store)
  {
    ScanStep(r, id, store, at, to);
    ScannedIsPrefix(r, id, store, to);
  }

  lemma ChunkScanned(r: Results, v: Results, v': Results, id: nat, store: seq<Frame>, at: nat, to: nat,
                     updates: seq<Update>, whole: seq<nat>)
    requires id in r.filters && Behind(r, id, store) && at <= to <= |store| && Scanned(r, v, id, store, at)
    requires id in v.filters && v.filters[id].offset == at && v' == ScannedTo(v, id, store, to)
    requires updates == [] || updates == [Update(id, Listed(v'.filtered, id))]
    requires whole == Passing(r.filters[id].filter, store)
    ensures Scanned(r, v', id, store, to) && Publishes(updates, id, whole)
  {
    ScanProgress(r, v, id, store, at, to);
  }

  lemma ScannedList(r: Results, id: nat, store: seq<Frame>, at: nat)
    requires id in r.filters && r.filters[id].offset <= at <= |store|
    ensures var ctx := r.filters[id];
      Listed(ScannedTo(r, id, store, at).filtered, id) ==
        Listed(r.filtered, id) + Passing(ctx.filter, store[ctx.offset..at])
  {
  }

  /** What is published between two chunks is the beginning of the full result. */
  lemma ScannedIsPrefix(r: Results, id: nat, store: seq<Frame>, at: nat)
    requires id in r.filters && Behind(r, id, store) && r.filters[id].offset <= at <= |store|
    ensures Listed(ScannedTo(r, id, store, at).filtered, id) <= Passing(r.filters[id].filter, store)
  {
    var ctx := r.filters[id];
    ScannedList(r, id, store, at);
    PassingSlices(ctx.filter, store, ctx.offset, at);
    PassingSlices(ctx.filter, store, at, |store|);
    assert store[..|store|] == store;
  }

  lemma ScanStart(r: Results, id: nat, store: seq<Frame>)
    requires id in r.filters && r.filters[id].offset <= |store|
    ensures ScannedTo(r, id, store, r.filters[id].offset) == r
  {
    assert store[r.filters[id].offset..r.filters[id].offset] == [];
    assert r.filters[id := r.filters[id]] == r.filters;
  }

  // Scanning one filter leaves the others alone.
  lemma ScanOthers(r: Results, id: nat, store: seq<Frame>, at: nat, other: nat)
    requires id in r.filters && r.filters[id].offset <= at <= |store| && other != id
    ensures AgreeAt(ScannedTo(r, id, store, at), r, other)
  {
  }

  // process_filters under way: the filters in todo still have their old results.
  ghost predicate Midway(v: Results, r: Results, store: seq<Frame>, todo: set<nat>)
  {
    && todo <= r.filters.Keys
    && forall id: nat :: if id in r.filters && id !in todo then AgreeAt(v, CatchUp(r, store), id) else AgreeAt(v, r, id)
  }

  lemma MidwayStep(v: Results, r: Results, store: seq<Frame>, todo: set<nat>, id: nat)
    requires Midway(v, r, store, todo) && id in todo && Behind(r, id, store)
    ensures id in v.filters && Behind(v, id, store) && v.filters[id] == r.filters[id]
    ensures Midway(ScannedTo(v, id, store, |store|), r, store, todo - {id})
  {
    assert AgreeAt(v, r, id) && Lookup(v.filters, id) == Some(r.filters[id]);
    assert Lookup(v.filtered, id) == Lookup(r.filtered, id);
    assert Lookup(v.reported, id) == Lookup(r.reported, id);
    var v' := ScannedTo(v, id, store, |store|);
    ScannedAll(v, r, id, store);
    forall other: nat | other != id
      ensures if other in r.filters && other !in todo then AgreeAt(v', CatchUp(r, store), other)
        else AgreeAt(v', r, other)
    {
      ScanOthers(v, id, store, |store|, other);
    }
  }

  lemma MidwayDone(v: Results, r: Results, store: seq<Frame>)
    requires Midway(v, r, store, {})
    ensures v == CatchUp(r, store)
  {
    forall id: nat ensures AgreeAt(v, CatchUp(r, store), id) {
      if id !in r.filters {
        assert AgreeAt(v, r, id);
        assert Listed(r.filtered, id) + [] == Listed(r.filtered, id);
      }
    }
    AgreeEverywhere(v, CatchUp(r, store));
  }

  function Blocks(n: nat): nat
  {
    (n + OUTPUT_BLOCK_SIZE - 1) / OUTPUT_BLOCK_SIZE
  }

  // The writes so far are the passing frames of the store up to the offset, one write a block.
  ghost predicate Written(filter: Option<Filter>, store: seq<Frame>, offset: nat, writes: seq<seq<Frame>>)
  {
    && offset <= |store| && offset == Min(|writes| * OUTPUT_BLOCK_SIZE, |store|)
    && |writes| == Blocks(offset) && BlockByBlock(filter, store, writes)
    && Flatten(writes) == Exported(filter, store[..offset])
  }

  lemma WrittenNothing(filter: Option<Filter>, store: seq<Frame>)
    ensures Written(filter, store, 0, [])
  {
    assert store[..0] == [];
  }

  lemma WriteStep(filter: Option<Filter>, store: seq<Frame>, offset: nat, writes: seq<seq<Frame>>,
                  len: nat, selected: seq<Frame>, after: seq<seq<Frame>>)
    requires Written(filter, store, offset, writes) && offset < |store|
    requires len == Min(OUTPUT_BLOCK_SIZE, |store| - offset)
    requires selected == Exported(filter, store[offset..offset + len]) && after == writes + [selected]
    ensures Written(filter, store, offset + len, after)
  {
    ExportedAppend(filter, store[..offset], store[offset..offset + len]);
    assert store[..offset + len] == store[..offset] + store[offset..offset + len];
    FlattenSnoc(writes, selected);
    NextBlock(filter, store, writes, selected, offset, len);
  }

  lemma NextBlock(filter: Option<Filter>, store: seq<Frame>, writes: seq<seq<Frame>>, selected: seq<Frame>,
                  offset: nat, len: nat)
    requires BlockByBlock(filter, store, writes) && offset == |writes| * OUTPUT_BLOCK_SIZE <= |store|
    requires len == Min(OUTPUT_BLOCK_SIZE, |store| - offset)
    requires selected == Exported(filter, store[offset..offset + len])
    ensures BlockByBlock(filter, store, writes + [selected])
  {
    var n := |writes|;
    assert Block(store, n) == store[offset..offset + len];
    ExportedIsExport(filter, Block(store, n));
    forall k: nat | k < n + 1 ensures IsExport(filter, Block(store, k), (writes + [selected])[k]) {
      if k < n { assert IsExport(filter, Block(store, k), writes[k]); }
    }
  }

  lemma BlocksMonotone(m: nat, n: nat)
    requires m <= n
    ensures Blocks(m) <= Blocks(n)
  {
  }

  lemma ExportedPrefix(filter: Option<Filter>, store: seq<Frame>, offset: nat)
    requires offset <= |store|
    ensures Exported(filter, store[..offset]) <= Exported(filter, store)
    ensures offset == |store| ==> Exported(filter, store[..offset]) == Exported(filter, store)
  {
    ExportedAppend(filter, store[..offset], store[offset..]);
    assert store[..offset] + store[offset..] == store;
    if offset == |store| { assert store[..offset] == store; }
  }

  lemma WrittenIsPrefix(filter: Option<Filter>, store: seq<Frame>, offset: nat, writes: seq<seq<Frame>>)
    requires Written(filter, store, offset, writes)
    ensures Flatten(writes) <= Exported(filter, store) && BlockByBlock(filter, store, writes)
    ensures IsExport(filter, store[..offset], Flatten(writes))
    ensures |writes| <= Blocks(|store|)
    ensures offset == |store| ==> IsExport(filter, store, Flatten(writes)) && |writes| == Blocks(|store|)
  {
    ExportedPrefix(filter, store, offset);
    ExportedIsExport(filter, store[..offset]);
    ExportedIsExport(filter, store);
    BlocksMonotone(offset, |store|);
  }

  lemma WrapsLater(n: nat, k: nat)
    ensures (n % TWO_32 + k) % TWO_32 == (n + k) % TWO_32
  {
  }

  // One write more, accepted or not.
  lemma BlockWritten(output: Output, filter: Option<Filter>, store: seq<Frame>, offset: nat, before: seq<seq<Frame>>,
                     len: nat, selected: seq<Frame>, next: nat, ok: bool)
    requires Written(filter, store, offset, before) && Accepts(output.refusesWrite, |before|) && offset < |store|
    requires len == Min(OUTPUT_BLOCK_SIZE, |store| - offset) && next == offset + len
    requires selected == Exported(filter, store[offset..offset + len])
    requires output.writes == before + [selected] && ok == !output.refusesWrite(|before|)
    ensures Written(filter, store, next, output.writes)
    ensures Accepts(output.refusesWrite, |output.writes| - if ok then 0 else 1)
    ensures !ok ==> output.writes != [] && output.refusesWrite(|output.writes| - 1)
  {
    WriteStep(filter, store, offset, before, len, selected, output.writes);
    if ok { AcceptsOneMore(output.refusesWrite, |before|); }
  }

  class Thread {
    var cnt: nat
    // history: all layers accepted so far
    ghost var accepted: seq<Layer>
    const frames: ArrayVec.ArrayVec<Frame>
    var filters: map<nat, FilterContext>
    var filtered: map<nat, seq<nat>>
    var reported: map<nat, nat>

    ghost predicate Valid()
      reads this, frames, frames.Repr
    {
      frames.Valid() && this !in frames.Repr && cnt == |accepted| % TWO_32
    }

    ghost function Value(): Results
      reads this
    {
      Results(filters, filtered, reported)
    }

    constructor ()
      ensures Valid() && frames.Contents == [] && accepted == [] && Value() == NO_RESULTS
      ensures fresh(frames.Repr)
    {
      cnt, accepted := 0, [];
      frames := new ArrayVec.ArrayVec();
      filters, filtered, reported := map[], map[], map[];
    }

    // process_input: a failed or empty input sends nothing. Otherwise each layer goes to the parallel pool as a
    // fresh frame, whose index is its position among all layers accepted since the start, in 32 bits.
    method ProcessInput(result: Option<seq<Layer>>) returns (sent: Option<seq<Frame>>)
      requires Valid()
      modifies this`cnt, this`accepted
      ensures Valid() && frames.Contents == old(frames.Contents)
      ensures sent.None? <==> result.None? || result.value == []
      ensures accepted == old(accepted) + if sent.None? then [] else result.value
      ensures sent.Some? ==> sent.value == Number(old(cnt), result.value)
      ensures sent.Some? ==> |sent.value| == |accepted| - |old(accepted)|
      ensures sent.Some? ==> forall i :: |old(accepted)| <= i < |accepted| ==>
        sent.value[i - |old(accepted)|] == Frame(i % TWO_32, Fresh(accepted[i]))
    {
      sent := None;
      if result.Some? && result.value != [] {
        var roots := result.value;
        sent := Some(Number(cnt, roots));
        forall k | 0 <= k < |roots| ensures Index(cnt, k) == (|accepted| + k) % TWO_32 {
          WrapsLater(|accepted|, k);
        }
        WrapsLater(|accepted|, |roots|);
        cnt := (cnt + |roots|) % TWO_32;
        accepted := accepted + roots;
      }
    }

    // The StoreFrames command.
    method Store(batch: seq<Frame>) returns (reportedLen: nat)
      requires Valid()
      modifies frames.Repr
      ensures Valid() && frames.Contents == old(frames.Contents) + batch
      ensures reportedLen == |frames.Contents|
      ensures fresh(frames.Repr - old(frames.Repr))
    {
      for k := 0 to |batch|
        invariant Valid() && frames.Contents == old(frames.Contents) + batch[..k]
        invariant fresh(frames.Repr - old(frames.Repr))
      {
        assert batch[..k + 1] == batch[..k] + [batch[k]];
        frames.Push(batch[k]);
      }
      assert batch[..|batch|] == batch;
      reportedLen := frames.len;
    }

    method ProcessPushFilter(id: nat, filter: Option<Filter>)
      requires Valid()
      modifies this`filters, this`filtered, this`reported
      ensures Valid() && frames.Contents == old(frames.Contents)
      ensures Value() == PushFilter(old(Value()), id, filter)
      ensures filters == if filter.Some? then old(filters)[id := FilterContext(filter.value, 0)] else old(filters) - {id}
      ensures id !in filtered
    {
      if filter.Some? {
        filters := filters[id := FilterContext(filter.value, 0)];
        reported := reported[id := 0];
      } else {
        filters := filters - {id};
      }
      filtered := filtered - {id};
    }

    // One chunk of the scan: at most MAX_FILTER_SIZE frames beyond the filter's offset.
    method ScanChunk(id: nat, ghost to: nat) returns (updates: seq<Update>, end: bool)
      requires Valid() && id in filters && filters[id].offset <= |frames.Contents|
      requires to == Min(|frames.Contents|, filters[id].offset + MAX_FILTER_SIZE)
      modifies this`filters, this`filtered, this`reported
      ensures Valid() && frames.Contents == old(frames.Contents)
      ensures Value() == ScannedTo(old(Value()), id, frames.Contents, to)
      ensures end == (to == |frames.Contents|)
      ensures updates == [] || updates == [Update(id, Listed(filtered, id))]
    {
      var ctx := filters[id];
      var chunk := frames.Range(ctx.offset, MAX_FILTER_SIZE);
      var indices := [];
      for k := 0 to |chunk|
        invariant indices == Passing(ctx.filter, chunk[..k])
      {
        assert chunk[..k + 1][..k] == chunk[..k];
        if ctx.filter.matches(chunk[k].body.layers) {
          indices := indices + [chunk[k].index];
        }
      }
      assert chunk[..|chunk|] == chunk;
      var offset := Min(frames.len, ctx.offset + MAX_FILTER_SIZE);
      filters := filters[id := ctx.(offset := offset)];
      end := offset >= frames.len;
      updates := [];
      if indices != [] {
        var list := Listed(filtered, id) + indices;
        filtered := filtered[id := list];
        reported := reported[id := |list|];
        updates := [Update(id, list)];
      }
    }

    // One turn: a chunk scanned, and what it publishes.
    method ScanOn(id: nat, ghost r: Results, ghost at: nat, ghost to: nat, ghost whole: seq<nat>)
      returns (updates: seq<Update>, end: bool)
      requires Valid() && id in r.filters && Behind(r, id, frames.Contents) && Scanned(r, Value(), id, frames.Contents, at)
      requires to == Min(|frames.Contents|, at + MAX_FILTER_SIZE) && whole == Passing(r.filters[id].filter, frames.Contents)
      modifies this`filters, this`filtered, this`reported
      ensures Valid() && frames.Contents == old(frames.Contents)
      ensures Scanned(r, Value(), id, frames.Contents, to)
      ensures end == (to == |frames.Contents|) && Publishes(updates, id, whole)
    {
      ghost var store, v := frames.Contents, Value();
      ScanProgress(r, v, id, store, at, to);
      updates, end := ScanChunk(id, to);
      ChunkScanned(r, v, Value(), id, store, at, to, updates, whole);
    }

    // All chunks of one filter.
    method ScanFilter(id: nat) returns (updates: seq<Update>)
      requires Valid() && id in filters && Behind(Value(), id, frames.Contents)
      modifies this`filters, this`filtered, this`reported
      ensures Valid() && frames.Contents == old(frames.Contents)
      ensures Value() == ScannedTo(old(Value()), id, frames.Contents, |frames.Contents|)
      ensures forall u :: u in updates ==>
        u.id == id && u.list <= Passing(old(filters[id].filter), frames.Contents)
    {
      ghost var r, store, at: nat := Value(), frames.Contents, filters[id].offset;
      ghost var whole := Passing(filters[id].filter, store);
      updates := [];
      var end := false;
      ScanStart(r, id, store);
      while !end
        invariant Valid() && frames.Contents == store && at <= |store|
        invariant Scanned(r, Value(), id, store, at)
        invariant end ==> at == |store|
        invariant Publishes(updates, id, whole)
        decreases !end, |store| - at
      {
        ghost var to: nat := Min(|store|, at + MAX_FILTER_SIZE);
        var more;
        more, end := ScanOn(id, r, at, to, whole);
        PublishesMore(updates, more, id, whole);
        updates := updates + more;
        at := to;
      }
    }

    /** process_filters, with the filters taken in any order. */
    method ProcessFilters() returns (updates: seq<Update>)
      requires Valid() && AllBehind(Value(), frames.Contents)
      modifies this`filters, this`filtered, this`reported
      ensures Valid() && frames.Contents == old(frames.Contents)
      ensures Value() == CatchUp(old(Value()), frames.Contents)
      ensures UpToDate(Value(), frames.Contents)
      ensures forall u :: u in updates ==>
        u.id in old(filters) && u.list <= Passing(old(filters)[u.id].filter, frames.Contents)
    {
      ghost var r, store := Value(), frames.Contents;
      updates := [];
      var todo := filters.Keys;
      while todo != {}
        invariant Valid() && frames.Contents == store
        invariant Midway(Value(), r, store, todo)
        invariant forall u :: u in updates ==>
          u.id in r.filters && u.list <= Passing(r.filters[u.id].filter, store)
        decreases |todo|
      {
        var id :| id in todo;
        MidwayStep(Value(), r, store, todo, id);
        var more := ScanFilter(id);
        updates := updates + more;
        todo := todo - {id};
      }
      MidwayDone(Value(), r, store);
      CatchUpCompletes(r, store);
    }

    // The frames of one block that pass.
    method SelectBlock(offset: nat, len: nat, filter: Option<Filter>) returns (selected: seq<Frame>)
      requires Valid() && offset + len <= |frames.Contents|
      ensures selected == Exported(filter, frames.Contents[offset..offset + len])
    {
      var block := frames.Range(offset, len);
      selected := [];
      for k := 0 to |block|
        invariant selected == Exported(filter, block[..k])
      {
        assert block[..k + 1][..k] == block[..k];
        if filter.None? || filter.value.matches(block[k].body.layers) {
          selected := selected + [block[k]];
        }
      }
      assert block[..|block|] == block;
    }

    // All blocks, up to the first refused write.
    method WriteBlocks(output: Output, filter: Option<Filter>) returns (refused: bool, offset: nat)
      requires Valid() && output !in frames.Repr && output.writes == [] && output.ends == 0
      modifies output`writes
      ensures Valid() && frames.Contents == old(frames.Contents)
      ensures Written(filter, frames.Contents, offset, output.writes)
      ensures !refused ==> offset == |frames.Contents|
      ensures Accepts(output.refusesWrite, |output.writes| - if refused then 1 else 0)
      ensures refused ==> output.writes != [] && output.refusesWrite(|output.writes| - 1)
    {
      ghost var store := frames.Contents;
      offset := 0;
      WrittenNothing(filter, store);
      while offset < frames.len
        invariant Valid() && frames.Contents == store
        invariant Written(filter, store, offset, output.writes)
        invariant Accepts(output.refusesWrite, |output.writes|)
      {
        var len := Min(OUTPUT_BLOCK_SIZE, frames.len - offset);
        var selected := SelectBlock(offset, len, filter);
        ghost var writes, next := output.writes, offset + len;
        var ok := output.Write(selected);
        BlockWritten(output, filter, store, offset, writes, len, selected, next, ok);
        offset := offset + len;
        if !ok {
          return true, offset;
        }
      }
      refused := false;
    }

    /** process_output: the returned flag says whether the single on_output_done call carries an error.
        Each write is the frames of its block at the positions that pass, in order. With no refusal they are all the
        blocks, and together the frames of the store that pass, followed by one end; a refused write is the last call. */
    method ProcessOutput(output: Output, filter: Option<Filter>) returns (failed: bool)
      requires Valid() && output !in frames.Repr && output.writes == [] && output.ends == 0
      modifies output
      ensures frames.Contents == old(frames.Contents)
      ensures failed == (output.refusesEnd || !Accepts(output.refusesWrite, Blocks(|frames.Contents|)))
      ensures !failed ==>
        && IsExport(filter, frames.Contents, Flatten(output.writes))
        && |output.writes| == Blocks(|frames.Contents|) && output.ends == 1
      ensures BlockByBlock(filter, frames.Contents, output.writes) && |output.writes| <= Blocks(|frames.Contents|)
      ensures Accepts(output.refusesWrite, |output.writes| - 1)
      ensures output.ends == if Accepts(output.refusesWrite, |output.writes|) then 1 else 0
    {
      var refused, offset := WriteBlocks(output, filter);
      WrittenIsPrefix(filter, frames.Contents, offset, output.writes);
      if refused {
        return true;
      }
      var ok := output.End();
      failed := !ok;
    }
  }
}
