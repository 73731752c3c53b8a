// What one turn of the event loop does to the numbering, the frame store and the filter
// results (genet-kernel/src/store.rs).
module EventLoop {
  import opened Base
  import opened Frames

  // A filter is opaque here: Matches is its test on the layers of a frame.
  datatype Filter = Filter(matches: seq<Layer> -> bool)

  datatype FilterContext = FilterContext(filter: Filter, offset: nat)

  // filters: the active filters and how much of the store each has seen; filtered: the published lists;
  // reported: the length last passed to on_filtered_frames_updated.
  datatype Results = Results(
    filters: map<nat, FilterContext>,
    filtered: map<nat, seq<nat>>,
    reported: map<nat, nat>)

  const NO_RESULTS := Results(map[], map[], map[])

  function Fresh(root: Layer): Body
  {
    Body([root], [])
  }

  // The u32 index of the k-th frame of a batch when cnt frames came before.
  function Index(cnt: nat, k: nat): nat
  {
    (cnt + k) % TWO_32
  }

  // process_input: consecutive indices for the layers of one batch.
  function Number(cnt: nat, roots: seq<Layer>): seq<Frame>
  {
    seq(|roots|, k requires 0 <= k < |roots| => Frame(Index(cnt, k), Fresh(roots[k])))
  }

  // The indices of the frames that pass the filter.
  function Passing(filter: Filter, frames: seq<Frame>): seq<nat>
  {
    if frames == [] then []
    else
      var last := frames[|frames| - 1];
      Passing(filter, frames[..|frames| - 1]) + if filter.matches(last.body.layers) then [last.index] else []
  }

  lemma {:induction false} PassingAppend(filter: Filter, a: seq<Frame>, b: seq<Frame>)
    ensures Passing(filter, a + b) == Passing(filter, a) + Passing(filter, b)
  {
    if b == [] {
      assert a + b == a;
    } else {
      PassingAppend(filter, a, b[..|b| - 1]);
      assert (a + b)[..|a + b| - 1] == a + b[..|b| - 1];
    }
  }

  lemma PassingSlices(filter: Filter, store: seq<Frame>, a: nat, b: nat)
    requires a <= b <= |store|
    ensures Passing(filter, store[..b]) == Passing(filter, store[..a]) + Passing(filter, store[a..b])
  {
    PassingAppend(filter, store[..a], store[a..b]);
    assert store[..b] == store[..a] + store[a..b];
  }

  function Listed(filtered: map<nat, seq<nat>>, id: nat): seq<nat>
  {
    if id in filtered then filtered[id] else []
  }

  // process_push_filter
  function PushFilter(r: Results, id: nat, filter: Option<Filter>): Results
  {
    var filtered := r.filtered - {id};
    if filter.Some? then
      Results(r.filters[id := FilterContext(filter.value, 0)], filtered, r.reported[id := 0])
    else
      Results(r.filters - {id}, filtered, r.reported)
  }

  // What a filter still has to add to its list.
  function Fresher(r: Results, id: nat, store: seq<Frame>): seq<nat>
    requires id in r.filters
  {
    var ctx := r.filters[id];
    Passing(ctx.filter, store[Min(ctx.offset, |store|)..])
  }

  // process_filters, without its division into chunks: every active filter looks at what it has
  // not seen, and a list is touched only when something is added to it.
  function CatchUp(r: Results, store: seq<Frame>): Results
  {
    Results(
      map id | id in r.filters :: r.filters[id].(offset := |store|),
      map id | id in r.filtered.Keys + Grown(r, store) :: Listed(r.filtered, id) + Added(r, id, store),
      map id | id in r.reported.Keys + Grown(r, store) ::
        if id in Grown(r, store) then |Listed(r.filtered, id) + Added(r, id, store)| else r.reported[id])
  }

  function Added(r: Results, id: nat, store: seq<Frame>): seq<nat>
  {
    if id in r.filters then Fresher(r, id, store) else []
  }

  function Grown(r: Results, store: seq<Frame>): set<nat>
  {
    set id | id in r.filters && Fresher(r, id, store) != []
  }

  // For every active filter the published list is, in order, the indices of the stored frames that pass,
  // and that length was reported; no other list exists.
  ghost predicate UpToDate(r: Results, store: seq<Frame>)
  {
    && r.filtered.Keys <= r.filters.Keys
    && (forall id :: id in r.filters ==> FilterUpToDate(r, id, store))
  }

  ghost predicate FilterUpToDate(r: Results, id: nat, store: seq<Frame>)
    requires id in r.filters
  {
    && r.filters[id].offset == |store|
    && Listed(r.filtered, id) == Passing(r.filters[id].filter, store)
    && id in r.reported && r.reported[id] == |Listed(r.filtered, id)|
  }

  // Between commands a filter may lag behind the store, but what it lists is right for what it has seen.
  ghost predicate Behind(r: Results, id: nat, store: seq<Frame>)
    requires id in r.filters
  {
    && r.filters[id].offset <= |store|
    && Listed(r.filtered, id) == Passing(r.filters[id].filter, store[..r.filters[id].offset])
    && id in r.reported && r.reported[id] == |Listed(r.filtered, id)|
  }

  ghost predicate AllBehind(r: Results, store: seq<Frame>)
  {
    && r.filtered.Keys <= r.filters.Keys
    && (forall id :: id in r.filters ==> Behind(r, id, store))
  }

  lemma CatchUpAt(r: Results, store: seq<Frame>, id: nat)
    requires id in r.filters && (Fresher(r, id, store) == [] ==> id in r.reported)
    ensures var r' := CatchUp(r, store);
      && Listed(r'.filtered, id) == Listed(r.filtered, id) + Fresher(r, id, store)
      && (id in r'.filtered <==> id in r.filtered || Fresher(r, id, store) != [])
      && id in r'.reported
      && r'.reported[id] ==
        if Fresher(r, id, store) == [] then r.reported[id] else |Listed(r'.filtered, id)|
  {
    assert Added(r, id, store) == Fresher(r, id, store);
    assert id in Grown(r, store) <==> Fresher(r, id, store) != [];
  }

  lemma BehindCatchesUp(r: Results, store: seq<Frame>, id: nat)
    requires id in r.filters && Behind(r, id, store)
    ensures FilterUpToDate(CatchUp(r, store), id, store)
  {
    var ctx := r.filters[id];
    CatchUpAt(r, store, id);
    PassingSlices(ctx.filter, store, ctx.offset, |store|);
    assert store[..|store|] == store && store[ctx.offset..|store|] == store[ctx.offset..];
  }

  /** A turn ends with every list complete. */
  lemma CatchUpCompletes(r: Results, store: seq<Frame>)
    requires AllBehind(r, store)
    ensures UpToDate(CatchUp(r, store), store)
  {
    forall id | id in r.filters ensures FilterUpToDate(CatchUp(r, store), id, store) {
      BehindCatchesUp(r, store, id);
    }
    assert CatchUp(r, store).filters.Keys == r.filters.Keys;
    assert CatchUp(r, store).filtered.Keys <= r.filtered.Keys + r.filters.Keys;
  }

  /** More frames in the store leave every list right for the part its filter has seen. */
  lemma StoreGrows(r: Results, store: seq<Frame>, more: seq<Frame>)
    requires UpToDate(r, store)
    ensures AllBehind(r, store + more)
  {
    forall id | id in r.filters ensures Behind(r, id, store + more) {
      assert FilterUpToDate(r, id, store);
      assert (store + more)[..|store|] == store;
    }
  }

  /** Setting, replacing or removing a filter leaves nothing of the old list behind. */
  lemma PushFilterForgets(r: Results, id: nat, filter: Option<Filter>, store: seq<Frame>)
    requires UpToDate(r, store)
    ensures AllBehind(PushFilter(r, id, filter), store)
    ensures Listed(PushFilter(r, id, filter).filtered, id) == []
  {
    var r' := PushFilter(r, id, filter);
    assert store[..0] == [] && store[..|store|] == store;
    forall i | i in r'.filters ensures Behind(r', i, store) {
      if i != id || filter.None? {
        assert FilterUpToDate(r, i, store);
      }
    }
  }

  /** The passing indices are increasing store positions, and exactly those of the passing frames,
      when every frame carries its own position. */
  lemma {:induction false} PassingPositions(filter: Filter, store: seq<Frame>)
    requires forall i :: 0 <= i < |store| ==> store[i].index == i
    ensures var p := Passing(filter, store);
      && (forall k :: 0 <= k < |p| ==> p[k] < |store| && filter.matches(store[p[k]].body.layers))
      && (forall j, k :: 0 <= j < k < |p| ==> p[j] < p[k])
      && (forall i :: 0 <= i < |store| && filter.matches(store[i].body.layers) ==> i in p)
  {
    if store != [] {
      PassingPositions(filter, store[..|store| - 1]);
    }
  }
}
