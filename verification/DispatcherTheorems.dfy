// What a pass of the dispatcher guarantees.
module DispatcherTheorems {
  import opened Base
  import opened Frames
  import opened Dispatcher
  import opened LevelOrder

  // ---- Each decoder accepts at most once

  // After accepting, a decoder is not called again.
  ghost predicate AtMostOnce(calls: seq<Call>)
  {
    forall j, k :: 0 <= j < k < |calls| && calls[j].accepted ==> calls[j].decoder != calls[k].decoder
  }

  ghost predicate CallsOk<W>(p: Pass<W>)
  {
    && AtMostOnce(p.calls)
    && (forall k :: 0 <= k < |p.calls| && p.calls[k].accepted ==>
          p.calls[k].decoder < |p.used| && p.used[p.calls[k].decoder])
  }

  lemma OfferCalls<W(!new)>(ds: seq<Decoder<W>>, p: Pass<W>, index: nat, r: nat)
    requires Fits(ds, p) && Polite(ds) && index < |p.layers| && r < |ds| && CallsOk(p)
    ensures CallsOk(Offer(ds, p, index, r))
  {
  }

  lemma {:induction false} SweepCalls<W(!new)>(ds: seq<Decoder<W>>, p: Pass<W>, index: nat, r: nat)
    requires Fits(ds, p) && Polite(ds) && index < |p.layers| && r <= |ds| && CallsOk(p)
    ensures CallsOk(Sweep(ds, p, index, r))
    decreases |ds| - r
  {
    if r < |ds| {
      OfferCalls(ds, p, index, r);
      SweepCalls(ds, Offer(ds, p, index, r), index, r + 1);
    }
  }

  lemma {:induction false} SettleCalls<W(!new)>(ds: seq<Decoder<W>>, p: Pass<W>, index: nat)
    requires Fits(ds, p) && Polite(ds) && index < |p.layers| && CallsOk(p)
    ensures CallsOk(Settle(ds, p, index))
    decreases Unused(p.used)
  {
    SweepCalls(ds, p, index, 0);
    var q := Sweep(ds, p, index, 0);
    if q.used != p.used {
      SettleCalls(ds, q, index);
    }
  }

  lemma {:induction false} VisitRangeCalls<W(!new)>(ds: seq<Decoder<W>>, p: Pass<W>, index: nat, end: nat)
    requires Fits(ds, p) && Polite(ds) && index <= end <= |p.layers| && CallsOk(p)
    ensures CallsOk(VisitRange(ds, p, index, end))
    decreases end - index
  {
    if index < end {
      SettleCalls(ds, p, index);
      VisitRangeCalls(ds, Visit(ds, p, index), index + 1, end);
    }
  }

  lemma {:induction false} RoundsCalls<W(!new)>(ds: seq<Decoder<W>>, p: Pass<W>, offset: nat)
    requires Fits(ds, p) && Polite(ds) && offset <= |p.layers| && CallsOk(p)
    ensures CallsOk(Rounds(ds, p, offset))
    decreases Unused(p.used)
  {
    VisitRangeCalls(ds, p, offset, |p.layers|);
    var q := VisitRange(ds, p, offset, |p.layers|);
    if |q.layers| > |p.layers| {
      RoundsCalls(ds, q, |p.layers|);
    }
  }

  /** In one frame a decoder accepts at most one layer, and is offered none after that. */
  lemma AcceptedAtMostOnce<W(!new)>(ds: seq<Decoder<W>>, workers: seq<Option<W>>, body: Body)
    requires |workers| == |ds| && Polite(ds)
    ensures AtMostOnce(Process(ds, workers, body).calls)
  {
    RoundsCalls(ds, Begin(workers, body), 0);
  }

  // ---- The level-order encoding

  // The parents of the layers after the root, when layer i has kids[i] children, in level order.
  function Origins(kids: seq<nat>): (s: seq<nat>)
    ensures |s| == Sum(kids)
  {
    if kids == [] then [] else Origins(kids[..|kids| - 1]) + Repeat(|kids| - 1, kids[|kids| - 1])
  }

  // The layer added as number j lists its parent.
  lemma {:induction false} OriginsAt(kids: seq<nat>, j: nat)
    requires j < Sum(kids)
    ensures IsChild(kids, Origins(kids)[j], 1 + j)
  {
    var n := |kids| - 1;
    var init := kids[..n];
    assert kids[..n + 1] == kids;
    if j < Sum(init) {
      OriginsAt(init, j);
      var i := Origins(init)[j];
      assert init[..i] == kids[..i] && init[..i + 1] == kids[..i + 1];
    }
  }

  // From p to q, all layers that were added were added to layer index.
  ghost predicate GrownAt<W>(p: Pass<W>, q: Pass<W>, index: nat)
  {
    |p.layers| <= |q.layers| && q.origins == p.origins + Repeat(index, |q.layers| - |p.layers|)
  }

  lemma OfferGrows<W(!new)>(ds: seq<Decoder<W>>, p: Pass<W>, index: nat, r: nat)
    requires Fits(ds, p) && Polite(ds) && index < |p.layers| && r < |ds|
    ensures GrownAt(p, Offer(ds, p, index, r), index)
  {
  }

  lemma RepeatTwice(x: nat, a: seq<nat>, b: seq<nat>, c: seq<nat>, m: nat, n: nat)
    requires b == a + Repeat(x, m) && c == b + Repeat(x, n)
    ensures c == a + Repeat(x, m + n)
  {
  }

  lemma GrownTwice<W>(p: Pass<W>, o: Pass<W>, q: Pass<W>, index: nat)
    requires GrownAt(p, o, index) && GrownAt(o, q, index)
    ensures GrownAt(p, q, index)
  {
    RepeatTwice(index, p.origins, o.origins, q.origins, |o.layers| - |p.layers|, |q.layers| - |o.layers|);
  }

  lemma {:induction false} SweepGrows<W(!new)>(ds: seq<Decoder<W>>, p: Pass<W>, index: nat, r: nat)
    requires Fits(ds, p) && Polite(ds) && index < |p.layers| && r <= |ds|
    ensures GrownAt(p, Sweep(ds, p, index, r), index)
    decreases |ds| - r
  {
    if r < |ds| {
      var o := Offer(ds, p, index, r);
      OfferGrows(ds, p, index, r);
      SweepGrows(ds, o, index, r + 1);
      GrownTwice(p, o, Sweep(ds, o, index, r + 1), index);
    }
  }

  lemma {:induction false} SettleGrows<W(!new)>(ds: seq<Decoder<W>>, p: Pass<W>, index: nat)
    requires Fits(ds, p) && Polite(ds) && index < |p.layers|
    ensures GrownAt(p, Settle(ds, p, index), index)
    decreases Unused(p.used)
  {
    var o := Sweep(ds, p, index, 0);
    SweepGrows(ds, p, index, 0);
    if o.used != p.used {
      SettleGrows(ds, o, index);
      GrownTwice(p, o, Settle(ds, o, index), index);
    }
  }

  // The pass has visited exactly the layers below index.
  ghost predicate Encoded<W>(p: Pass<W>, index: nat)
  {
    && index == |p.kids| <= |p.layers| == 1 + |p.origins|
    && p.counts == Truncated(p.kids)
    && p.origins == Origins(p.kids)
    && forall i :: 0 <= i < index ==> i < ChildStart(p.kids, i)
  }

  // One more count at the end of a list does not move the blocks before it.
  lemma OneMoreStart(kids: seq<nat>, n: nat, i: nat)
    requires i <= |kids|
    ensures ChildStart(kids + [n], i) == ChildStart(kids, i)
  {
    assert (kids + [n])[..i] == kids[..i];
  }

  lemma OneMoreOrigin(kids: seq<nat>, n: nat, all: seq<nat>, m: nat)
    requires all == kids + [n] && m == |kids|
    ensures Origins(all) == Origins(kids) + Repeat(m, n)
  {
    assert all[..m] == kids && all[m] == n && |all| - 1 == m;
  }

  lemma OneMoreTruncated(kids: seq<nat>, n: nat)
    ensures Truncated(kids + [n]) == Truncated(kids) + [n % 0x100]
  {
    var all, cut := kids + [n], Truncated(kids) + [n % 0x100];
    forall i | 0 <= i < |all| ensures Truncated(all)[i] == cut[i] {
      if i < |kids| { assert all[i] == kids[i]; }
    }
  }

  lemma OriginsSize(kids: seq<nat>)
    ensures ChildStart(kids, |kids|) == 1 + |Origins(kids)|
  {
    assert kids[..|kids|] == kids;
  }

  lemma VisitEncodes<W(!new)>(ds: seq<Decoder<W>>, p: Pass<W>, index: nat)
    requires Fits(ds, p) && Polite(ds) && index < |p.layers| && Encoded(p, index)
    ensures Encoded(Visit(ds, p, index), index + 1)
  {
    SettleGrows(ds, p, index);
    var n := |Settle(ds, p, index).layers| - |p.layers|;
    OneMoreOrigin(p.kids, n, p.kids + [n], index);
    OneMoreTruncated(p.kids, n);
    OriginsSize(p.kids);
    forall i | 0 <= i <= index ensures ChildStart(p.kids + [n], i) == ChildStart(p.kids, i) {
      OneMoreStart(p.kids, n, i);
    }
  }

  lemma {:induction false} VisitRangeEncodes<W(!new)>(ds: seq<Decoder<W>>, p: Pass<W>, index: nat, end: nat)
    requires Fits(ds, p) && Polite(ds) && index <= end <= |p.layers| && Encoded(p, index)
    ensures Encoded(VisitRange(ds, p, index, end), end)
    decreases end - index
  {
    if index < end {
      VisitEncodes(ds, p, index);
      VisitRangeEncodes(ds, Visit(ds, p, index), index + 1, end);
    }
  }

  lemma {:induction false} RoundsEncode<W(!new)>(ds: seq<Decoder<W>>, p: Pass<W>, offset: nat)
    requires Fits(ds, p) && Polite(ds) && offset <= |p.layers| && Encoded(p, offset)
    ensures var q := Rounds(ds, p, offset); Encoded(q, |q.layers|)
    decreases Unused(p.used)
  {
    VisitRangeEncodes(ds, p, offset, |p.layers|);
    var q := VisitRange(ds, p, offset, |p.layers|);
    if |q.layers| > |p.layers| {
      RoundsEncode(ds, q, |p.layers|);
    }
  }

  /** After the first pass on a fresh frame there is one count per layer. The true child counts form a
      level-order list: the layers that were added to layer i are the contiguous block of IsChild(kids, i, _),
      every parent comes before its children. The stored counts are the true ones modulo 256. */
  lemma FirstPassEncodes<W(!new)>(ds: seq<Decoder<W>>, workers: seq<Option<W>>, root: Layer)
    requires |workers| == |ds| && Polite(ds)
    ensures var q := Process(ds, workers, Body([root], []));
      && |q.counts| == |q.layers| == |q.kids| == 1 + |q.origins|
      && q.counts == Truncated(q.kids)
      && ValidCounts(q.kids)
      && forall j :: 0 <= j < |q.origins| ==> IsChild(q.kids, q.origins[j], 1 + j)
  {
    var p := Begin(workers, Body([root], []));
    assert Encoded(p, 0);
    RoundsEncode(ds, p, 0);
    var q := Process(ds, workers, Body([root], []));
    assert q.kids[..|q.kids|] == q.kids;
    forall j | 0 <= j < |q.origins| ensures IsChild(q.kids, q.origins[j], 1 + j) {
      OriginsAt(q.kids, j);
    }
  }

  /** The stored counts add up to the number of layers but one, which is what a reader needs to rebuild
      the tree, exactly when no layer has 256 or more children; then they are the true counts. */
  lemma CountsAddUpIff<W(!new)>(ds: seq<Decoder<W>>, workers: seq<Option<W>>, root: Layer)
    requires |workers| == |ds| && Polite(ds)
    ensures var q := Process(ds, workers, Body([root], []));
      && (1 + Sum(q.counts) == |q.layers| <==> Narrow(q.kids))
      && (Narrow(q.kids) ==> q.counts == q.kids)
  {
    var q := Process(ds, workers, Body([root], []));
    FirstPassEncodes(ds, workers, root);
    TruncatedSum(q.kids);
    assert q.kids[..|q.kids|] == q.kids;
    assert Narrow(q.kids) ==> Truncated(q.kids) == q.kids;
  }

  // ---- The second pass

  // The workers add attributes and payloads, but no layers.
  ghost predicate NoLayers<W(!new)>(ds: seq<Decoder<W>>)
  {
    forall r, w, layers, index :: 0 <= r < |ds| && 0 <= index < |layers| ==>
      AddsNoLayer(ds[r].decode(w, layers, index), layers[index])
  }

  predicate AddsNoLayer<W>(o: Outcome<W>, layer: Layer)
  {
    o.children == [] && Grows(layer, o.layer)
  }

  // Attributes and payloads are added at the end; a worker can do nothing else to a layer.
  predicate Grows(before: Layer, after: Layer)
  {
    && after.id == before.id && after.headers == before.headers && after.data == before.data
    && before.attrs <= after.attrs && before.payloads <= after.payloads
  }

  // The same layers, up to attributes and payloads added to them.
  predicate SameLayers(a: seq<Layer>, b: seq<Layer>)
  {
    |a| == |b| && forall i :: 0 <= i < |a| ==> Grows(a[i], b[i])
  }

  lemma SameLayersJoin(a: seq<Layer>, b: seq<Layer>, c: seq<Layer>)
    requires SameLayers(a, b) && SameLayers(b, c)
    ensures SameLayers(a, c)
  {
    forall i | 0 <= i < |a| ensures Grows(a[i], c[i]) {
      assert Grows(a[i], b[i]) && Grows(b[i], c[i]);
    }
  }

  lemma OfferSameLayers<W(!new)>(ds: seq<Decoder<W>>, p: Pass<W>, index: nat, r: nat)
    requires Fits(ds, p) && Polite(ds) && NoLayers(ds) && index < |p.layers| && r < |ds|
    ensures SameLayers(p.layers, Offer(ds, p, index, r).layers)
  {
    if !p.used[r] && p.workers[r].Some? {
      assert AddsNoLayer(ds[r].decode(p.workers[r].value, p.layers, index), p.layers[index]);
    }
  }

  lemma {:induction false} SweepSameLayers<W(!new)>(ds: seq<Decoder<W>>, p: Pass<W>, index: nat, r: nat)
    requires Fits(ds, p) && Polite(ds) && NoLayers(ds) && index < |p.layers| && r <= |ds|
    ensures SameLayers(p.layers, Sweep(ds, p, index, r).layers)
    decreases |ds| - r
  {
    if r < |ds| {
      var q := Offer(ds, p, index, r);
      OfferSameLayers(ds, p, index, r);
      SweepSameLayers(ds, q, index, r + 1);
      SameLayersJoin(p.layers, q.layers, Sweep(ds, q, index, r + 1).layers);
    }
  }

  lemma {:induction false} SettleSameLayers<W(!new)>(ds: seq<Decoder<W>>, p: Pass<W>, index: nat)
    requires Fits(ds, p) && Polite(ds) && NoLayers(ds) && index < |p.layers|
    ensures SameLayers(p.layers, Settle(ds, p, index).layers)
    decreases Unused(p.used)
  {
    SweepSameLayers(ds, p, index, 0);
    var q := Sweep(ds, p, index, 0);
    if q.used != p.used {
      SettleSameLayers(ds, q, index);
      SameLayersJoin(p.layers, q.layers, Settle(ds, q, index).layers);
    }
  }

  // How many of the layers from index on are leaves.
  function Leaves(counts: seq<nat>, index: nat, end: nat): nat
    requires index <= end <= |counts|
    decreases end - index
  {
    if index == end then 0 else (if counts[index] == 0 then 1 else 0) + Leaves(counts, index + 1, end)
  }

  lemma LeavesUnfold(counts: seq<nat>, index: nat, next: nat, end: nat, zeros: nat, more: nat)
    requires index < end <= |counts| && next == index + 1 && more == zeros + if counts[index] == 0 then 1 else 0
    ensures zeros + Leaves(counts, index, end) == more + Leaves(counts, next, end)
  {
  }

  lemma VisitAppendsZero<W(!new)>(ds: seq<Decoder<W>>, p: Pass<W>, counts: seq<nat>, zeros: nat, more: nat, index: nat)
    requires Fits(ds, p) && Polite(ds) && NoLayers(ds) && index < |p.layers| == |counts|
    requires p.counts == counts + Repeat(0, zeros) && more == zeros + if counts[index] == 0 then 1 else 0
    ensures var q := Visit(ds, p, index);
      SameLayers(p.layers, q.layers) && q.counts == counts + Repeat(0, more)
  {
    SettleSameLayers(ds, p, index);
    assert p.counts[index] == counts[index];
  }

  lemma {:induction false} VisitRangeAppendsZeros<W(!new)>(ds: seq<Decoder<W>>, p: Pass<W>, counts: seq<nat>,
                                                           zeros: nat, index: nat, end: nat, total: nat)
    requires Fits(ds, p) && Polite(ds) && NoLayers(ds) && index <= end == |p.layers| == |counts|
    requires p.counts == counts + Repeat(0, zeros) && total == zeros + Leaves(counts, index, end)
    ensures var q := VisitRange(ds, p, index, end);
      SameLayers(p.layers, q.layers) && q.counts == counts + Repeat(0, total)
    decreases end - index
  {
    if index < end {
      var q, next, more := Visit(ds, p, index), index + 1, zeros + if counts[index] == 0 then 1 else 0;
      VisitAppendsZero(ds, p, counts, zeros, more, index);
      VisitRangeUnfolds(ds, p, index, next, end);
      LeavesUnfold(counts, index, next, end, zeros, more);
      VisitRangeAppendsZeros(ds, q, counts, more, next, end, total);
      SameLayersJoin(p.layers, q.layers, VisitRange(ds, q, next, end).layers);
    }
  }

  /** A pass over a frame that already has its counts, by workers that add no layers, keeps the layers
      and appends one zero count for every leaf. */
  lemma SecondPassAppendsZeros<W(!new)>(ds: seq<Decoder<W>>, workers: seq<Option<W>>, body: Body)
    requires |workers| == |ds| && Polite(ds) && NoLayers(ds) && |body.counts| == |body.layers|
    ensures var r := Result(Process(ds, workers, body));
      && SameLayers(body.layers, r.layers)
      && r.counts == body.counts + Repeat(0, Leaves(body.counts, 0, |body.counts|))
  {
    assert body.counts == body.counts + Repeat(0, 0);
    var size := |body.layers|;
    VisitRangeAppendsZeros(ds, Begin(workers, body), body.counts, 0, 0, size, Leaves(body.counts, 0, size));
  }

  // ---- Parallel workers whose results depend on the frame alone

  // What a worker does to a frame does not depend on the worker's memory.
  ghost predicate Memoryless<W(!new)>(ds: seq<Decoder<W>>)
  {
    forall r, w, w', layers, index :: 0 <= r < |ds| ==>
      SameEffect(ds[r].decode(w, layers, index), ds[r].decode(w', layers, index))
  }

  predicate SameEffect<W>(o: Outcome<W>, o': Outcome<W>)
  {
    o.status == o'.status && o.layer == o'.layer && o.children == o'.children
  }

  // Passes that differ in the workers' memories only.
  predicate Alike<W>(p: Pass<W>, q: Pass<W>)
  {
    && p.used == q.used && p.layers == q.layers && p.counts == q.counts
    && |p.workers| == |q.workers|
    && forall r :: 0 <= r < |p.workers| ==> (p.workers[r].None? <==> q.workers[r].None?)
  }

  lemma OfferAlike<W(!new)>(ds: seq<Decoder<W>>, p: Pass<W>, q: Pass<W>, index: nat, r: nat)
    requires Fits(ds, p) && Polite(ds) && Memoryless(ds) && index < |p.layers| && r < |ds| && Alike(p, q)
    ensures Alike(Offer(ds, p, index, r), Offer(ds, q, index, r))
  {
    if !p.used[r] && p.workers[r].Some? {
      assert SameEffect(ds[r].decode(p.workers[r].value, p.layers, index),
                        ds[r].decode(q.workers[r].value, p.layers, index));
    }
  }

  lemma {:induction false} SweepAlike<W(!new)>(ds: seq<Decoder<W>>, p: Pass<W>, q: Pass<W>, index: nat, r: nat)
    requires Fits(ds, p) && Polite(ds) && Memoryless(ds) && index < |p.layers| && r <= |ds| && Alike(p, q)
    ensures Alike(Sweep(ds, p, index, r), Sweep(ds, q, index, r))
    decreases |ds| - r
  {
    if r < |ds| {
      OfferAlike(ds, p, q, index, r);
      SweepAlike(ds, Offer(ds, p, index, r), Offer(ds, q, index, r), index, r + 1);
    }
  }

  lemma {:induction false} SettleAlike<W(!new)>(ds: seq<Decoder<W>>, p: Pass<W>, q: Pass<W>, index: nat)
    requires Fits(ds, p) && Polite(ds) && Memoryless(ds) && index < |p.layers| && Alike(p, q)
    ensures Alike(Settle(ds, p, index), Settle(ds, q, index))
    decreases Unused(p.used)
  {
    SweepAlike(ds, p, q, index, 0);
    var p', q' := Sweep(ds, p, index, 0), Sweep(ds, q, index, 0);
    if p'.used != p.used {
      SettleAlike(ds, p', q', index);
    }
  }

  lemma VisitAlike<W(!new)>(ds: seq<Decoder<W>>, p: Pass<W>, q: Pass<W>, index: nat)
    requires Fits(ds, p) && Polite(ds) && Memoryless(ds) && index < |p.layers| && Alike(p, q)
    ensures Alike(Visit(ds, p, index), Visit(ds, q, index))
  {
    SettleAlike(ds, p, q, index);
  }

  lemma {:induction false} VisitRangeAlike<W(!new)>(ds: seq<Decoder<W>>, p: Pass<W>, q: Pass<W>, index: nat, end: nat)
    requires Fits(ds, p) && Polite(ds) && Memoryless(ds) && index <= end <= |p.layers| && Alike(p, q)
    ensures Alike(VisitRange(ds, p, index, end), VisitRange(ds, q, index, end))
    decreases end - index
  {
    if index < end {
      var next := index + 1;
      VisitAlike(ds, p, q, index);
      VisitRangeUnfolds(ds, p, index, next, end);
      VisitRangeUnfolds(ds, q, index, next, end);
      VisitRangeAlike(ds, Visit(ds, p, index), Visit(ds, q, index), next, end);
    }
  }

  lemma {:induction false} RoundsAlike<W(!new)>(ds: seq<Decoder<W>>, p: Pass<W>, q: Pass<W>, offset: nat)
    requires Fits(ds, p) && Polite(ds) && Memoryless(ds) && offset <= |p.layers| && Alike(p, q)
    ensures Alike(Rounds(ds, p, offset), Rounds(ds, q, offset))
    decreases Unused(p.used)
  {
    VisitRangeAlike(ds, p, q, offset, |p.layers|);
    var p', q' := VisitRange(ds, p, offset, |p.layers|), VisitRange(ds, q, offset, |p.layers|);
    if |p'.layers| > |p.layers| {
      RoundsAlike(ds, p', q', |p.layers|);
    }
  }

  /** Whichever worker thread decodes a frame, and whatever it decoded before, the frame comes out the same. */
  lemma AnyWorkerAlike<W(!new)>(ds: seq<Decoder<W>>, ws: seq<Option<W>>, ws': seq<Option<W>>, body: Body)
    requires |ws| == |ds| && Polite(ds) && Memoryless(ds) && SameRoles(ws, ws')
    ensures Result(Process(ds, ws, body)) == Result(Process(ds, ws', body))
  {
    RoundsAlike(ds, Begin(ws, body), Begin(ws', body), 0);
  }

  // ---- Roles

  // The same decoders have workers.
  predicate SameRoles<W>(ws: seq<Option<W>>, ws': seq<Option<W>>)
  {
    |ws| == |ws'| && forall r :: 0 <= r < |ws| ==> (ws[r].None? <==> ws'[r].None?)
  }

  lemma {:induction false} SweepKeepsRoles<W(!new)>(ds: seq<Decoder<W>>, p: Pass<W>, index: nat, r: nat)
    requires Fits(ds, p) && Polite(ds) && index < |p.layers| && r <= |ds|
    ensures SameRoles(p.workers, Sweep(ds, p, index, r).workers)
    decreases |ds| - r
  {
    if r < |ds| {
      assert SameRoles(p.workers, Offer(ds, p, index, r).workers);
      SweepKeepsRoles(ds, Offer(ds, p, index, r), index, r + 1);
    }
  }

  lemma {:induction false} SettleKeepsRoles<W(!new)>(ds: seq<Decoder<W>>, p: Pass<W>, index: nat)
    requires Fits(ds, p) && Polite(ds) && index < |p.layers|
    ensures SameRoles(p.workers, Settle(ds, p, index).workers)
    decreases Unused(p.used)
  {
    SweepKeepsRoles(ds, p, index, 0);
    var q := Sweep(ds, p, index, 0);
    if q.used != p.used { SettleKeepsRoles(ds, q, index); }
  }

  lemma {:induction false} VisitRangeKeepsRoles<W(!new)>(ds: seq<Decoder<W>>, p: Pass<W>, index: nat, end: nat)
    requires Fits(ds, p) && Polite(ds) && index <= end <= |p.layers|
    ensures SameRoles(p.workers, VisitRange(ds, p, index, end).workers)
    decreases end - index
  {
    if index < end {
      SettleKeepsRoles(ds, p, index);
      VisitRangeKeepsRoles(ds, Visit(ds, p, index), index + 1, end);
    }
  }

  lemma {:induction false} RoundsKeepRoles<W(!new)>(ds: seq<Decoder<W>>, p: Pass<W>, offset: nat)
    requires Fits(ds, p) && Polite(ds) && offset <= |p.layers|
    ensures SameRoles(p.workers, Rounds(ds, p, offset).workers)
    decreases Unused(p.used)
  {
    VisitRangeKeepsRoles(ds, p, offset, |p.layers|);
    var q := VisitRange(ds, p, offset, |p.layers|);
    if |q.layers| > |p.layers| { RoundsKeepRoles(ds, q, |p.layers|); }
  }

  /** A frame gives no decoder a worker and takes none away, so that the next frame finds the same roles. */
  lemma ProcessKeepsRoles<W(!new)>(ds: seq<Decoder<W>>, workers: seq<Option<W>>, body: Body)
    requires |workers| == |ds| && Polite(ds)
    ensures SameRoles(workers, Process(ds, workers, body).workers)
  {
    RoundsKeepRoles(ds, Begin(workers, body), 0);
  }
}
