// When the dispatcher leaves a layer: nobody who is still unused wants it.
module DispatcherRefusals {
  import opened Base
  import opened Frames
  import opened Dispatcher

  // A call that is skipped leaves its layer as it was.
  ghost predicate Inert<W(!new)>(ds: seq<Decoder<W>>)
  {
    forall r, w, layers, index :: 0 <= r < |ds| && 0 <= index < |layers| ==>
      InertCall(ds[r].decode(w, layers, index), layers[index])
  }

  predicate InertCall<W>(o: Outcome<W>, layer: Layer)
  {
    o.status.Skip? ==> o.layer == layer
  }

  // The decoders from r on that have accepted nothing, in order.
  function UnusedFrom(used: seq<bool>, r: nat): (ds: seq<nat>)
    requires r <= |used|
    ensures forall d: nat :: d in ds <==> r <= d < |used| && !used[d]
    decreases |used| - r
  {
    if r == |used| then [] else (if used[r] then [] else [r]) + UnusedFrom(used, r + 1)
  }

  // The decoder declined the layer, and saw the same layers, up to what a skipped call changed in this
  // one; in the exact case, the very same layers.
  predicate Refusal(c: Call, decoder: nat, index: nat, layers: seq<Layer>, exact: bool)
  {
    && c.decoder == decoder && c.layer == index && !c.accepted
    && index < |c.stack| == |layers| && layers == c.stack[index := layers[index]]
    && (exact ==> c.stack == layers)
  }

  // One refusal by each of the decoders, in their order.
  predicate Refused(calls: seq<Call>, decoders: seq<nat>, index: nat, layers: seq<Layer>, exact: bool)
  {
    |calls| == |decoders| && forall k :: 0 <= k < |calls| ==> Refusal(calls[k], decoders[k], index, layers, exact)
  }

  // The pass goes on from p to q in a sweep where nobody accepts.
  predicate Unmoved<W>(p: Pass<W>, q: Pass<W>, index: nat, exact: bool)
  {
    && q.used == p.used && index < |q.layers| == |p.layers|
    && q.layers == p.layers[index := q.layers[index]] && (exact ==> q.layers == p.layers)
    && p.calls <= q.calls
  }

  lemma OfferRefused<W(!new)>(ds: seq<Decoder<W>>, p: Pass<W>, index: nat, r: nat, exact: bool)
    requires Fits(ds, p) && Polite(ds) && index < |p.layers| && r < |ds| && (exact ==> Inert(ds))
    requires Unused(Offer(ds, p, index, r).used) == Unused(p.used)
    ensures var o := Offer(ds, p, index, r);
      && Unmoved(p, o, index, exact)
      && o.calls == p.calls + if p.used[r] then [] else [Call(r, index, p.layers, false)]
  {
    if !p.used[r] {
      UnusedUpdate(p.used, r);
      var o := ds[r].decode(p.workers[r].value, p.layers, index);
      assert PoliteCall(o);
      if exact { assert InertCall(o, p.layers[index]); }
    }
  }

  lemma RefusedJoin(calls: seq<Call>, decoders: seq<nat>, index: nat, before: seq<Layer>, layers: seq<Layer>, exact: bool,
                    first: Call, decoder: nat)
    requires Refused(calls, decoders, index, layers, exact) && first == Call(decoder, index, before, false)
    requires index < |before| == |layers| && layers == before[index := layers[index]] && (exact ==> before == layers)
    ensures Refused([first] + calls, [decoder] + decoders, index, layers, exact)
  {
  }

  // From p to q, a sweep from runner r on in which nobody accepts.
  predicate SweptNow<W>(p: Pass<W>, q: Pass<W>, index: nat, r: nat, exact: bool)
    requires r <= |p.used|
  {
    Unmoved(p, q, index, exact) && Refused(q.calls[|p.calls|..], UnusedFrom(p.used, r), index, q.layers, exact)
  }

  // The same as SweptNow, but behind a quantifier that no term triggers, so that the prover looks into it only where
  // SweptMeans is called. This keeps the inductions over sweeps cheap.
  ghost predicate Swept<W>(p: Pass<W>, q: Pass<W>, index: nat, r: nat, exact: bool)
    requires r <= |p.used|
  {
    forall u: bool {:trigger Asked(u)} :: Asked(u) ==> SweptNow(p, q, index, r, exact)
  }

  // Always true: the trigger that opens Swept.
  predicate Asked(u: bool) { true }

  lemma SweptMeans<W>(p: Pass<W>, q: Pass<W>, index: nat, r: nat, exact: bool)
    requires r <= |p.used|
    ensures Swept(p, q, index, r, exact) <==> SweptNow(p, q, index, r, exact)
  {
    assert Asked(true);
  }

  lemma OneRefusalMore<W>(p: Pass<W>, o: Pass<W>, q: Pass<W>, index: nat, r: nat, after: nat, exact: bool)
    requires r < |p.used| == |o.used| && after == r + 1
    requires Unmoved(p, o, index, exact) && Swept(o, q, index, after, exact)
    requires o.calls == p.calls + if p.used[r] then [] else [Call(r, index, p.layers, false)]
    ensures Swept(p, q, index, r, exact)
  {
    SweptMeans(o, q, index, after, exact);
    SweptMeans(p, q, index, r, exact);
    if p.used[r] {
      assert o.calls == p.calls;
      UsedMore(p.used, r, after);
    } else {
      RefusalMore(p, o, q, index, r, after, exact);
    }
  }

  lemma UsedMore(used: seq<bool>, r: nat, after: nat)
    requires r < |used| && used[r] && after == r + 1
    ensures UnusedFrom(used, r) == UnusedFrom(used, after)
  {
    assert [] + UnusedFrom(used, after) == UnusedFrom(used, after);
  }

  lemma RefusalMore<W>(p: Pass<W>, o: Pass<W>, q: Pass<W>, index: nat, r: nat, after: nat, exact: bool)
    requires r < |p.used| == |o.used| && after == r + 1 && !p.used[r]
    requires Unmoved(p, o, index, exact) && SweptNow(o, q, index, after, exact)
    requires o.calls == p.calls + [Call(r, index, p.layers, false)]
    ensures SweptNow(p, q, index, r, exact)
  {
    var first := Call(r, index, p.layers, false);
    TailStarts(p.calls, first, q.calls);
    assert |o.calls| == |p.calls| + 1;
    RefusedJoin(q.calls[|o.calls|..], UnusedFrom(p.used, after), index, p.layers, q.layers, exact, first, r);
  }

  lemma NobodyLeft<W>(p: Pass<W>, index: nat, exact: bool)
    requires index < |p.layers|
    ensures Swept(p, p, index, |p.used|, exact)
  {
    SweptMeans(p, p, index, |p.used|, exact);
    assert p.calls[|p.calls|..] == [];
    assert p.layers[index := p.layers[index]] == p.layers;
  }

  // The first offer of a sweep in which nobody accepts, and the sweep from there.
  lemma FirstRefusal<W(!new)>(ds: seq<Decoder<W>>, p: Pass<W>, index: nat, r: nat, after: nat, exact: bool)
    returns (o: Pass<W>)
    requires Fits(ds, p) && Polite(ds) && index < |p.layers| && r < |ds| && after == r + 1 && (exact ==> Inert(ds))
    requires Unused(Sweep(ds, p, index, r).used) == Unused(p.used)
    ensures Fits(ds, o) && index < |o.layers| && Unused(o.used) == Unused(p.used)
    ensures Sweep(ds, o, index, after) == Sweep(ds, p, index, r)
    ensures Unmoved(p, o, index, exact)
    ensures o.calls == p.calls + if p.used[r] then [] else [Call(r, index, p.layers, false)]
  {
    SweepUnfolds(ds, p, index, r, after);
    o := Offer(ds, p, index, r);
    OfferRefused(ds, p, index, r, exact);
  }

  lemma {:induction false} SweepRefused<W(!new)>(ds: seq<Decoder<W>>, p: Pass<W>, index: nat, r: nat, exact: bool)
    requires Fits(ds, p) && Polite(ds) && index < |p.layers| && r <= |ds| && (exact ==> Inert(ds))
    requires Unused(Sweep(ds, p, index, r).used) == Unused(p.used)
    ensures Swept(p, Sweep(ds, p, index, r), index, r, exact)
    decreases |ds| - r
  {
    if r == |ds| {
      NobodyLeft(p, index, exact);
    } else {
      var after: nat := r + 1;
      var o := FirstRefusal(ds, p, index, r, after, exact);
      SweepRefused(ds, o, index, after, exact);
      OneRefusalMore(p, o, Sweep(ds, p, index, r), index, r, after, exact);
    }
  }

  lemma TailStarts<T>(before: seq<T>, x: T, all: seq<T>)
    requires before + [x] <= all
    ensures before <= all && all[|before|..] == [x] + all[|before| + 1..]
  {
    assert all == before + [x] + all[|before| + 1..];
  }

  // ---- What happens to calls later

  lemma {:induction false} SweepExtends<W(!new)>(ds: seq<Decoder<W>>, p: Pass<W>, index: nat, r: nat)
    requires Fits(ds, p) && Polite(ds) && index < |p.layers| && r <= |ds|
    ensures p.calls <= Sweep(ds, p, index, r).calls && Sweep(ds, p, index, r).leaves == p.leaves
    decreases |ds| - r
  {
    if r < |ds| {
      var o := Offer(ds, p, index, r);
      assert p.calls <= o.calls;
      SweepExtends(ds, o, index, r + 1);
    }
  }

  // The call history at the moment of leaving ends with the refusals.
  predicate LeftRefused(v: Leave, calls: seq<Call>, exact: bool)
  {
    var names := UnusedFrom(v.used, 0);
    |names| <= v.calls <= |calls| && Refused(calls[v.calls - |names|..v.calls], names, v.layer, v.stack, exact)
  }

  lemma LaterCalls(v: Leave, calls: seq<Call>, all: seq<Call>, exact: bool)
    requires LeftRefused(v, calls, exact) && calls <= all
    ensures LeftRefused(v, all, exact)
  {
    var n := |UnusedFrom(v.used, 0)|;
    assert all[v.calls - n..v.calls] == calls[v.calls - n..v.calls];
  }

  lemma SweptIsLeft<W>(p: Pass<W>, q: Pass<W>, index: nat, exact: bool)
    requires Swept(p, q, index, 0, exact)
    ensures LeftRefused(Leave(index, |q.calls|, q.used, q.layers), q.calls, exact)
  {
    SweptMeans(p, q, index, 0, exact);
    var names := UnusedFrom(q.used, 0);
    assert q.calls[|q.calls| - |names|..|q.calls|] == q.calls[|p.calls|..];
  }

  // A layer is left after one refusal of it by every decoder that is unused.
  lemma {:induction false} SettleRefused<W(!new)>(ds: seq<Decoder<W>>, p: Pass<W>, index: nat, exact: bool)
    requires Fits(ds, p) && Polite(ds) && index < |p.layers| && (exact ==> Inert(ds))
    ensures var q := Settle(ds, p, index);
      && p.calls <= q.calls && q.leaves == p.leaves
      && LeftRefused(Leave(index, |q.calls|, q.used, q.layers), q.calls, exact)
    decreases Unused(p.used)
  {
    var q := Sweep(ds, p, index, 0);
    SweepExtends(ds, p, index, 0);
    if q.used == p.used {
      SweepRefused(ds, p, index, 0, exact);
      SweptIsLeft(p, q, index, exact);
    } else {
      SettleRefused(ds, q, index, exact);
    }
  }

  ghost predicate AllRefused<W>(p: Pass<W>, exact: bool)
  {
    forall j :: 0 <= j < |p.leaves| ==> LeftRefused(p.leaves[j], p.calls, exact)
  }

  lemma VisitRefused<W(!new)>(ds: seq<Decoder<W>>, p: Pass<W>, index: nat, exact: bool)
    requires Fits(ds, p) && Polite(ds) && index < |p.layers| && (exact ==> Inert(ds)) && AllRefused(p, exact)
    ensures AllRefused(Visit(ds, p, index), exact)
  {
    SettleRefused(ds, p, index, exact);
    var s, q := Settle(ds, p, index), Visit(ds, p, index);
    forall j | 0 <= j < |q.leaves| ensures LeftRefused(q.leaves[j], q.calls, exact) {
      if j < |p.leaves| { LaterCalls(p.leaves[j], p.calls, q.calls, exact); }
    }
  }

  lemma {:induction false} VisitRangeRefused<W(!new)>(ds: seq<Decoder<W>>, p: Pass<W>, index: nat, end: nat, exact: bool)
    requires Fits(ds, p) && Polite(ds) && index <= end <= |p.layers| && (exact ==> Inert(ds)) && AllRefused(p, exact)
    ensures AllRefused(VisitRange(ds, p, index, end), exact)
    decreases end - index
  {
    if index < end {
      VisitRefused(ds, p, index, exact);
      VisitRangeRefused(ds, Visit(ds, p, index), index + 1, end, exact);
    }
  }

  lemma {:induction false} RoundsRefused<W(!new)>(ds: seq<Decoder<W>>, p: Pass<W>, offset: nat, exact: bool)
    requires Fits(ds, p) && Polite(ds) && offset <= |p.layers| && (exact ==> Inert(ds)) && AllRefused(p, exact)
    ensures AllRefused(Rounds(ds, p, offset), exact)
    decreases Unused(p.used)
  {
    VisitRangeRefused(ds, p, offset, |p.layers|, exact);
    var q := VisitRange(ds, p, offset, |p.layers|);
    if |q.layers| > |p.layers| { RoundsRefused(ds, q, |p.layers|, exact); }
  }

  // ---- Every layer is left once

  // The layers below index were left, in this order.
  ghost predicate LeftBelow<W>(p: Pass<W>, index: nat)
  {
    |p.counts| == |p.leaves| == index && forall j :: 0 <= j < index ==> p.leaves[j].layer == j
  }

  lemma {:induction false} SettleKeepsLeaves<W(!new)>(ds: seq<Decoder<W>>, p: Pass<W>, index: nat)
    requires Fits(ds, p) && Polite(ds) && index < |p.layers|
    ensures Settle(ds, p, index).leaves == p.leaves
  {
    SettleRefused(ds, p, index, false);
  }

  lemma {:induction false} VisitRangeLeaves<W(!new)>(ds: seq<Decoder<W>>, p: Pass<W>, index: nat, end: nat)
    requires Fits(ds, p) && Polite(ds) && index <= end <= |p.layers| && LeftBelow(p, index)
    ensures LeftBelow(VisitRange(ds, p, index, end), end)
    decreases end - index
  {
    if index < end {
      SettleKeepsLeaves(ds, p, index);
      VisitRangeLeaves(ds, Visit(ds, p, index), index + 1, end);
    }
  }

  lemma {:induction false} RoundsLeave<W(!new)>(ds: seq<Decoder<W>>, p: Pass<W>, offset: nat)
    requires Fits(ds, p) && Polite(ds) && offset <= |p.layers| && LeftBelow(p, offset)
    ensures LeftBelow(Rounds(ds, p, offset), |Rounds(ds, p, offset).layers|)
    decreases Unused(p.used)
  {
    VisitRangeLeaves(ds, p, offset, |p.layers|);
    var q := VisitRange(ds, p, offset, |p.layers|);
    if |q.layers| > |p.layers| { RoundsLeave(ds, q, |p.layers|); }
  }

  /** In a pass over any frame, whenever a layer is left, the calls just before are one refusal of it by every
      decoder that has accepted nothing so far. These decoders saw the layers as they are then, up to what
      skipped calls changed in this very layer; exactly so, if skipped calls change nothing. */
  lemma LeftWhenDeclined<W(!new)>(ds: seq<Decoder<W>>, workers: seq<Option<W>>, body: Body, exact: bool)
    requires |workers| == |ds| && Polite(ds) && (exact ==> Inert(ds))
    ensures AllRefused(Process(ds, workers, body), exact)
  {
    RoundsRefused(ds, Begin(workers, body), 0, exact);
  }

  /** In a pass over a fresh frame every layer is left once, in order. */
  lemma EveryLayerIsLeft<W(!new)>(ds: seq<Decoder<W>>, workers: seq<Option<W>>, root: Layer)
    requires |workers| == |ds| && Polite(ds)
    ensures var q := Process(ds, workers, Body([root], [])); LeftBelow(q, |q.layers|)
  {
    RoundsLeave(ds, Begin(workers, Body([root], [])), 0);
  }
}
