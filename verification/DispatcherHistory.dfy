// What the calls of a pass do to the layers and to the workers' memories, read from the calls and the decoders alone.
module DispatcherHistory {
  import opened Base
  import opened Frames
  import opened Dispatcher

  // What decoder r remembers after some calls: its own calls went through its memory, one after the other.
  function Memory<W(!new)>(ds: seq<Decoder<W>>, workers: seq<Option<W>>, calls: seq<Call>, r: nat): (m: Option<W>)
    requires |workers| == |ds| && r < |ds|
    ensures m.Some? <==> workers[r].Some?
  {
    if calls == [] then workers[r]
    else
      var c, before := calls[|calls| - 1], Memory(ds, workers, calls[..|calls| - 1], r);
      if c.decoder == r && before.Some? then Some(ds[r].decode(before.value, c.stack, c.layer).worker) else before
  }

  // A call turns its stack into these layers: the layer in question is what the decoder made of it, the other layers
  // are as before, and the new ones follow in order. A decoder without a worker accepts and changes nothing.
  ghost predicate Makes<W(!new)>(ds: seq<Decoder<W>>, m: Option<W>, c: Call, layers: seq<Layer>)
    requires c.decoder < |ds|
  {
    if m.None? then layers == c.stack && c.accepted
    else
      var o, n := ds[c.decoder].decode(m.value, c.stack, c.layer), |c.stack|;
      && c.accepted == (o.status == Done || o.status == Error)
      && |layers| == n + |o.children| && c.layer < n
      && layers[c.layer] == o.layer
      && (forall j :: 0 <= j < n && j != c.layer ==> layers[j] == c.stack[j])
      && (forall j :: 0 <= j < |o.children| ==> layers[n + j] == o.children[j])
  }

  // The layers that call k leaves: those that the next call finds, or the final ones.
  function Left(calls: seq<Call>, k: nat, last: seq<Layer>): seq<Layer>
  {
    if k + 1 < |calls| then calls[k + 1].stack else last
  }

  ghost predicate CallMakes<W(!new)>(ds: seq<Decoder<W>>, workers: seq<Option<W>>, calls: seq<Call>, k: nat,
                                     last: seq<Layer>)
    requires |workers| == |ds| && k < |calls|
  {
    var c := calls[k];
    c.decoder < |ds| && Makes(ds, Memory(ds, workers, calls[..k], c.decoder), c, Left(calls, k, last))
  }

  // The pass starts with the given workers and layers; each call goes on with what the one before it left.
  ghost predicate Recorded<W(!new)>(ds: seq<Decoder<W>>, workers: seq<Option<W>>, layers: seq<Layer>, p: Pass<W>)
    requires |workers| == |ds|
  {
    && (if p.calls == [] then p.layers == layers else p.calls[0].stack == layers)
    && (forall k: nat :: k < |p.calls| ==> CallMakes(ds, workers, p.calls, k, p.layers))
    && |p.workers| == |ds| && (forall r: nat :: r < |ds| ==> p.workers[r] == Memory(ds, workers, p.calls, r))
  }

  ghost predicate AllMake<W(!new)>(ds: seq<Decoder<W>>, workers: seq<Option<W>>, calls: seq<Call>, last: seq<Layer>)
    requires |workers| == |ds|
  {
    forall k: nat :: k < |calls| ==> CallMakes(ds, workers, calls, k, last)
  }

  lemma OneCallMore<W(!new)>(ds: seq<Decoder<W>>, workers: seq<Option<W>>, calls: seq<Call>, c: Call,
                             last: seq<Layer>, next: seq<Layer>)
    requires |workers| == |ds| && AllMake(ds, workers, calls, last)
    requires c.stack == last && c.decoder < |ds| && Makes(ds, Memory(ds, workers, calls, c.decoder), c, next)
    ensures AllMake(ds, workers, calls + [c], next)
  {
    var all := calls + [c];
    forall k: nat | k < |all| ensures CallMakes(ds, workers, all, k, next) {
      assert all[..k] == calls[..k];
      if k < |calls| {
        assert CallMakes(ds, workers, calls, k, last);
      } else {
        assert calls[..k] == calls;
      }
    }
  }

  lemma MemoryOneMore<W(!new)>(ds: seq<Decoder<W>>, workers: seq<Option<W>>, calls: seq<Call>, c: Call, r: nat)
    requires |workers| == |ds| && r < |ds|
    ensures Memory(ds, workers, calls + [c], r) ==
      var before := Memory(ds, workers, calls, r);
      if c.decoder == r && before.Some? then Some(ds[r].decode(before.value, c.stack, c.layer).worker) else before
  {
    assert (calls + [c])[..|calls|] == calls;
  }

  lemma OfferMakes<W(!new)>(ds: seq<Decoder<W>>, p: Pass<W>, index: nat, r: nat)
    requires Fits(ds, p) && Polite(ds) && index < |p.layers| && r < |ds| && !p.used[r]
    ensures var q, c := Offer(ds, p, index, r), Call(r, index, p.layers, Offer(ds, p, index, r).used[r]);
      && q.calls == p.calls + [c]
      && Makes(ds, p.workers[r], c, q.layers)
  {
  }

  lemma OfferMemory<W(!new)>(ds: seq<Decoder<W>>, workers: seq<Option<W>>, p: Pass<W>, index: nat, r: nat, i: nat)
    requires Fits(ds, p) && Polite(ds) && index < |p.layers| && r < |ds| && !p.used[r] && |workers| == |ds| && i < |ds|
    requires forall j: nat :: j < |ds| ==> p.workers[j] == Memory(ds, workers, p.calls, j)
    ensures var q := Offer(ds, p, index, r); q.workers[i] == Memory(ds, workers, q.calls, i)
  {
    MemoryOneMore(ds, workers, p.calls, Call(r, index, p.layers, Offer(ds, p, index, r).used[r]), i);
    assert p.workers[i] == Memory(ds, workers, p.calls, i);
  }

  lemma OfferRecorded<W(!new)>(ds: seq<Decoder<W>>, workers: seq<Option<W>>, layers: seq<Layer>, p: Pass<W>,
                               index: nat, r: nat)
    requires Fits(ds, p) && Polite(ds) && index < |p.layers| && r < |ds| && |workers| == |ds|
    requires Recorded(ds, workers, layers, p)
    ensures Recorded(ds, workers, layers, Offer(ds, p, index, r))
  {
    if !p.used[r] {
      var q := Offer(ds, p, index, r);
      var c := Call(r, index, p.layers, q.used[r]);
      OfferMakes(ds, p, index, r);
      assert p.workers[r] == Memory(ds, workers, p.calls, r);
      OneCallMore(ds, workers, p.calls, c, p.layers, q.layers);
      forall i: nat | i < |ds| ensures q.workers[i] == Memory(ds, workers, q.calls, i) {
        OfferMemory(ds, workers, p, index, r, i);
      }
    }
  }

  lemma {:induction false} SweepRecorded<W(!new)>(ds: seq<Decoder<W>>, workers: seq<Option<W>>, layers: seq<Layer>,
                                                  p: Pass<W>, index: nat, r: nat)
    requires Fits(ds, p) && Polite(ds) && index < |p.layers| && r <= |ds| && |workers| == |ds|
    requires Recorded(ds, workers, layers, p)
    ensures Recorded(ds, workers, layers, Sweep(ds, p, index, r))
    decreases |ds| - r
  {
    if r < |ds| {
      var next := r + 1;
      OfferRecorded(ds, workers, layers, p, index, r);
      SweepUnfolds(ds, p, index, r, next);
      SweepRecorded(ds, workers, layers, Offer(ds, p, index, r), index, next);
    }
  }

  lemma {:induction false} SettleRecorded<W(!new)>(ds: seq<Decoder<W>>, workers: seq<Option<W>>, layers: seq<Layer>,
                                                   p: Pass<W>, index: nat)
    requires Fits(ds, p) && Polite(ds) && index < |p.layers| && |workers| == |ds|
    requires Recorded(ds, workers, layers, p)
    ensures Recorded(ds, workers, layers, Settle(ds, p, index))
    decreases Unused(p.used)
  {
    SweepRecorded(ds, workers, layers, p, index, 0);
    var q := Sweep(ds, p, index, 0);
    if q.used != p.used { SettleRecorded(ds, workers, layers, q, index); }
  }

  lemma VisitRecorded<W(!new)>(ds: seq<Decoder<W>>, workers: seq<Option<W>>, layers: seq<Layer>, p: Pass<W>, index: nat)
    requires Fits(ds, p) && Polite(ds) && index < |p.layers| && |workers| == |ds|
    requires Recorded(ds, workers, layers, p)
    ensures Recorded(ds, workers, layers, Visit(ds, p, index))
  {
    SettleRecorded(ds, workers, layers, p, index);
  }

  lemma {:induction false} VisitRangeRecorded<W(!new)>(ds: seq<Decoder<W>>, workers: seq<Option<W>>, layers: seq<Layer>,
                                                       p: Pass<W>, index: nat, end: nat)
    requires Fits(ds, p) && Polite(ds) && index <= end <= |p.layers| && |workers| == |ds|
    requires Recorded(ds, workers, layers, p)
    ensures Recorded(ds, workers, layers, VisitRange(ds, p, index, end))
    decreases end - index
  {
    if index < end {
      var next := index + 1;
      VisitRecorded(ds, workers, layers, p, index);
      VisitRangeUnfolds(ds, p, index, next, end);
      VisitRangeRecorded(ds, workers, layers, Visit(ds, p, index), next, end);
    }
  }

  lemma {:induction false} RoundsRecorded<W(!new)>(ds: seq<Decoder<W>>, workers: seq<Option<W>>, layers: seq<Layer>,
                                                   p: Pass<W>, offset: nat)
    requires Fits(ds, p) && Polite(ds) && offset <= |p.layers| && |workers| == |ds|
    requires Recorded(ds, workers, layers, p)
    ensures Recorded(ds, workers, layers, Rounds(ds, p, offset))
    decreases Unused(p.used)
  {
    var size := |p.layers|;
    var q := VisitRange(ds, p, offset, size);
    VisitRangeRecorded(ds, workers, layers, p, offset, size);
    RoundsUnfold(ds, p, offset, q, size);
    if |q.layers| > size { RoundsRecorded(ds, workers, layers, q, size); }
  }

  /** In a pass over any frame, the first call finds the layers of the frame. Each call's layer becomes what the
      decoder made of it, with what the decoder remembers from its earlier calls; its new layers follow in order; and
      that is what the next call finds, or the result. */
  lemma CallsMakeTheResult<W(!new)>(ds: seq<Decoder<W>>, workers: seq<Option<W>>, body: Body)
    requires |workers| == |ds| && Polite(ds)
    ensures Recorded(ds, workers, body.layers, Process(ds, workers, body))
  {
    RoundsRecorded(ds, workers, body.layers, Begin(workers, body), 0);
  }
}
