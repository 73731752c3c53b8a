// Decoding one frame: every decoder is offered every layer until it accepts one
// (genet-kernel/src/decoder/dispatcher.rs).
module Dispatcher {
  import opened Base
  import opened Frames

  datatype Status = Done | Skip | Error

  // What a worker leaves behind: its own new state, the layer it worked on, and the layers it adds below it.
  datatype Outcome<W> = Outcome(worker: W, status: Status, layer: Layer, children: seq<Layer>)

  // decode(worker, layers, index) works on layers[index].
  datatype Decoder<!W> = Decoder(decode: (W, seq<Layer>, nat) -> Outcome<W>)

  // One offer of a layer to a decoder, with the layers as the decoder finds them.
  datatype Call = Call(decoder: nat, layer: nat, stack: seq<Layer>, accepted: bool)

  // The moment a layer is left: how many calls there were, which decoders were used, and the layers then.
  datatype Leave = Leave(layer: nat, calls: nat, used: seq<bool>, stack: seq<Layer>)

  // The state of a pass. A decoder of the other execution type has no worker. origins (for each layer added
  // in this pass, the layer it was added to), kids (the exact child counts), calls and leaves are history.
  datatype Pass<W> = Pass(
    workers: seq<Option<W>>,
    used: seq<bool>,
    layers: seq<Layer>,
    counts: seq<nat>,
    origins: seq<nat>,
    kids: seq<nat>,
    calls: seq<Call>,
    leaves: seq<Leave>)

  function Repeat<T>(x: T, n: nat): (s: seq<T>)
    ensures |s| == n && forall i :: 0 <= i < n ==> s[i] == x
  {
    seq(n, _ => x)
  }

  // A worker adds layers only in calls that it does not skip.
  ghost predicate Polite<W(!new)>(ds: seq<Decoder<W>>)
  {
    forall r, w, layers, index :: 0 <= r < |ds| ==> PoliteCall(ds[r].decode(w, layers, index))
  }

  predicate PoliteCall<W>(o: Outcome<W>)
  {
    o.status.Skip? ==> o.children == []
  }

  predicate Fits<W>(ds: seq<Decoder<W>>, p: Pass<W>)
  {
    |p.workers| == |p.used| == |ds|
  }

  // The decoders that have not accepted a layer of this frame.
  function Unused(used: seq<bool>): nat
  {
    if used == [] then 0 else Unused(used[..|used| - 1]) + if used[|used| - 1] then 0 else 1
  }

  lemma {:induction false} UnusedUpdate(used: seq<bool>, r: nat)
    requires r < |used| && !used[r]
    ensures Unused(used[r := true]) == Unused(used) - 1
  {
    var n := |used| - 1;
    if r < n {
      UnusedUpdate(used[..n], r);
      assert used[r := true][..n] == used[..n][r := true];
    } else {
      assert used[r := true][..n] == used[..n];
    }
  }

  // What holds between an earlier and a later moment of a pass.
  ghost predicate Advances<W>(p: Pass<W>, q: Pass<W>)
  {
    && |q.workers| == |p.workers| && |q.used| == |p.used|
    && |p.layers| <= |q.layers|
    && Unused(q.used) <= Unused(p.used)
    && (|p.layers| < |q.layers| ==> Unused(q.used) < Unused(p.used))
  }

  // Runner::execute within OnceRunner::execute, and the new layers appended.
  function Offer<W(!new)>(ds: seq<Decoder<W>>, p: Pass<W>, index: nat, r: nat): (q: Pass<W>)
    requires Fits(ds, p) && Polite(ds) && index < |p.layers| && r < |ds|
    ensures Advances(p, q) && q.counts == p.counts && q.kids == p.kids
    ensures q.used == p.used || Unused(q.used) < Unused(p.used)
  {
    if p.used[r] then p
    else
      UnusedUpdate(p.used, r);
      if p.workers[r].None? then
        p.(used := p.used[r := true], calls := p.calls + [Call(r, index, p.layers, true)])
      else
        var o := ds[r].decode(p.workers[r].value, p.layers, index);
        var accepted := !o.status.Skip?;
        assert PoliteCall(o);
        assert p.used[r := false] == p.used;
        p.(workers := p.workers[r := Some(o.worker)],
           used := p.used[r := accepted],
           layers := p.layers[index := o.layer] + o.children,
           origins := p.origins + Repeat(index, |o.children|),
           calls := p.calls + [Call(r, index, p.layers, accepted)])
  }

  // The for loop over the runners, from runner r on.
  function Sweep<W(!new)>(ds: seq<Decoder<W>>, p: Pass<W>, index: nat, r: nat): (q: Pass<W>)
    requires Fits(ds, p) && Polite(ds) && index < |p.layers| && r <= |ds|
    ensures Advances(p, q) && q.counts == p.counts && q.kids == p.kids
    ensures q.used == p.used || Unused(q.used) < Unused(p.used)
    decreases |ds| - r
  {
    if r == |ds| then p else Sweep(ds, Offer(ds, p, index, r), index, r + 1)
  }

  // Sweeps until one in which no runner accepts.
  function Settle<W(!new)>(ds: seq<Decoder<W>>, p: Pass<W>, index: nat): (q: Pass<W>)
    requires Fits(ds, p) && Polite(ds) && index < |p.layers|
    ensures Advances(p, q) && q.counts == p.counts && q.kids == p.kids
    decreases Unused(p.used)
  {
    var q := Sweep(ds, p, index, 0);
    if q.used == p.used then q else Settle(ds, q, index)
  }

  // One turn of the loop over a level: a layer whose count is known and positive is left alone.
  function Visit<W(!new)>(ds: seq<Decoder<W>>, p: Pass<W>, index: nat): (q: Pass<W>)
    requires Fits(ds, p) && Polite(ds) && index < |p.layers|
    ensures Advances(p, q)
  {
    if index < |p.counts| && p.counts[index] > 0 then p
    else
      var q := Settle(ds, p, index);
      var children := |q.layers| - |p.layers|;
      q.(counts := q.counts + [children % 0x100], kids := q.kids + [children],
         leaves := q.leaves + [Leave(index, |q.calls|, q.used, q.layers)])
  }

  function VisitRange<W(!new)>(ds: seq<Decoder<W>>, p: Pass<W>, index: nat, end: nat): (q: Pass<W>)
    requires Fits(ds, p) && Polite(ds) && index <= end <= |p.layers|
    ensures Advances(p, q)
    decreases end - index
  {
    if index == end then p else VisitRange(ds, Visit(ds, p, index), index + 1, end)
  }

  // The outer loop: the layers known at the start of a round are visited, then those added meanwhile.
  function Rounds<W(!new)>(ds: seq<Decoder<W>>, p: Pass<W>, offset: nat): (q: Pass<W>)
    requires Fits(ds, p) && Polite(ds) && offset <= |p.layers|
    ensures Advances(p, q)
    decreases Unused(p.used)
  {
    var q := VisitRange(ds, p, offset, |p.layers|);
    if |q.layers| <= |p.layers| then q else Rounds(ds, q, |p.layers|)
  }

  lemma SweepUnfolds<W(!new)>(ds: seq<Decoder<W>>, p: Pass<W>, index: nat, r: nat, r': nat)
    requires Fits(ds, p) && Polite(ds) && index < |p.layers| && r < |ds| && r' == r + 1
    ensures index < |Offer(ds, p, index, r).layers|
    ensures Sweep(ds, p, index, r) == Sweep(ds, Offer(ds, p, index, r), index, r')
  {
  }

  lemma VisitRangeUnfolds<W(!new)>(ds: seq<Decoder<W>>, p: Pass<W>, index: nat, index': nat, end: nat)
    requires Fits(ds, p) && Polite(ds) && index < end <= |p.layers| && index' == index + 1
    ensures end <= |Visit(ds, p, index).layers|
    ensures VisitRange(ds, p, index, end) == VisitRange(ds, Visit(ds, p, index), index', end)
  {
  }

  lemma RoundsUnfold<W(!new)>(ds: seq<Decoder<W>>, p: Pass<W>, offset: nat, next: Pass<W>, size: nat)
    requires Fits(ds, p) && Polite(ds) && offset <= size == |p.layers| && next == VisitRange(ds, p, offset, size)
    ensures Fits(ds, next) && size <= |next.layers|
    ensures size < |next.layers| ==> Unused(next.used) < Unused(p.used)
    ensures Rounds(ds, p, offset) == if |next.layers| <= size then next else Rounds(ds, next, size)
  {
  }

  function Begin<W>(workers: seq<Option<W>>, body: Body): Pass<W>
  {
    Pass(workers, Repeat(false, |workers|), body.layers, body.counts, [], [], [], [])
  }

  /** process_frame. */
  function Process<W(!new)>(ds: seq<Decoder<W>>, workers: seq<Option<W>>, body: Body): (q: Pass<W>)
    requires |workers| == |ds| && Polite(ds)
  {
    Rounds(ds, Begin(workers, body), 0)
  }

  function Result<W>(q: Pass<W>): Body
  {
    Body(q.layers, q.counts)
  }
}
