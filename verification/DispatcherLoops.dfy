// The loops of the dispatcher, which carry out a pass (genet-kernel/src/decoder/dispatcher.rs).
module DispatcherLoops {
  import opened Base
  import opened Frames
  import opened Dispatcher
  import opened DispatcherHistory
  import opened DispatcherTurns

  // The dispatcher of one thread; its workers keep their state from frame to frame.
  class FrameDispatcher<W(!new)> {
    const decoders: seq<Decoder<W>>
    var workers: seq<Option<W>>

    ghost predicate Valid()
      reads this
    {
      |workers| == |decoders| && Polite(decoders)
    }

    constructor (decoders: seq<Decoder<W>>, workers: seq<Option<W>>)
      requires |workers| == |decoders| && Polite(decoders)
      ensures Valid() && this.decoders == decoders && this.workers == workers
    {
      this.decoders, this.workers := decoders, workers;
    }

    // Runner::execute
    method Execute(r: nat, layers: seq<Layer>, index: nat) returns (done: bool, layer: Layer, children: seq<Layer>)
      requires Valid() && r < |workers| && index < |layers|
      modifies this
      ensures Valid()
      ensures if old(workers)[r].None? then workers == old(workers) && done && layer == layers[index] && children == []
        else var o := decoders[r].decode(old(workers)[r].value, layers, index);
          workers == old(workers)[r := Some(o.worker)] && done == !o.status.Skip?
          && layer == o.layer && children == o.children
    {
      done, layer, children := true, layers[index], [];
      if workers[r].Some? {
        var o := decoders[r].decode(workers[r].value, layers, index);
        workers := workers[r := Some(o.worker)];
        done, layer, children := !o.status.Skip?, o.layer, o.children;
      }
    }

    // The locals of process_frame are those of the pass p.
    ghost predicate Shows(p: Pass<W>, used: seq<bool>, layers: seq<Layer>)
      reads this
    {
      Valid() && workers == p.workers && used == p.used && layers == p.layers && Fits(decoders, p)
    }

    // OnceRunner::execute, and the new layers appended.
    method OfferTo(r: nat, used0: seq<bool>, layers0: seq<Layer>, index: nat, ghost p: Pass<W>)
      returns (done: bool, used: seq<bool>, layers: seq<Layer>)
      requires Shows(p, used0, layers0) && r < |decoders| && index < |layers0|
      modifies this
      ensures Shows(Offer(decoders, p, index, r), used, layers)
      ensures if done then Unused(used) < Unused(used0) else used == used0
    {
      done, used, layers := false, used0, layers0;
      if !used0[r] {
        var layer, added;
        done, layer, added := Execute(r, layers0, index);
        assert used0[r := false] == used0;
        used := used0[r := done];
        layers := layers0[index := layer] + added;
        assert layers0[index := layers0[index]] + [] == layers0;
        UnusedUpdate(used0, r);
      }
    }

    // The for loop over the runners.
    method SweepRunners(used0: seq<bool>, layers0: seq<Layer>, index: nat, ghost p: Pass<W>)
      returns (executed: nat, used: seq<bool>, layers: seq<Layer>)
      requires Shows(p, used0, layers0) && index < |layers0|
      modifies this
      ensures Shows(Sweep(decoders, p, index, 0), used, layers)
      ensures if executed == 0 then used == used0 else Unused(used) < Unused(used0)
    {
      executed, used, layers := 0, used0, layers0;
      ghost var now, at: nat := p, 0;
      ghost var end := Sweep(decoders, now, index, at);
      for r: nat := 0 to |decoders|
        invariant Shows(now, used, layers) && index < |layers| && at == r
        invariant Sweep(decoders, now, index, at) == end
        invariant if executed == 0 then used == used0 else Unused(used) < Unused(used0)
      {
        ghost var next, after: nat := Offer(decoders, now, index, at), at + 1;
        SweepUnfolds(decoders, now, index, at, after);
        var done;
        done, used, layers := OfferTo(r, used, layers, index, now);
        now, at := next, after;
        if done {
          executed := executed + 1;
        }
      }
    }

    // Offers layer index to all runners until a sweep in which none accepts.
    method SettleLayer(used0: seq<bool>, layers0: seq<Layer>, index: nat, ghost p: Pass<W>)
      returns (used: seq<bool>, layers: seq<Layer>, children: nat)
      requires Shows(p, used0, layers0) && index < |layers0|
      modifies this
      ensures Shows(Settle(decoders, p, index), used, layers)
      ensures children == |layers| - |layers0|
    {
      used, layers, children := used0, layers0, 0;
      ghost var now := p;
      while true
        invariant Shows(now, used, layers) && Advances(p, now)
        invariant Settle(decoders, now, index) == Settle(decoders, p, index)
        invariant children == |layers| - |layers0|
        decreases Unused(used)
      {
        ghost var next := Sweep(decoders, now, index, 0);
        var executed, used', layers' := SweepRunners(used, layers, index, now);
        children := children + |layers'| - |layers|;
        now, used, layers := next, used', layers';
        if executed == 0 {
          break;
        }
      }
    }

    // One turn of the loop over a level.
    method VisitLayer(indices0: seq<nat>, used0: seq<bool>, layers0: seq<Layer>, index: nat, ghost p: Pass<W>)
      returns (indices: seq<nat>, used: seq<bool>, layers: seq<Layer>)
      requires Shows(p, used0, layers0) && indices0 == p.counts && index < |layers0|
      modifies this
      ensures Shows(Visit(decoders, p, index), used, layers) && indices == Visit(decoders, p, index).counts
    {
      indices, used, layers := indices0, used0, layers0;
      if !(index < |indices| && indices[index] > 0) {
        var children;
        used, layers, children := SettleLayer(used0, layers0, index, p);
        indices := indices + [children % 0x100];
      }
    }

    // The layers from offset on that are known when the level starts.
    method VisitLevel(indices0: seq<nat>, used0: seq<bool>, layers0: seq<Layer>, offset: nat, ghost p: Pass<W>)
      returns (indices: seq<nat>, used: seq<bool>, layers: seq<Layer>)
      requires Shows(p, used0, layers0) && indices0 == p.counts && offset <= |layers0|
      modifies this
      ensures var q := VisitRange(decoders, p, offset, |layers0|);
        Shows(q, used, layers) && indices == q.counts
    {
      indices, used, layers := indices0, used0, layers0;
      ghost var now, at, len := p, offset, |layers0|;
      ghost var end := VisitRange(decoders, now, at, len);
      for index: nat := offset to |layers0|
        invariant Shows(now, used, layers) && indices == now.counts && at == index <= len <= |layers|
        invariant VisitRange(decoders, now, at, len) == end
      {
        ghost var next, after: nat := Visit(decoders, now, at), at + 1;
        VisitRangeUnfolds(decoders, now, at, after, len);
        indices, used, layers := VisitLayer(indices, used, layers, index, now);
        now, at := next, after;
      }
    }

    /** process_frame: the loops compute the same pass as Process. Its calls, in their order, make the layers out of
        those of the frame, and the workers out of the workers before. */
    method ProcessFrame(body: Body) returns (done: Body)
      requires Valid()
      modifies this
      ensures Valid()
      ensures (workers, done) ==
        (Process(decoders, old(workers), body).workers, Result(Process(decoders, old(workers), body)))
      ensures Recorded(decoders, old(workers), body.layers, Process(decoders, old(workers), body))
      ensures AllInTurn(Process(decoders, old(workers), body).calls, |decoders|)
    {
      CallsMakeTheResult(decoders, workers, body);
      EveryoneInTurn(decoders, workers, body);
      var indices, layers := body.counts, body.layers;
      var offset: nat := 0;
      var used := Repeat(false, |workers|);
      ghost var now := Begin(workers, body);
      ghost var end := Rounds(decoders, now, 0);
      while true
        invariant Shows(now, used, layers) && indices == now.counts && offset <= |layers|
        invariant Rounds(decoders, now, offset) == end
        decreases Unused(used)
      {
        var len := |layers| - offset;
        ghost var size := |layers|;
        ghost var next := VisitRange(decoders, now, offset, size);
        RoundsUnfold(decoders, now, offset, next, size);
        indices, used, layers := VisitLevel(indices, used, layers, offset, now);
        now := next;
        offset := offset + len;
        if offset >= |layers| {
          break;
        }
      }
      done := Body(layers, indices);
    }
  }
}
