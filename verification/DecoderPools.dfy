// The loop of the serial decoder thread (genet-kernel/src/decoder/serial.rs), proved against the steps of
// the pipeline.
module DecoderPools {
  import opened Base
  import opened Frames
  import opened Pipeline
  import opened PipelineTheorems

  // The serial worker's draining loop run to its end.
  function Drain<S>(d: Decoding<S>, s: State<S>): State<S>
    decreases |s.pending|
  {
    if CanEmit(s) then
      RemoveSize(s.pending, s.next);
      Drain(d, DoEmit(d, s))
    else s.(draining := false)
  }

  /** Receiving a batch and draining is a run of the step system: one Receive, then only Emits. */
  lemma {:induction false} DrainIsRun<S>(d: Decoding<S>, workers: nat, schedule: seq<Step>) returns (emits: seq<Step>)
    requires Run(d, workers, schedule).draining
    ensures forall k :: 0 <= k < |emits| ==> emits[k] == Emit
    ensures Run(d, workers, schedule + emits) == Drain(d, Run(d, workers, schedule))
    decreases |Run(d, workers, schedule).pending|
  {
    var s := Run(d, workers, schedule);
    assert (schedule + [Emit])[..|schedule|] == schedule;
    assert Run(d, workers, schedule + [Emit]) == Do(d, workers, s, Emit);
    if CanEmit(s) {
      RemoveSize(s.pending, s.next);
      var more := DrainIsRun(d, workers, schedule + [Emit]);
      emits := [Emit] + more;
      assert schedule + emits == schedule + [Emit] + more;
    } else {
      emits := [Emit];
    }
  }

  function Stores(batches: seq<Batch>): seq<Command>
  {
    seq(|batches|, k requires 0 <= k < |batches| => StoreFrames(batches[k]))
  }

  lemma DrainStep<S>(d: Decoding<S>, t: State<S>, channel: seq<Command>, sent: seq<Batch>)
    requires CanEmit(t) && t.channel == channel + Stores(sent)
    ensures Drain(d, DoEmit(d, t)) == Drain(d, t)
    ensures DoEmit(d, t).channel == channel + Stores(sent + [SerialBatch(d, t.memory, t.pending[t.next]).1])
  {
    var done := SerialBatch(d, t.memory, t.pending[t.next]).1;
    assert Stores(sent + [done]) == Stores(sent) + [StoreFrames(done)];
  }

  // The dispatcher of the serial worker, with the state its decoders keep between frames.
  class SerialDispatcher<S> {
    const decoding: Decoding<S>
    var memory: S

    constructor (d: Decoding<S>)
      ensures decoding == d && memory == d.init
    {
      decoding, memory := d, d.init;
    }

    method ProcessFrame(f: Frame) returns (done: Frame)
      modifies this
      ensures (memory, done.body) == decoding.serial(old(memory), f.body) && done.index == f.index
    {
      var (m, body) := decoding.serial(memory, f.body);
      memory := m;
      done := f.(body := body);
    }
  }

  class SerialPool<S> {
    const disp: SerialDispatcher<S>
    var pending: map<nat, Batch>
    var next: nat

    ghost predicate Valid()
      reads this
    {
      forall k :: k in pending ==> pending[k] != []
    }

    // The pool stands for the serial part of the step system's state.
    ghost predicate Shows(s: State<S>)
      reads this, disp
    {
      pending == s.pending && next == s.next && disp.memory == s.memory
    }

    constructor (d: Decoding<S>)
      ensures Valid() && fresh(disp) && disp.decoding == d
      ensures Shows(Init(d))
    {
      disp := new SerialDispatcher(d);
      pending, next := map[], 0;
    }

    // Decodes the frames of a batch in place.
    method ProcessFrames(frames: array<Frame>)
      modifies frames, disp
      ensures (disp.memory, frames[..]) == SerialBatch(disp.decoding, old(disp.memory), old(frames[..]))
    {
      ghost var before := frames[..];
      for k := 0 to frames.Length
        invariant (disp.memory, frames[..k]) == SerialBatch(disp.decoding, old(disp.memory), before[..k])
        invariant frames[k..] == before[k..]
      {
        var done := disp.ProcessFrame(frames[k]);
        frames[k] := done;
        assert before[..k + 1][..k] == before[..k];
        assert frames[..k + 1] == frames[..k] + [done];
      }
      assert frames[..frames.Length] == frames[..] && before[..frames.Length] == before;
    }

    // The frames of a batch, decoded in place.
    method DecodeBatch(b: Batch) returns (done: Batch)
      modifies disp
      ensures (disp.memory, done) == SerialBatch(disp.decoding, old(disp.memory), b)
    {
      var frames := new Frame[|b|](k requires 0 <= k < |b| => b[k]);
      assert frames[..] == b;
      ProcessFrames(frames);
      done := frames[..];
    }

    // One pass of the receiving loop; sent are the arguments of the callback, in order.
    method Process(batch: Batch, ghost s: State<S>) returns (sent: seq<Batch>)
      requires Valid() && Shows(s) && s.serialQueue != [] && s.serialQueue[0] == batch
      modifies this, disp
      ensures Valid() && Shows(Drain(disp.decoding, DoReceive(s)))
      ensures Drain(disp.decoding, DoReceive(s)).channel == s.channel + Stores(sent)
    {
      if batch != [] {
        pending := pending[batch[0].index := batch];
      }
      ghost var t, final := DoReceive(s), Drain(disp.decoding, DoReceive(s));
      sent := [];
      assert s.channel + Stores(sent) == s.channel;
      while next in pending
        invariant Valid() && Shows(t) && t.channel == s.channel + Stores(sent)
        invariant Drain(disp.decoding, t) == final
        decreases |pending|
      {
        RemoveSize(pending, next);
        DrainStep(disp.decoding, t, s.channel, sent);
        t := DoEmit(disp.decoding, t);
        var b := pending[next];
        pending, next := pending - {next}, b[|b| - 1].index + 1;
        var done := DecodeBatch(b);
        sent := sent + [done];
      }
    }
  }
}
