// The parallel workers as threads of their own: each has a dispatcher whose memory lives from batch to batch
// (genet-kernel/src/decoder/parallel.rs). The pipeline with one pure function for all of them is what
// remains when the memories make no difference.
module Threads {
  import opened Base
  import opened Frames
  import opened EventLoop
  import opened Pipeline
  import opened PipelineInputs
  import opened PipelineTheorems

  // What a thread decodes with, and its memory at the start.
  datatype Worker<!P> = Worker(decode: (P, Body) -> (P, Body), init: P)

  // The batch state.hands[k] is in the hands of thread owners[k]; memories[t] is what thread t remembers.
  datatype Crowd<P, S> = Crowd(state: State<S>, owners: seq<nat>, memories: seq<P>)

  // Batches are taken and finished by a certain thread; all other steps are those of the pipeline.
  datatype Move = TakeBy(thread: nat) | FinishBy(thread: nat) | Other(step: Step)

  // One pass of a thread over a batch.
  function Pass<P>(w: Worker<P>, m: P, b: Batch): (r: (P, Batch))
    ensures |r.1| == |b|
  {
    if b == [] then (m, [])
    else
      var (before, done) := Pass(w, m, b[..|b| - 1]);
      var f := b[|b| - 1];
      var (after, body) := w.decode(before, f.body);
      (after, done + [f.(body := body)])
  }

  function Position(s: seq<nat>, x: nat): (i: nat)
    requires x in s
    ensures i < |s| && s[i] == x
  {
    if s[0] == x then 0 else 1 + Position(s[1..], x)
  }

  function Without<T>(s: seq<T>, i: nat): (r: seq<T>)
    requires i < |s|
    ensures |r| == |s| - 1
  {
    s[..i] + s[i + 1..]
  }

  // Every busy thread holds one batch.
  ghost predicate WellStaffed<P, S>(c: Crowd<P, S>)
  {
    && |c.owners| == |c.state.hands|
    && (forall k :: 0 <= k < |c.owners| ==> c.owners[k] < |c.memories|)
    && (forall j, k :: 0 <= j < k < |c.owners| ==> c.owners[j] != c.owners[k])
  }

  ghost predicate CanMove<P, S>(c: Crowd<P, S>, m: Move)
  {
    match m
    case TakeBy(t) => t < |c.memories| && t !in c.owners && c.state.parallelQueue != []
    case FinishBy(t) => t in c.owners
    case Other(step) => !step.Take? && !step.Finish? && Enabled(|c.memories|, c.state, step)
  }

  ghost function FinishOf<P, S>(w: Worker<P>, c: Crowd<P, S>, t: nat): (r: Crowd<P, S>)
    requires WellStaffed(c) && t in c.owners
    ensures WellStaffed(r) && |r.memories| == |c.memories|
  {
    var i := Position(c.owners, t);
    var (memory, done) := Pass(w, c.memories[t], c.state.hands[i]);
    Crowd(
      c.state.(hands := Without(c.state.hands, i), channel := c.state.channel + [PushSerialFrames(done)]),
      Without(c.owners, i),
      c.memories[t := memory])
  }

  ghost function Make<P, S>(w: Worker<P>, d: Decoding<S>, c: Crowd<P, S>, m: Move): (r: Crowd<P, S>)
    requires WellStaffed(c) && CanMove(c, m)
    ensures WellStaffed(r) && |r.memories| == |c.memories|
  {
    match m
    case TakeBy(t) => c.(state := DoTake(c.state), owners := c.owners + [t])
    case FinishBy(t) => FinishOf(w, c, t)
    case Other(step) => c.(state := Do(d, |c.memories|, c.state, step))
  }

  // A run of threads; a move that is not possible is passed over.
  ghost function Play<P, S>(w: Worker<P>, d: Decoding<S>, threads: nat, moves: seq<Move>): (c: Crowd<P, S>)
    ensures WellStaffed(c) && |c.memories| == threads
  {
    if moves == [] then Crowd(Init(d), [], seq(threads, _ => w.init))
    else
      var c := Play(w, d, threads, moves[..|moves| - 1]);
      var m := moves[|moves| - 1];
      if CanMove(c, m) then Make(w, d, c, m) else c
  }

  // ---- Memories that make no difference

  // With any memory that good admits, a frame comes out as with the first memory, and good is kept.
  ghost predicate Forgetful<P(!new)>(w: Worker<P>, good: P -> bool)
  {
    good(w.init) && forall m, body :: good(m) ==> Forgets(w, good, m, body)
  }

  predicate Forgets<P>(w: Worker<P>, good: P -> bool, m: P, body: Body)
  {
    good(w.decode(m, body).0) && w.decode(m, body).1 == w.decode(w.init, body).1
  }

  // The pure function of the pipeline is what a thread does with its first memory.
  ghost predicate Alone<P, S>(w: Worker<P>, d: Decoding<S>)
  {
    forall body :: d.parallel(body) == w.decode(w.init, body).1
  }

  ghost predicate AllGood<P>(good: P -> bool, memories: seq<P>)
  {
    forall t :: 0 <= t < |memories| ==> good(memories[t])
  }

  lemma {:induction false} PassIsPure<P(!new), S>(w: Worker<P>, good: P -> bool, d: Decoding<S>, m: P, b: Batch)
    requires Forgetful(w, good) && Alone(w, d) && good(m)
    ensures good(Pass(w, m, b).0) && Pass(w, m, b).1 == ParallelBatch(d, b)
  {
    if b != [] {
      var init, f := b[..|b| - 1], b[|b| - 1];
      PassIsPure(w, good, d, m, init);
      assert Forgets(w, good, Pass(w, m, init).0, f.body);
      assert d.parallel(f.body) == w.decode(w.init, f.body).1;
      assert ParallelBatch(d, b) == ParallelBatch(d, init) + [ParallelFrame(d, f)];
    }
  }

  // ---- An idle thread

  lemma {:induction false} DistinctBounded(s: seq<nat>, n: nat)
    requires forall k :: 0 <= k < |s| ==> s[k] < n
    requires forall j, k :: 0 <= j < k < |s| ==> s[j] != s[k]
    ensures |s| <= n
  {
    if s != [] {
      assert s[0] < n;
      if n - 1 in s {
        var i := Position(s, n - 1);
        DistinctBounded(Without(s, i), n - 1);
      } else {
        DistinctBounded(s, n - 1);
      }
    }
  }

  lemma {:induction false} HoldsAll(s: seq<nat>, n: nat)
    requires forall t: nat :: t < n ==> t in s
    ensures n <= |s|
  {
    if n > 0 {
      var i := Position(s, n - 1);
      var rest := Without(s, i);
      forall t: nat | t < n - 1 ensures t in rest {
        var k := Position(s, t);
        assert if k < i then rest[k] == t else rest[k - 1] == t;
      }
      HoldsAll(rest, n - 1);
    }
  }

  /** A batch can be taken by some thread exactly when the pipeline has a worker to spare. */
  lemma SomeThreadIsIdle<P, S>(c: Crowd<P, S>)
    requires WellStaffed(c)
    ensures (exists t :: CanMove(c, TakeBy(t))) <==> Enabled(|c.memories|, c.state, Take)
  {
    var n := |c.memories|;
    if t :| CanMove(c, TakeBy(t)) {
      DistinctBounded(c.owners + [t], n);
    }
    if Enabled(n, c.state, Take) && forall t: nat :: t < n ==> t in c.owners {
      HoldsAll(c.owners, n);
      assert false;
    }
    if Enabled(n, c.state, Take) {
      var t: nat :| t < n && t !in c.owners;
      assert CanMove(c, TakeBy(t));
    }
  }

  // ---- Refinement

  // The step of the pipeline that a move is.
  ghost function StepOf<P, S>(c: Crowd<P, S>, m: Move): Step
    requires CanMove(c, m)
  {
    match m
    case TakeBy(_) => Take
    case FinishBy(t) => Finish(Position(c.owners, t))
    case Other(step) => step
  }

  lemma MoveIsStep<P(!new), S>(w: Worker<P>, good: P -> bool, d: Decoding<S>, c: Crowd<P, S>, m: Move)
    requires Forgetful(w, good) && Alone(w, d) && WellStaffed(c) && CanMove(c, m) && AllGood(good, c.memories)
    ensures Enabled(|c.memories|, c.state, StepOf(c, m))
    ensures Make(w, d, c, m).state == Do(d, |c.memories|, c.state, StepOf(c, m))
    ensures AllGood(good, Make(w, d, c, m).memories)
  {
    match m
    case TakeBy(t) => SomeThreadIsIdle(c);
    case FinishBy(t) =>
      PassIsPure(w, good, d, c.memories[t], c.state.hands[Position(c.owners, t)]);
    case Other(_) =>
  }

  lemma RunOneMore<S>(d: Decoding<S>, workers: nat, schedule: seq<Step>, step: Step)
    requires Enabled(workers, Run(d, workers, schedule), step)
    ensures Run(d, workers, schedule + [step]) == Do(d, workers, Run(d, workers, schedule), step)
  {
    assert (schedule + [step])[..|schedule|] == schedule;
  }

  // The steps of the pipeline, with the inputs among them.
  function StepsOf(moves: seq<Move>): seq<Step>
  {
    if moves == [] then []
    else StepsOf(moves[..|moves| - 1]) + if moves[|moves| - 1].Other? then [moves[|moves| - 1].step] else []
  }

  // Every layer that the inputs among the moves push, in order.
  function OfferedBy(moves: seq<Move>): seq<Layer>
  {
    Offered(StepsOf(moves))
  }

  lemma CommandsOneMore(schedule: seq<Step>, step: Step)
    ensures Commands(schedule + [step]) ==
      Commands(schedule) + if step.Input? && FromOutside(step.cmd) then [step.cmd] else []
  {
    assert (schedule + [step])[..|schedule|] == schedule;
  }

  lemma StepsOneMore(moves: seq<Move>, m: Move)
    ensures StepsOf(moves + [m]) == if m.Other? then StepsOf(moves) + [m.step] else StepsOf(moves)
  {
    assert (moves + [m])[..|moves|] == moves;
  }

  // The same step more on both sides, or one that is no input.
  lemma CommandsAgree(schedule: seq<Step>, steps: seq<Step>, step: Step)
    requires Commands(schedule) == Commands(steps)
    ensures Commands(schedule + [step]) == Commands(steps + [step])
    ensures !step.Input? || !FromOutside(step.cmd) ==>
      Commands(schedule + [step]) == Commands(steps) && Commands(schedule) == Commands(steps + [step])
  {
    CommandsOneMore(schedule, step);
    CommandsOneMore(steps, step);
  }

  lemma OnlyInputsAreInputs<P, S>(c: Crowd<P, S>, m: Move)
    requires CanMove(c, m)
    ensures if m.Other? then StepOf(c, m) == m.step else !StepOf(c, m).Input?
  {
  }

  // A move gives the pipeline the same commands as its step.
  lemma SameCommands<P, S>(c: Crowd<P, S>, moves: seq<Move>, m: Move, schedule: seq<Step>)
    requires Commands(schedule) == Commands(StepsOf(moves))
    ensures CanMove(c, m) ==> Commands(schedule + [StepOf(c, m)]) == Commands(StepsOf(moves + [m]))
    ensures !CanMove(c, m) ==> Commands(schedule) == Commands(StepsOf(moves + [m]))
  {
    StepsOneMore(moves, m);
    if CanMove(c, m) {
      OnlyInputsAreInputs(c, m);
      CommandsAgree(schedule, StepsOf(moves), StepOf(c, m));
    } else if m.Other? {
      CommandsAgree(schedule, StepsOf(moves), m.step);
    }
  }

  /** Every run of threads is a run of the pipeline: whichever thread decodes a batch, and whatever it has
      decoded before, the state is one that the pipeline with the pure function reaches too. */
  lemma {:induction false} ThreadsRefinePipeline<P(!new), S>(w: Worker<P>, good: P -> bool, d: Decoding<S>, threads: nat,
                                                              moves: seq<Move>)
    returns (schedule: seq<Step>)
    requires Forgetful(w, good) && Alone(w, d)
    ensures Run(d, threads, schedule) == Play(w, d, threads, moves).state
    ensures AllGood(good, Play(w, d, threads, moves).memories)
    ensures Commands(schedule) == Commands(StepsOf(moves))
  {
    schedule := [];
    if moves != [] {
      var init, m := moves[..|moves| - 1], moves[|moves| - 1];
      schedule := ThreadsRefinePipeline(w, good, d, threads, init);
      var c := Play(w, d, threads, init);
      SameCommands(c, init, m, schedule);
      assert init + [m] == moves;
      if CanMove(c, m) {
        MoveIsStep(w, good, d, c, m);
        RunOneMore(d, threads, schedule, StepOf(c, m));
        schedule := schedule + [StepOf(c, m)];
      }
    }
  }

  /** Under any interleaving of the threads the store is a prefix of the sequential decoding, its frames carry
      their positions, and the filter lists are complete. */
  lemma ThreadsRefineSequential<P(!new), S>(w: Worker<P>, good: P -> bool, d: Decoding<S>, threads: nat, moves: seq<Move>)
    requires Forgetful(w, good) && Alone(w, d)
    requires |Accepted(Play(w, d, threads, moves).state)| <= TWO_32
    ensures var s := Play(w, d, threads, moves).state;
      Refines(d, OfferedBy(moves), s) && IndexIsPosition(s.store) && UpToDate(s.results, s.store)
  {
    var schedule := ThreadsRefinePipeline(w, good, d, threads, moves);
    ConcurrentRefinesSequential(d, threads, schedule);
    StoredIndexIsPosition(d, threads, schedule);
    FilteringIsComplete(d, threads, schedule);
  }

  // No thread can move without new input.
  ghost predicate AtRest<P, S>(c: Crowd<P, S>)
  {
    forall m :: CanMove(c, m) ==> m.Other? && m.step.Input?
  }

  lemma SomeMove<P, S>(c: Crowd<P, S>, step: Step)
    requires WellStaffed(c) && Enabled(|c.memories|, c.state, step) && !step.Input?
    ensures exists m :: CanMove(c, m) && !(m.Other? && m.step.Input?)
  {
    if step.Take? {
      SomeThreadIsIdle(c);
      var t :| CanMove(c, TakeBy(t));
    } else if step.Finish? {
      assert CanMove(c, FinishBy(c.owners[step.i]));
    } else {
      assert CanMove(c, Other(step));
    }
  }

  lemma RestIsQuiescent<P, S>(c: Crowd<P, S>)
    requires WellStaffed(c) && AtRest(c)
    ensures Quiescent(|c.memories|, c.state)
  {
    forall step | Enabled(|c.memories|, c.state, step) ensures step.Input? {
      if !step.Input? { SomeMove(c, step); }
    }
  }

  /** When all threads rest, no batch is stranded: every layer that was pushed is in the store. */
  lemma ThreadsStrandNothing<P(!new), S>(w: Worker<P>, good: P -> bool, d: Decoding<S>, threads: nat, moves: seq<Move>)
    requires Forgetful(w, good) && Alone(w, d) && threads > 0
    requires |Accepted(Play(w, d, threads, moves).state)| <= TWO_32 && AtRest(Play(w, d, threads, moves))
    ensures Complete(d, OfferedBy(moves), Play(w, d, threads, moves).state)
  {
    RestIsQuiescent(Play(w, d, threads, moves));
    var schedule := ThreadsRefinePipeline(w, good, d, threads, moves);
    NothingStranded(d, threads, schedule);
  }

  // ---- The loop of a thread

  class Thread<P> {
    const worker: Worker<P>
    var memory: P

    constructor (w: Worker<P>)
      ensures worker == w && memory == w.init
    {
      worker, memory := w, w.init;
    }

    // One turn of the receiving loop: the batch is decoded in place, then sent on.
    method Process(frames: array<Frame>)
      modifies this, frames
      ensures (memory, frames[..]) == Pass(worker, old(memory), old(frames[..]))
    {
      ghost var before := frames[..];
      for k := 0 to frames.Length
        invariant (memory, frames[..k]) == Pass(worker, old(memory), before[..k])
        invariant frames[k..] == before[k..]
      {
        var f := frames[k];
        var (after, body) := worker.decode(memory, f.body);
        memory := after;
        frames[k] := f.(body := body);
        assert before[..k + 1][..k] == before[..k];
        assert frames[..k + 1] == frames[..k] + [f.(body := body)];
      }
      assert frames[..frames.Length] == frames[..] && before[..frames.Length] == before;
    }
  }
}
