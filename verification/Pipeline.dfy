// The decoding pipeline as a system of threads that take steps: input threads, the event loop, the
// parallel workers and the serial worker, joined by unbounded first-in first-out channels
// (genet-kernel/src/store.rs, decoder/parallel.rs, decoder/serial.rs).
module Pipeline {
  import opened Base
  import opened Frames
  import opened EventLoop

  type Batch = seq<Frame>

  // What the decoders compute. A parallel worker's result depends on the frame alone; the
  // serial worker threads a state through the frames.
  datatype Decoding<!S> = Decoding(parallel: Body -> Body, serial: (S, Body) -> (S, Body), init: S)

  datatype Command =
    | PushFrames(result: Option<seq<Layer>>)      // None: the reader failed
    | PushSerialFrames(batch: Batch)
    | StoreFrames(batch: Batch)
    | SetFilter(id: nat, filter: Option<Filter>)
    | PushOutput(id: nat, filter: Option<Filter>) // reads the store only: StoreThread.Thread.ProcessOutput

  datatype State<S> = State(
    channel: seq<Command>,
    // event loop
    cnt: nat,
    store: seq<Frame>,
    results: Results,
    // parallel pool: its queue, and the batches its busy workers hold
    parallelQueue: seq<Batch>,
    hands: seq<Batch>,
    // serial pool: its queue, the reordering map, whether it is inside the draining loop
    serialQueue: seq<Batch>,
    pending: map<nat, Batch>,
    next: nat,
    memory: S,
    draining: bool,
    // history, which no step reads: the accepted batches, and how many the serial worker has passed on
    log: seq<seq<Layer>>,
    emitted: nat)

  function Init<S>(d: Decoding<S>): State<S>
  {
    State([], 0, [], NO_RESULTS, [], [], [], map[], 0, d.init, false, [], 0)
  }

  // ---- What each thread computes

  function ParallelFrame<S>(d: Decoding<S>, f: Frame): Frame
  {
    f.(body := d.parallel(f.body))
  }

  // One pass of a parallel worker over a batch.
  function ParallelBatch<S>(d: Decoding<S>, b: Batch): Batch
  {
    seq(|b|, k requires 0 <= k < |b| => ParallelFrame(d, b[k]))
  }

  // One pass of the serial worker over a batch.
  function SerialBatch<S>(d: Decoding<S>, m: S, b: Batch): (r: (S, Batch))
    ensures |r.1| == |b|
  {
    if b == [] then (m, [])
    else
      var (m', done) := SerialBatch(d, m, b[..|b| - 1]);
      var f := b[|b| - 1];
      var (m'', body) := d.serial(m', f.body);
      (m'', done + [f.(body := body)])
  }

  // Filing a received batch under its first index.
  function File(pending: map<nat, Batch>, b: Batch): map<nat, Batch>
  {
    if b == [] then pending else pending[b[0].index := b]
  }

  // ---- Steps

  datatype Step =
    | Input(cmd: Command)  // an input thread, or a caller of set_filter and push_output
    | Loop                 // the event loop takes a command
    | Take                 // an idle parallel worker takes a batch
    | Finish(i: nat)       // a busy parallel worker decodes its batch and sends it on
    | Receive              // the serial worker files a batch
    | Emit                 // the serial worker takes one turn of its draining loop

  predicate FromOutside(cmd: Command)
  {
    !cmd.PushSerialFrames? && !cmd.StoreFrames?
  }

  // workers is the number of parallel workers.
  predicate Enabled<S>(workers: nat, s: State<S>, step: Step)
  {
    match step
    case Input(cmd) => FromOutside(cmd)
    case Loop => s.channel != []
    case Take => s.parallelQueue != [] && |s.hands| < workers
    case Finish(i) => i < |s.hands|
    case Receive => !s.draining && s.serialQueue != []
    case Emit => s.draining
  }

  function RunCommand<S>(s: State<S>, cmd: Command): State<S>
  {
    match cmd
    case PushFrames(result) =>
      if result.None? || result.value == [] then s
      else
        var roots := result.value;
        s.(cnt := (s.cnt + |roots|) % TWO_32,
           parallelQueue := s.parallelQueue + [Number(s.cnt, roots)],
           log := s.log + [roots])
    case PushSerialFrames(batch) => s.(serialQueue := s.serialQueue + [batch])
    case StoreFrames(batch) => s.(store := s.store + batch)
    case SetFilter(id, filter) => s.(results := PushFilter(s.results, id, filter))
    case PushOutput(_, _) => s
  }

  function DoLoop<S>(s: State<S>): State<S>
    requires s.channel != []
  {
    var s' := RunCommand(s.(channel := s.channel[1..]), s.channel[0]);
    s'.(results := CatchUp(s'.results, s'.store))
  }

  function DoTake<S>(s: State<S>): State<S>
    requires s.parallelQueue != []
  {
    s.(parallelQueue := s.parallelQueue[1..], hands := s.hands + [s.parallelQueue[0]])
  }

  function DoFinish<S>(d: Decoding<S>, s: State<S>, i: nat): State<S>
    requires i < |s.hands|
  {
    s.(hands := s.hands[..i] + s.hands[i + 1..],
       channel := s.channel + [PushSerialFrames(ParallelBatch(d, s.hands[i]))])
  }

  function DoReceive<S>(s: State<S>): State<S>
    requires s.serialQueue != []
  {
    s.(serialQueue := s.serialQueue[1..], pending := File(s.pending, s.serialQueue[0]), draining := true)
  }

  predicate CanEmit<S>(s: State<S>)
  {
    s.next in s.pending && s.pending[s.next] != []
  }

  function DoEmit<S>(d: Decoding<S>, s: State<S>): State<S>
    requires CanEmit(s)
  {
    var b := s.pending[s.next];
    var (memory, done) := SerialBatch(d, s.memory, b);
    s.(pending := s.pending - {s.next}, next := b[|b| - 1].index + 1, memory := memory,
       channel := s.channel + [StoreFrames(done)], emitted := s.emitted + 1)
  }

  function Do<S>(d: Decoding<S>, workers: nat, s: State<S>, step: Step): State<S>
    requires Enabled(workers, s, step)
  {
    match step
    case Input(cmd) => s.(channel := s.channel + [cmd])
    case Loop => DoLoop(s)
    case Take => DoTake(s)
    case Finish(i) => DoFinish(d, s, i)
    case Receive => DoReceive(s)
    case Emit => if CanEmit(s) then DoEmit(d, s) else s.(draining := false)
  }

  // A schedule lists steps in the order they happen; a step that is not possible is passed over.
  function Run<S>(d: Decoding<S>, workers: nat, schedule: seq<Step>): State<S>
  {
    if schedule == [] then Init(d)
    else
      var s := Run(d, workers, schedule[..|schedule| - 1]);
      var step := schedule[|schedule| - 1];
      if Enabled(workers, s, step) then Do(d, workers, s, step) else s
  }

  // ---- The sequential reference

  // All layers accepted so far, in order.
  function Accepted<S>(s: State<S>): seq<Layer>
  {
    Flatten(s.log)
  }

  // Decoding one frame after the other: parallel decoders, then the serial decoders.
  function Sequential<S>(d: Decoding<S>, roots: seq<Layer>): (S, seq<Frame>)
  {
    if roots == [] then (d.init, [])
    else
      var (m, frames) := Sequential(d, roots[..|roots| - 1]);
      var (m', body) := d.serial(m, d.parallel(Body([roots[|roots| - 1]], [])));
      (m', frames + [Frame(|roots| - 1, body)])
  }
}
